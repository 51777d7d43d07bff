/** Parsing the user name and the covered date range out of an attendance
    file name of the form `YYYYMM[-YYYYMM]-NAME-出勤資料.txt`.

    The regular expression is written out: `re.match` anchors the match at
    the start, the optional second month is tried first (it is greedy),
    the lazy name takes everything up to the fixed suffix, `.` does not
    match a newline and `$` also matches before one final newline. Digits
    are ASCII digits. Dates are returned as calendar dates, not as
    `YYYY-MM-DD` text. */
module Filename {
  import opened Common
  import opened Records

  const Suffix: string := "-出勤資料.txt"

  /** The pieces the pattern captures. */
  datatype FileMatch = FileMatch(startDigits: string, endDigits: Option<string>, user: string)

  /** A month segment: six digits. */
  predicate IsMonthDigits(s: string) {
    |s| == 6 && AllDigits(s)
  }

  /** A name piece `.+?` can match: non-empty, no newline. */
  predicate NamePiece(s: string) {
    |s| > 0 && '\n' !in s
  }

  /** The captured pieces have the shapes the pattern demands. */
  predicate WellFormed(m: FileMatch) {
    IsMonthDigits(m.startDigits) && NamePiece(m.user) &&
    (m.endDigits.Some? ==> IsMonthDigits(m.endDigits.value))
  }

  /** The part of the name before the suffix, from its pieces. */
  function Pieces(m: FileMatch): string {
    m.startDigits + (if m.endDigits.Some? then "-" + m.endDigits.value else "") + "-" + m.user
  }

  /** The name as the pattern reads it back from its pieces. */
  function Compose(m: FileMatch): string {
    Pieces(m) + Suffix
  }

  /** What comes before the suffix, when the name ends with it (or with it
      and one newline). */
  function Stem(f: string): (s: Option<string>)
    ensures s.Some? ==> f == s.value + Suffix || f == s.value + Suffix + "\n"
  {
    if EndsWith(f, Suffix) then Some(f[..|f| - |Suffix|])
    else if EndsWith(f, Suffix + "\n") then
      assert f == f[..|f| - |Suffix| - 1] + Suffix + "\n";
      Some(f[..|f| - |Suffix| - 1])
    else None
  }

  /** The pattern without its suffix, matched against the stem. */
  function MatchStem(s: string): (r: Option<FileMatch>)
    ensures r.Some? ==> WellFormed(r.value) && s == Pieces(r.value)
  {
    if |s| < 8 || !AllDigits(s[..6]) || s[6] != '-' then None
    else if |s| >= 15 && AllDigits(s[7..13]) && s[13] == '-' && NamePiece(s[14..]) then
      var m := FileMatch(s[..6], Some(s[7..13]), s[14..]);
      assert s == m.startDigits + "-" + s[7..13] + "-" + m.user;
      Some(m)
    else if NamePiece(s[7..]) then
      var m := FileMatch(s[..6], None, s[7..]);
      assert s == m.startDigits + "-" + m.user;
      Some(m)
    else None
  }

  /** `re.match(pattern, filename)`. */
  function MatchName(f: string): (r: Option<FileMatch>)
    ensures r.Some? ==> (WellFormed(r.value) && (f == Compose(r.value) || f == Compose(r.value) + "\n"))
  {
    var stem := Stem(f);
    if stem.None? then None else MatchStem(stem.value)
  }

  /** Reading a composed name back gives its pieces, unless a name without
      a second month itself starts like a second month. */
  lemma MatchCompose(m: FileMatch)
    requires WellFormed(m)
    requires m.endDigits.None? ==>
      !(|m.user| >= 8 && AllDigits(m.user[..6]) && m.user[6] == '-' && NamePiece(m.user[7..]))
    ensures MatchName(Compose(m)) == Some(m)
  {
    var f := Compose(m);
    var s := f[..|f| - |Suffix|];
    assert EndsWith(f, Suffix);
    assert s == Pieces(m);
    if m.endDigits.Some? {
      assert s == m.startDigits + "-" + m.endDigits.value + "-" + m.user;
      assert s[..6] == m.startDigits && s[7..13] == m.endDigits.value && s[14..] == m.user;
    } else {
      assert s == m.startDigits + "-" + m.user;
      assert s[..6] == m.startDigits && s[7..] == m.user;
      if |s| >= 15 {
        assert s[7..13] == m.user[..6] && s[14..] == m.user[7..];
      }
    }
  }

  /** The year and month of a month segment (`int(s[:4])`, `int(s[4:6])`). */
  function YearOf(seg: string): nat
    requires IsMonthDigits(seg)
  {
    DigitsValue(seg[..4])
  }

  function MonthOf(seg: string): nat
    requires IsMonthDigits(seg)
  {
    DigitsValue(seg[4..6])
  }

  function DigitOf(c: char): int {
    c as int - '0' as int
  }

  /** One more digit at the end multiplies by ten and adds it. */
  lemma DigitsValueStep(s: string, n: nat)
    requires n < |s| && AllDigits(s)
    ensures DigitsValue(s[..n + 1]) == 10 * DigitsValue(s[..n]) + DigitOf(s[n])
  {
    assert s[..n + 1][..n] == s[..n];
  }

  /** The year and month written in a segment, digit by digit. */
  lemma SegmentValues(seg: string)
    requires IsMonthDigits(seg)
    ensures YearOf(seg) == 1000 * DigitOf(seg[0]) + 100 * DigitOf(seg[1]) + 10 * DigitOf(seg[2]) + DigitOf(seg[3])
    ensures MonthOf(seg) == 10 * DigitOf(seg[4]) + DigitOf(seg[5])
  {
    assert DigitsValue(seg[..0]) == 0;
    DigitsValueStep(seg, 0);
    DigitsValueStep(seg, 1);
    DigitsValueStep(seg, 2);
    DigitsValueStep(seg, 3);
    var mo := seg[4..6];
    assert DigitsValue(mo[..0]) == 0;
    DigitsValueStep(mo, 0);
    DigitsValueStep(mo, 1);
    assert mo[..2] == mo;
  }

  /** `datetime(y, m, 1)` does not raise. */
  predicate FirstOfMonthValid(y: int, m: int) {
    1 <= y <= 9999 && 1 <= m <= 12
  }

  /** `datetime(y, m, 1) - timedelta(days=1)`, defined where it does not
      fall before year 1. */
  function DayBefore(y: int, m: int): Date
    requires 1 <= m <= 12
  {
    if m == 1 then Date(y - 1, 12, 31) else Date(y, m - 1, DaysInMonth(y, m - 1))
  }

  /** The last day of a month is the day before the first of the next. */
  lemma DayBeforeNextMonth(y: int, m: int)
    requires 1 <= m <= 12
    ensures DayBefore(if m == 12 then y + 1 else y, if m == 12 then 1 else m + 1) == Date(y, m, DaysInMonth(y, m))
  {
  }

  /** A parsed name: the user and the first and last covered days. */
  datatype NameRange = NameRange(user: string, start: Date, end: Date)

  /** The date part of `parse_range_and_user` as written, on a match.
      `Success(None)` is the `(None, None, None)` answer; `Failure` is the
      `OverflowError` that escapes when the day before 0001-01-01 is asked
      for. The end month is never checked on its own: only the first of the
      month after it must exist. */
  function ResolveAsWritten(m: FileMatch): (r: Result<Option<NameRange>>)
    requires WellFormed(m)
    ensures r.Success? && r.value.Some? ==> r.value.value.user == m.user
    ensures r.Success? && r.value.Some? ==>
      r.value.value.start == Date(YearOf(m.startDigits), MonthOf(m.startDigits), 1)
  {
    var sy := YearOf(m.startDigits);
    var sm := MonthOf(m.startDigits);
    if !FirstOfMonthValid(sy, sm) then Success(None)
    else
      var ey := if m.endDigits.Some? then YearOf(m.endDigits.value) else sy;
      var em := if m.endDigits.Some? then MonthOf(m.endDigits.value) else sm;
      var ny := ey + (if em == 12 then 1 else 0);
      var nm := if em == 12 then 1 else em + 1;
      if !FirstOfMonthValid(ny, nm) then Success(None)
      else if nm == 1 && ny == 1 then Failure("date value out of range")
      else Success(Some(NameRange(m.user, Date(sy, sm, 1), DayBefore(ny, nm))))
  }

  /** `parse_range_and_user` as written. */
  function ParseRangeAndUserAsWritten(path: string): (r: Result<Option<NameRange>>)
    ensures MatchName(Basename(path)).None? ==> r == Success(None)
    ensures MatchName(Basename(path)).Some? ==> r == ResolveAsWritten(MatchName(Basename(path)).value)
  {
    var found := MatchName(Basename(path));
    if found.None? then Success(None) else ResolveAsWritten(found.value)
  }

  /** The date part with the end month checked like the start month: any
      month outside 1-12, or year 0, in either segment gives no answer, and
      the range ends on the last day of the end month. */
  function Resolve(m: FileMatch): (r: Option<NameRange>)
    requires WellFormed(m)
    ensures r.Some? ==>
      var sy := YearOf(m.startDigits);
      var sm := MonthOf(m.startDigits);
      var ey := if m.endDigits.Some? then YearOf(m.endDigits.value) else sy;
      var em := if m.endDigits.Some? then MonthOf(m.endDigits.value) else sm;
      r.value.user == m.user && 1 <= sm <= 12 && 1 <= em <= 12 &&
      r.value.start == Date(sy, sm, 1) && r.value.end == Date(ey, em, DaysInMonth(ey, em))
  {
    var sy := YearOf(m.startDigits);
    var sm := MonthOf(m.startDigits);
    if !FirstOfMonthValid(sy, sm) then None
    else if m.endDigits.Some? && !FirstOfMonthValid(YearOf(m.endDigits.value), MonthOf(m.endDigits.value)) then None
    else
      var ey := if m.endDigits.Some? then YearOf(m.endDigits.value) else sy;
      var em := if m.endDigits.Some? then MonthOf(m.endDigits.value) else sm;
      var ny := ey + (if em == 12 then 1 else 0);
      var nm := if em == 12 then 1 else em + 1;
      if !FirstOfMonthValid(ny, nm) then None
      else
        DayBeforeNextMonth(ey, em);
        Some(NameRange(m.user, Date(sy, sm, 1), DayBefore(ny, nm)))
  }

  /** `parse_range_and_user` with the end month checked. */
  function ParseRangeAndUser(path: string): (r: Option<NameRange>)
    ensures MatchName(Basename(path)).None? ==> r.None?
    ensures MatchName(Basename(path)).Some? ==> r == Resolve(MatchName(Basename(path)).value)
  {
    var found := MatchName(Basename(path));
    if found.None? then None else Resolve(found.value)
  }

  /** Months outside 1-12 in either segment give no answer. */
  lemma BadMonthRejected(m: FileMatch)
    requires WellFormed(m)
    requires !(1 <= MonthOf(m.startDigits) <= 12) ||
      (m.endDigits.Some? && !(1 <= MonthOf(m.endDigits.value) <= 12))
    ensures Resolve(m).None?
  {
  }

  /** Where the end segment is a real month, the code as written and the
      checked version agree. */
  lemma AsWrittenAgreesOnValidMonths(m: FileMatch)
    requires WellFormed(m)
    requires m.endDigits.Some? ==> FirstOfMonthValid(YearOf(m.endDigits.value), MonthOf(m.endDigits.value))
    ensures ResolveAsWritten(m) == Success(Resolve(m))
  {
  }

  /** The file name of the two lemmas below, read by the pattern. */
  lemma MatchOfExample(user: string, first: string, second: string)
    requires NamePiece(user) && '/' !in user && IsMonthDigits(first) && IsMonthDigits(second)
    requires '/' !in first && '/' !in second
    ensures var f := first + "-" + second + "-" + user + Suffix;
      ParseRangeAndUserAsWritten(f) == ResolveAsWritten(FileMatch(first, Some(second), user)) &&
      ParseRangeAndUser(f) == Resolve(FileMatch(first, Some(second), user))
  {
    var m := FileMatch(first, Some(second), user);
    var f := first + "-" + second + "-" + user + Suffix;
    assert f == Compose(m);
    assert '/' !in Suffix;
    BasenameOfPlainName(f);
    MatchCompose(m);
  }

  /** The segments the two lemmas below use, read digit by digit. */
  lemma Segment202501()
    ensures IsMonthDigits("202501") && YearOf("202501") == 2025 && MonthOf("202501") == 1
  {
    var seg := "202501";
    assert seg[0] == '2' && seg[1] == '0' && seg[2] == '2' && seg[3] == '5' && seg[4] == '0' && seg[5] == '1';
    SegmentValues(seg);
  }

  lemma Segment202500()
    ensures IsMonthDigits("202500") && YearOf("202500") == 2025 && MonthOf("202500") == 0
  {
    var seg := "202500";
    assert seg[0] == '2' && seg[1] == '0' && seg[2] == '2' && seg[3] == '5' && seg[4] == '0' && seg[5] == '0';
    SegmentValues(seg);
  }

  lemma Segment000112()
    ensures IsMonthDigits("000112") && YearOf("000112") == 1 && MonthOf("000112") == 12
  {
    var seg := "000112";
    assert seg[0] == '0' && seg[1] == '0' && seg[2] == '0' && seg[3] == '1' && seg[4] == '1' && seg[5] == '2';
    SegmentValues(seg);
  }

  lemma Segment000012()
    ensures IsMonthDigits("000012") && YearOf("000012") == 0 && MonthOf("000012") == 12
  {
    var seg := "000012";
    assert seg[0] == '0' && seg[1] == '0' && seg[2] == '0' && seg[3] == '0' && seg[4] == '1' && seg[5] == '2';
    SegmentValues(seg);
  }

  /** The pieces of a file name with two month segments, read by the
      pattern from the literal name. */
  lemma ExampleMatch(f: string, first: string, second: string)
    requires IsMonthDigits(first) && IsMonthDigits(second)
    requires f == first + "-" + second + "-" + "王小明" + Suffix
    ensures ParseRangeAndUserAsWritten(f) == ResolveAsWritten(FileMatch(first, Some(second), "王小明"))
    ensures ParseRangeAndUser(f) == Resolve(FileMatch(first, Some(second), "王小明"))
  {
    assert '/' !in first && '/' !in second by {
      assert forall k :: 0 <= k < 6 ==> IsDigit(first[k]) && IsDigit(second[k]);
    }
    MatchOfExample("王小明", first, second);
  }

  /** As written, an end month "00" is accepted and the range ends on the
      last day of the previous year. */
  lemma EndMonthZeroAccepted()
    ensures ParseRangeAndUserAsWritten("202501-202500-王小明-出勤資料.txt") ==
      Success(Some(NameRange("王小明", Date(2025, 1, 1), Date(2024, 12, 31))))
    ensures ParseRangeAndUser("202501-202500-王小明-出勤資料.txt").None?
  {
    Segment202501();
    Segment202500();
    ExampleMatch("202501-202500-王小明-出勤資料.txt", "202501", "202500");
  }

  /** As written, an end segment "000012" escapes as an exception instead
      of giving no answer. */
  lemma YearZeroDecemberRaises()
    ensures ParseRangeAndUserAsWritten("000112-000012-王小明-出勤資料.txt").Failure?
    ensures ParseRangeAndUser("000112-000012-王小明-出勤資料.txt").None?
  {
    Segment000112();
    Segment000012();
    ExampleMatch("000112-000012-王小明-出勤資料.txt", "000112", "000012");
  }

  /** A second segment that is not six digits becomes part of the user
      name. */
  lemma NonDigitSecondSegmentIsName()
    ensures MatchName("202512-2025XX-姓名-出勤資料.txt") == Some(FileMatch("202512", None, "2025XX-姓名"))
  {
    var m := FileMatch("202512", None, "2025XX-姓名");
    assert "202512-2025XX-姓名-出勤資料.txt" == Compose(m);
    assert !IsDigit(m.user[4]);
    MatchCompose(m);
  }
}
