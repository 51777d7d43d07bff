/** Parsing of one line of the tab-separated punch export (`lib/parser.py`).
    Reading a date-time (`parse_datetime_str`, which is `strptime` with the
    format "%Y/%m/%d %H:%M") is a parameter: any function from text to an
    optional minute timestamp. */
module Parser {
  import opened Common

  /** The number of fields a punch line is padded to. */
  const FieldCount: nat := 9

  /** The length of the run of decimal digits at the start of `s`. */
  function LeadingDigits(s: string): (n: nat)
    ensures n <= |s| && AllDigits(s[..n])
    ensures n < |s| ==> !IsDigit(s[n])
  {
    if |s| > 0 && IsDigit(s[0]) then
      var n := 1 + LeadingDigits(s[1..]);
      assert s[..n] == [s[0]] + s[1..][..n - 1];
      n
    else 0
  }

  /** `p` is whitespace up to index `i`, then at least one digit, then a
      final "→". */
  predicate MarkerSplitAt(p: string, i: int) {
    0 <= i < |p| - 1 && p[|p| - 1] == '→' &&
    (forall j :: 0 <= j < i ==> IsSpace(p[j])) &&
    (forall j :: i <= j < |p| - 1 ==> IsDigit(p[j]))
  }

  /** A line-number marker: whitespace, at least one digit, then "→". */
  predicate IsMarker(p: string) {
    exists i :: 0 <= i < |p| && MarkerSplitAt(p, i)
  }

  /** The length of the marker that starts `line`, or 0 when it has none. */
  function MarkerLength(line: string): (n: nat)
    ensures n <= |line|
  {
    var ws := |line| - |LStrip(line)|;
    var rest := line[ws..];
    var d := LeadingDigits(rest);
    if d >= 1 && d < |rest| && rest[d] == '→' then ws + d + 1 else 0
  }

  /** A non-zero `MarkerLength` measures a marker. */
  lemma MarkerLengthSound(line: string)
    ensures MarkerLength(line) > 0 ==> IsMarker(line[..MarkerLength(line)])
  {
    var ws := |line| - |LStrip(line)|;
    var rest := line[ws..];
    var d := LeadingDigits(rest);
    var n := MarkerLength(line);
    if n > 0 {
      var p := line[..n];
      assert p[n - 1] == rest[d];
      assert forall j :: ws <= j < n - 1 ==> p[j] == rest[..d][j - ws];
      assert MarkerSplitAt(p, ws);
    }
  }

  /** Any marker prefix of `line` has length `MarkerLength(line)`. */
  lemma MarkerLengthComplete(line: string, k: int)
    requires 0 < k <= |line| && IsMarker(line[..k])
    ensures MarkerLength(line) == k
  {
    var p := line[..k];
    var i :| 0 <= i < |p| && MarkerSplitAt(p, i);
    assert line[k - 1] == p[k - 1];
    MarkerStartsAfterSpace(line, k, i);
    MarkerDigits(line, k, i);
    MarkerLengthOf(line, i, k - 1 - i);
  }

  /** With `ws` characters stripped and `d` digits after them, followed by
      the arrow, the marker is `ws + d + 1` long. */
  lemma MarkerLengthOf(line: string, ws: int, d: int)
    requires 0 <= ws && 1 <= d && ws + d < |line|
    requires |line| - |LStrip(line)| == ws && LeadingDigits(line[ws..]) == d && line[ws + d] == '→'
    ensures MarkerLength(line) == ws + d + 1
  {
    assert line[ws..][d] == line[ws + d];
  }

  /** The digits of a marker are the leading digits after its
      whitespace. */
  lemma MarkerDigits(line: string, k: int, i: int)
    requires 0 < k <= |line| && MarkerSplitAt(line[..k], i)
    ensures LeadingDigits(line[i..]) == k - 1 - i
  {
    var p := line[..k];
    var rest := line[i..];
    forall j | 0 <= j < k - 1 - i ensures IsDigit(rest[j]) {
      assert rest[j] == p[i + j];
    }
    assert rest[k - 1 - i] == p[k - 1];
    LeadingDigitsExact(rest, k - 1 - i);
  }

  /** The whitespace before a marker's digits is exactly what `lstrip`
      removes. */
  lemma MarkerStartsAfterSpace(line: string, k: int, i: int)
    requires 0 < k <= |line| && MarkerSplitAt(line[..k], i)
    ensures |line| - |LStrip(line)| == i
  {
    var p := line[..k];
    forall t | 0 <= t < i ensures IsSpace(line[t]) {
      assert line[t] == p[t];
    }
    assert line[i] == p[i];
    DigitIsNotSpace(line[i]);
    LStripRemoves(line, i);
  }

  /** `lstrip` removes exactly the leading whitespace before the first
      other character. */
  lemma {:induction false} LStripRemoves(s: string, i: nat)
    requires i < |s| && !IsSpace(s[i])
    requires forall t :: 0 <= t < i ==> IsSpace(s[t])
    ensures |s| - |LStrip(s)| == i
  {
    if i > 0 {
      assert IsSpace(s[0]);
      forall t | 0 <= t < i - 1 ensures IsSpace(s[1..][t]) {
        assert s[1..][t] == s[t + 1];
      }
      LStripRemoves(s[1..], i - 1);
    }
  }

  /** A run of `n` digits ended by a non-digit is the leading run. */
  lemma {:induction false} LeadingDigitsExact(s: string, n: nat)
    requires n < |s| && !IsDigit(s[n])
    requires forall j :: 0 <= j < n ==> IsDigit(s[j])
    ensures LeadingDigits(s) == n
  {
    if n > 0 {
      forall j | 0 <= j < n - 1 ensures IsDigit(s[1..][j]) {
        assert s[1..][j] == s[j + 1];
      }
      LeadingDigitsExact(s[1..], n - 1);
    }
  }

  lemma DigitIsNotSpace(c: char)
    ensures IsDigit(c) ==> !IsSpace(c)
  {
  }

  /** A zero `MarkerLength` means no prefix of `line` is a marker. */
  lemma NoMarkerWhenZero(line: string)
    ensures MarkerLength(line) == 0 ==> forall k :: 0 < k <= |line| ==> !IsMarker(line[..k])
  {
    forall k | 0 < k <= |line| && IsMarker(line[..k])
      ensures MarkerLength(line) == k
    {
      MarkerLengthComplete(line, k);
    }
  }

  /** `clean_line`: the line without its leading line-number marker. Only
      such a marker is removed, and everything after it is kept as is. */
  function CleanLine(line: string): (r: string)
    ensures |r| <= |line| && r == line[|line| - |r|..]
    ensures |r| < |line| ==> IsMarker(line[..|line| - |r|])
    ensures (exists k :: 0 < k <= |line| && IsMarker(line[..k])) <==> |r| < |line|
  {
    MarkerLengthSound(line);
    NoMarkerWhenZero(line);
    line[MarkerLength(line)..]
  }

  /** `line.split("\t")` padded on the right with "" to at least `expected`
      fields. */
  function PadFields(parts: seq<string>, expected: int): (r: seq<string>)
    ensures |r| == if |parts| < expected then expected else |parts|
    ensures r[..|parts|] == parts
    ensures forall k :: |parts| <= k < |r| ==> r[k] == ""
    decreases expected - |parts|
  {
    if |parts| < expected then PadFields(parts + [""], expected) else parts
  }

  /** `split_fields`: pads the tab-separated fields with empty strings, one
      at a time, until there are `expected` of them. */
  method SplitFields(line: string, expected: int) returns (parts: seq<string>)
    ensures parts == PadFields(Split(line, '\t'), expected)
    ensures |parts| == if |Split(line, '\t')| < expected then expected else |Split(line, '\t')|
    ensures parts[..|Split(line, '\t')|] == Split(line, '\t')
    ensures forall k :: |Split(line, '\t')| <= k < |parts| ==> parts[k] == ""
  {
    parts := Split(line, '\t');
    while |parts| < expected
      invariant PadFields(parts, expected) == PadFields(Split(line, '\t'), expected)
      decreases expected - |parts|
    {
      parts := parts + [""];
    }
  }

  /** The nine fields of a cleaned punch line. */
  function Fields(line: string): (f: seq<string>)
    ensures |f| >= FieldCount
  {
    PadFields(Split(CleanLine(line), '\t'), FieldCount)
  }

  /** The check-in and check-out type labels. */
  const CheckInLabel: string := "上班"
  const CheckOutLabel: string := "下班"

  /** The tuple `parse_line` returns. */
  datatype ParsedLine = ParsedLine(
    scheduled: int,
    actual: Option<int>,
    typeLabel: string,
    cardNumber: string,
    source: string,
    status: string,
    processed: string,
    operation: string,
    note: string)

  /** `parse_line`. */
  function ParseLine(line: string, parseDateTime: string -> Option<int>): (r: Option<ParsedLine>)
    ensures var f := Fields(line);
      r.Some? <==> f[0] != "" && (f[2] == CheckInLabel || f[2] == CheckOutLabel) && parseDateTime(f[0]).Some?
    ensures var f := Fields(line);
      r.Some? ==>
        r.value.scheduled == parseDateTime(f[0]).value &&
        r.value.actual == (if f[1] == "" then None else parseDateTime(f[1])) &&
        r.value.typeLabel == f[2] && r.value.cardNumber == f[3] && r.value.source == f[4] &&
        r.value.status == f[5] && r.value.processed == f[6] && r.value.operation == f[7] &&
        r.value.note == f[8]
  {
    var f := Fields(line);
    if f[0] == "" || !(f[2] == CheckInLabel || f[2] == CheckOutLabel) then None
    else
      var scheduled := parseDateTime(f[0]);
      var actual := if f[1] == "" then None else parseDateTime(f[1]);
      if scheduled.None? then None
      else Some(ParsedLine(scheduled.value, actual, f[2], f[3], f[4], f[5], f[6], f[7], f[8]))
  }

  /** A line with fewer than three fields has an empty type field after
      padding, so `parse_line` rejects it. */
  lemma ShortLineRejected(line: string, parseDateTime: string -> Option<int>)
    requires |Split(CleanLine(line), '\t')| < 3
    ensures ParseLine(line, parseDateTime).None?
  {
    var parts := Split(CleanLine(line), '\t');
    assert Fields(line)[2] == "";
  }
}
