/** The processed-range ledger: for each user, the date ranges already
    analysed (one entry per source file) and the forget-punch usage per
    month, and the filter that keeps only the complete days no processed
    range covers.

    Dates are day numbers. The stored dates are text in `YYYY-MM-DD` form;
    turning them into day numbers (`strptime`) is a parameter `parse` that
    yields `None` where Python raises. */
module State {
  import opened Common

  /** One entry of a user's `processed_date_ranges`. A missing key reads
      as `None`. */
  datatype ProcessedRange = ProcessedRange(
    sourceFile: string,
    startDate: Option<string>,
    endDate: Option<string>,
    lastAnalysisTime: Option<string>)

  /** One user's entry: the processed ranges and the month usage map
      (keyed by `YYYY-MM` text). */
  datatype UserState = UserState(ranges: seq<ProcessedRange>, usage: map<string, int>)

  /** An inclusive span of day numbers. */
  datatype Span = Span(first: int, last: int)

  // ---------------------------------------------------------------------
  // `update_user_state`, on values.

  /** The index of the first entry recorded for `source`, if any. */
  function FirstWithSource(rs: seq<ProcessedRange>, source: string): (r: Option<nat>)
    ensures r.Some? ==> (r.value < |rs| && rs[r.value].sourceFile == source &&
      forall j :: 0 <= j < r.value ==> rs[j].sourceFile != source)
    ensures r.None? <==> forall j :: 0 <= j < |rs| ==> rs[j].sourceFile != source
  {
    if |rs| == 0 then None
    else if rs[0].sourceFile == source then Some(0)
    else
      var rest := FirstWithSource(rs[1..], source);
      assert forall j :: 1 <= j < |rs| ==> rs[1..][j - 1] == rs[j];
      if rest.Some? then Some(rest.value + 1) else None
  }

  /** The range list after recording `nr`: the first entry of the same
      source file is replaced where it stands, otherwise `nr` goes last. */
  function ReplaceOrAppend(rs: seq<ProcessedRange>, nr: ProcessedRange): seq<ProcessedRange> {
    match FirstWithSource(rs, nr.sourceFile)
    case Some(i) => rs[i := nr]
    case None => rs + [nr]
  }

  /** Replace-or-append: with no entry of the same source file the list
      grows by `nr` at the end; with one, the length is unchanged, the first
      such entry becomes `nr` and every other entry stays as it was. */
  lemma ReplaceOrAppendShape(rs: seq<ProcessedRange>, nr: ProcessedRange)
    ensures (forall k :: 0 <= k < |rs| ==> rs[k].sourceFile != nr.sourceFile) ==>
      ReplaceOrAppend(rs, nr) == rs + [nr]
    ensures forall i ::
      (0 <= i < |rs| && rs[i].sourceFile == nr.sourceFile &&
       (forall j :: 0 <= j < i ==> rs[j].sourceFile != nr.sourceFile)) ==>
      (|ReplaceOrAppend(rs, nr)| == |rs| && ReplaceOrAppend(rs, nr)[i] == nr &&
       forall k :: 0 <= k < |rs| && k != i ==> ReplaceOrAppend(rs, nr)[k] == rs[k])
  {
  }

  /** Recording the same range twice is recording it once, and afterwards
      the range is in the list. */
  lemma ReplaceOrAppendIdempotent(rs: seq<ProcessedRange>, nr: ProcessedRange)
    ensures ReplaceOrAppend(ReplaceOrAppend(rs, nr), nr) == ReplaceOrAppend(rs, nr)
    ensures nr in ReplaceOrAppend(rs, nr)
  {
    var once := ReplaceOrAppend(rs, nr);
    match FirstWithSource(rs, nr.sourceFile)
    case Some(i) =>
      assert forall j :: 0 <= j < i ==> once[j] == rs[j];
      assert once[i] == nr;
      var again := FirstWithSource(once, nr.sourceFile);
      assert again.Some?;
      assert again.value == i;
    case None =>
      assert forall j :: 0 <= j < |rs| ==> once[j] == rs[j];
      assert once[|rs|] == nr;
      var again := FirstWithSource(once, nr.sourceFile);
      assert again.Some?;
      assert again.value == |rs|;
  }

  /** `dict.update` of the month usage, done only when a non-empty map is
      given. */
  function MergeUsage(usage: map<string, int>, provided: Option<map<string, int>>): (r: map<string, int>)
    ensures forall k :: k in r <==> k in usage || (provided.Some? && k in provided.value)
    ensures provided.Some? ==> forall k :: k in provided.value ==> r[k] == provided.value[k]
    ensures forall k :: k in usage && (provided.None? || k !in provided.value) ==> r[k] == usage[k]
  {
    if provided.Some? && |provided.value| > 0 then usage + provided.value else usage
  }

  /** A `None` or empty usage map leaves the usage as it was. */
  lemma MergeNothing(usage: map<string, int>, provided: Option<map<string, int>>)
    requires provided.None? || |provided.value| == 0
    ensures MergeUsage(usage, provided) == usage
  {
  }

  /** A user's entry after `update_user_state`. */
  function UpdatedUser(u: UserState, nr: ProcessedRange, provided: Option<map<string, int>>): (r: UserState)
    ensures |r.ranges| <= |u.ranges| + 1
    ensures provided.None? ==> r.usage == u.usage
  {
    UserState(ReplaceOrAppend(u.ranges, nr), MergeUsage(u.usage, provided))
  }

  // ---------------------------------------------------------------------
  // `detect_date_overlap`, on values.

  /** The intersection of `[s, e]` with a span: the later start and the
      earlier end. */
  function Clip(s: int, e: int, sp: Span): (int, int) {
    (if s < sp.first then sp.first else s, if e < sp.last then e else sp.last)
  }

  /** The overlaps of the stored ranges with the inclusive range `[s, e]`,
      in stored order: one (later start, earlier end) pair per intersecting
      range; `None` when a stored date is missing or does not parse. */
  function OverlapsWith(rs: seq<ProcessedRange>, s: int, e: int, parse: string -> Option<int>): (r: Option<seq<(int, int)>>)
    ensures r.Some? ==> (|r.value| <= |rs| &&
      forall k :: 0 <= k < |r.value| ==> s <= r.value[k].0 && r.value[k].1 <= e)
    decreases |rs|
  {
    if |rs| == 0 then Some([])
    else
      var prev := OverlapsWith(rs[..|rs| - 1], s, e, parse);
      var x := rs[|rs| - 1];
      if prev.None? || x.startDate.None? || x.endDate.None? then None
      else
        var xs := parse(x.startDate.value);
        var xe := parse(x.endDate.value);
        if xs.None? || xe.None? then None
        else if s <= xe.value && e >= xs.value then
          Some(prev.value + [Clip(s, e, Span(xs.value, xe.value))])
        else prev
  }

  /** Once a stored date fails to parse, no later range changes that. */
  lemma {:induction false} OverlapsFailureSticks(rs: seq<ProcessedRange>, i: nat, s: int, e: int, parse: string -> Option<int>)
    requires i <= |rs| && OverlapsWith(rs[..i], s, e, parse).None?
    ensures OverlapsWith(rs, s, e, parse).None?
    decreases |rs|
  {
    if i < |rs| {
      var init := rs[..|rs| - 1];
      assert init[..i] == rs[..i];
      OverlapsFailureSticks(init, i, s, e, parse);
    } else {
      assert rs[..i] == rs;
    }
  }

  /** `detect_date_overlap` given the stored ranges: `None` when either new
      date or a stored date does not parse. */
  function Overlaps(rs: seq<ProcessedRange>, newStart: string, newEnd: string, parse: string -> Option<int>): (r: Option<seq<(int, int)>>)
    ensures parse(newStart).None? || parse(newEnd).None? ==> r.None?
    ensures r.Some? ==> |r.value| <= |rs|
  {
    var s := parse(newStart);
    var e := parse(newEnd);
    if s.None? || e.None? then None else OverlapsWith(rs, s.value, e.value, parse)
  }

  /** The stored range `x` parses to the span `sp`. */
  predicate ParsesTo(x: ProcessedRange, parse: string -> Option<int>, sp: Span) {
    x.startDate.Some? && x.endDate.Some? &&
    parse(x.startDate.value) == Some(sp.first) && parse(x.endDate.value) == Some(sp.last)
  }

  /** Each reported pair is the clip of the new range to a stored range;
      when the new range and every stored range run forwards, the pair runs
      forwards too. */
  lemma {:induction false} OverlapsAreIntersections(rs: seq<ProcessedRange>, s: int, e: int, parse: string -> Option<int>)
    requires s <= e
    requires forall k, sp :: 0 <= k < |rs| && ParsesTo(rs[k], parse, sp) ==> sp.first <= sp.last
    ensures OverlapsWith(rs, s, e, parse).Some? ==>
      forall k :: 0 <= k < |OverlapsWith(rs, s, e, parse).value| ==>
        var p := OverlapsWith(rs, s, e, parse).value[k];
        p.0 <= p.1 && exists j, sp :: 0 <= j < |rs| && ParsesTo(rs[j], parse, sp) && p == Clip(s, e, sp)
    decreases |rs|
  {
    if |rs| > 0 {
      var init := rs[..|rs| - 1];
      assert forall k :: 0 <= k < |init| ==> init[k] == rs[k];
      OverlapsAreIntersections(init, s, e, parse);
      var x := rs[|rs| - 1];
      var prev := OverlapsWith(init, s, e, parse);
      if prev.Some? && x.startDate.Some? && x.endDate.Some? {
        var xs := parse(x.startDate.value);
        var xe := parse(x.endDate.value);
        if xs.Some? && xe.Some? && s <= xe.value && e >= xs.value {
          var sp := Span(xs.value, xe.value);
          assert ParsesTo(rs[|rs| - 1], parse, sp);
          var ps := OverlapsWith(rs, s, e, parse).value;
          assert ps == prev.value + [Clip(s, e, sp)];
          forall k | 0 <= k < |ps|
            ensures ps[k].0 <= ps[k].1 && exists j, sp' :: 0 <= j < |rs| && ParsesTo(rs[j], parse, sp') && ps[k] == Clip(s, e, sp')
          {
            if k < |prev.value| {
              assert ps[k] == prev.value[k];
              var j, sp' :| 0 <= j < |init| && ParsesTo(init[j], parse, sp') && prev.value[k] == Clip(s, e, sp');
              assert ParsesTo(rs[j], parse, sp');
            } else {
              assert ps[k] == Clip(s, e, sp);
            }
          }
        }
      }
    }
  }

  /** A new range that meets no stored range reports no overlaps. */
  lemma {:induction false} NoOverlapWhenDisjoint(rs: seq<ProcessedRange>, s: int, e: int, parse: string -> Option<int>)
    requires forall k, sp :: 0 <= k < |rs| && ParsesTo(rs[k], parse, sp) ==> e < sp.first || sp.last < s
    ensures OverlapsWith(rs, s, e, parse).Some? ==> OverlapsWith(rs, s, e, parse).value == []
    decreases |rs|
  {
    if |rs| > 0 {
      var init := rs[..|rs| - 1];
      assert forall k :: 0 <= k < |init| ==> init[k] == rs[k];
      NoOverlapWhenDisjoint(init, s, e, parse);
      var x := rs[|rs| - 1];
      if x.startDate.Some? && x.endDate.Some? {
        var xs := parse(x.startDate.value);
        var xe := parse(x.endDate.value);
        if xs.Some? && xe.Some? {
          assert ParsesTo(rs[|rs| - 1], parse, Span(xs.value, xe.value));
        }
      }
    }
  }

  // ---------------------------------------------------------------------
  // `filter_unprocessed_dates`: the reference definition.

  /** Day `d` lies in the stored range `x` once both of its dates parse. */
  predicate RangeCovers(x: ProcessedRange, parse: string -> Option<int>, d: int) {
    x.startDate.Some? && x.endDate.Some? &&
    parse(x.startDate.value).Some? && parse(x.endDate.value).Some? &&
    parse(x.startDate.value).value <= d <= parse(x.endDate.value).value
  }

  /** Day `d` lies in some stored range whose dates parse. */
  predicate Processed(rs: seq<ProcessedRange>, parse: string -> Option<int>, d: int) {
    exists k :: 0 <= k < |rs| && RangeCovers(rs[k], parse, d)
  }

  /** The complete days, in their order, that no processed range covers;
      missing ranges (`None`) cover nothing. */
  function Unprocessed(ranges: Option<seq<ProcessedRange>>, days: seq<int>, parse: string -> Option<int>): (out: seq<int>)
    ensures |out| <= |days|
    decreases |days|
  {
    if |days| == 0 then []
    else
      var prev := Unprocessed(ranges, days[..|days| - 1], parse);
      var d := days[|days| - 1];
      if ranges.Some? && Processed(ranges.value, parse, d) then prev else prev + [d]
  }

  /** A day is kept exactly when it is one of the complete days and no
      processed range covers it. */
  lemma {:induction false} UnprocessedMembers(ranges: Option<seq<ProcessedRange>>, days: seq<int>, parse: string -> Option<int>)
    ensures forall d :: d in Unprocessed(ranges, days, parse) <==>
      d in days && !(ranges.Some? && Processed(ranges.value, parse, d))
    decreases |days|
  {
    if |days| > 0 {
      var init := days[..|days| - 1];
      UnprocessedMembers(ranges, init, parse);
      assert days == init + [days[|days| - 1]];
    }
  }

  /** With no ranges at all (`None` or `[]`) every day is returned, in
      order. */
  lemma {:induction false} NoRangesKeepsAllDays(ranges: Option<seq<ProcessedRange>>, days: seq<int>, parse: string -> Option<int>)
    requires ranges.None? || ranges.value == []
    ensures Unprocessed(ranges, days, parse) == days
    decreases |days|
  {
    if |days| > 0 {
      NoRangesKeepsAllDays(ranges, days[..|days| - 1], parse);
      assert days == days[..|days| - 1] + [days[|days| - 1]];
    }
  }

  /** The result depends only on which ranges are stored, not on their
      order (nor on repetitions). */
  lemma {:induction false} UnprocessedIgnoresRangeOrder(a: seq<ProcessedRange>, b: seq<ProcessedRange>, days: seq<int>, parse: string -> Option<int>)
    requires forall x :: x in a <==> x in b
    ensures Unprocessed(Some(a), days, parse) == Unprocessed(Some(b), days, parse)
    decreases |days|
  {
    if |days| > 0 {
      UnprocessedIgnoresRangeOrder(a, b, days[..|days| - 1], parse);
      var d := days[|days| - 1];
      if Processed(a, parse, d) {
        var k :| 0 <= k < |a| && RangeCovers(a[k], parse, d);
        assert a[k] in b;
      }
      if Processed(b, parse, d) {
        var k :| 0 <= k < |b| && RangeCovers(b[k], parse, d);
        assert b[k] in a;
      }
    }
  }

  // ---------------------------------------------------------------------
  // `filter_unprocessed_dates`: normalise, sort, merge, look up.

  /** The stored ranges whose two dates parse, as spans, in stored order
      (a malformed entry is skipped). */
  function Normalised(rs: seq<ProcessedRange>, parse: string -> Option<int>): (ns: seq<Span>)
    ensures |ns| <= |rs|
    decreases |rs|
  {
    if |rs| == 0 then []
    else
      var prev := Normalised(rs[..|rs| - 1], parse);
      var x := rs[|rs| - 1];
      if x.startDate.Some? && x.endDate.Some? &&
         parse(x.startDate.value).Some? && parse(x.endDate.value).Some?
      then prev + [Span(parse(x.startDate.value).value, parse(x.endDate.value).value)]
      else prev
  }

  /** Day `d` lies in one of the spans. */
  predicate InSomeSpan(ns: seq<Span>, d: int) {
    exists k :: 0 <= k < |ns| && ns[k].first <= d <= ns[k].last
  }

  lemma InSomeSpanAppend(ns: seq<Span>, sp: Span, d: int)
    ensures InSomeSpan(ns + [sp], d) <==> InSomeSpan(ns, d) || sp.first <= d <= sp.last
  {
    var all := ns + [sp];
    if InSomeSpan(all, d) {
      var k :| 0 <= k < |all| && all[k].first <= d <= all[k].last;
      if k < |ns| { assert all[k] == ns[k]; }
    }
    if InSomeSpan(ns, d) {
      var k :| 0 <= k < |ns| && ns[k].first <= d <= ns[k].last;
      assert all[k] == ns[k];
    }
    if sp.first <= d <= sp.last {
      assert all[|ns|] == sp;
    }
  }

  lemma ProcessedAppend(rs: seq<ProcessedRange>, x: ProcessedRange, parse: string -> Option<int>, d: int)
    ensures Processed(rs + [x], parse, d) <==> Processed(rs, parse, d) || RangeCovers(x, parse, d)
  {
    var all := rs + [x];
    if Processed(all, parse, d) {
      var k :| 0 <= k < |all| && RangeCovers(all[k], parse, d);
      if k < |rs| { assert all[k] == rs[k]; }
    }
    if Processed(rs, parse, d) {
      var k :| 0 <= k < |rs| && RangeCovers(rs[k], parse, d);
      assert all[k] == rs[k];
    }
    if RangeCovers(x, parse, d) {
      assert all[|rs|] == x;
    }
  }

  /** Normalising loses no covered day and adds none. */
  lemma {:induction false} NormalisedCovers(rs: seq<ProcessedRange>, parse: string -> Option<int>, d: int)
    ensures InSomeSpan(Normalised(rs, parse), d) <==> Processed(rs, parse, d)
    decreases |rs|
  {
    if |rs| > 0 {
      var init := rs[..|rs| - 1];
      var x := rs[|rs| - 1];
      NormalisedCovers(init, parse, d);
      assert rs == init + [x];
      ProcessedAppend(init, x, parse, d);
      if x.startDate.Some? && x.endDate.Some? &&
         parse(x.startDate.value).Some? && parse(x.endDate.value).Some? {
        InSomeSpanAppend(Normalised(init, parse), Span(parse(x.startDate.value).value, parse(x.endDate.value).value), d);
      }
    }
  }

  /** Spans are sorted by their start (`key=lambda t: t[0]`). */
  predicate StartLe(a: Span, b: Span) {
    a.first <= b.first
  }

  lemma StartLeIsTotalPreorder()
    ensures TotalPreorder(StartLe)
  {
  }

  /** Reordering the spans changes no covered day. */
  lemma PermutedSpansCover(a: seq<Span>, b: seq<Span>, d: int)
    requires multiset(a) == multiset(b)
    ensures InSomeSpan(a, d) <==> InSomeSpan(b, d)
  {
    if InSomeSpan(a, d) {
      var k :| 0 <= k < |a| && a[k].first <= d <= a[k].last;
      assert a[k] in multiset(b);
      var j :| 0 <= j < |b| && b[j] == a[k];
    }
    if InSomeSpan(b, d) {
      var k :| 0 <= k < |b| && b[k].first <= d <= b[k].last;
      assert b[k] in multiset(a);
      var j :| 0 <= j < |a| && a[j] == b[k];
    }
  }

  /** The merge loop over spans sorted by start: a span that starts after
      the last merged end opens a new merged span, any other one extends the
      last merged span to the greater end. Touching spans are not merged. */
  function Merged(ns: seq<Span>): (ms: seq<Span>)
    ensures |ns| > 0 ==> |ms| > 0
    ensures |ms| <= |ns|
    decreases |ns|
  {
    if |ns| == 0 then []
    else
      var m := Merged(ns[..|ns| - 1]);
      var x := ns[|ns| - 1];
      if |m| == 0 || x.first > m[|m| - 1].last then m + [x]
      else
        var p := m[|m| - 1];
        m[..|m| - 1] + [Span(p.first, if p.last < x.last then x.last else p.last)]
  }

  /** Spans sorted by start. */
  predicate SortedByStart(ns: seq<Span>) {
    forall i, j :: 0 <= i < j < |ns| ==> ns[i].first <= ns[j].first
  }

  /** The invariant the lookup depends on: starts never decrease, and every
      span starts after the end of each span before it. */
  predicate Separated(ms: seq<Span>) {
    forall i, j :: 0 <= i < j < |ms| ==> ms[i].first <= ms[j].first && ms[i].last < ms[j].first
  }

  /** The merged starts are input starts, so none exceeds the last one. */
  lemma {:induction false} MergedStartsBounded(ns: seq<Span>)
    requires SortedByStart(ns)
    ensures |ns| > 0 ==> forall k :: 0 <= k < |Merged(ns)| ==> Merged(ns)[k].first <= ns[|ns| - 1].first
    decreases |ns|
  {
    if |ns| > 1 {
      var init := ns[..|ns| - 1];
      MergedStartsBounded(init);
      assert init[|init| - 1].first <= ns[|ns| - 1].first;
    }
  }

  lemma SeparatedAppend(m: seq<Span>, x: Span)
    requires Separated(m)
    requires |m| == 0 || m[|m| - 1].last < x.first
    requires forall k :: 0 <= k < |m| ==> m[k].first <= x.first
    ensures Separated(m + [x])
  {
    var all := m + [x];
    forall i, j | 0 <= i < j < |all| ensures all[i].first <= all[j].first && all[i].last < all[j].first {
      if j == |m| && i < |m| - 1 {
        assert m[i].last < m[|m| - 1].first;
      }
    }
  }

  lemma SeparatedExtendLast(m: seq<Span>, q: Span)
    requires Separated(m) && |m| > 0
    requires q.first == m[|m| - 1].first
    ensures Separated(m[..|m| - 1] + [q])
  {
    var all := m[..|m| - 1] + [q];
    forall i, j | 0 <= i < j < |all| ensures all[i].first <= all[j].first && all[i].last < all[j].first {
      assert all[i] == m[i];
      if j < |m| - 1 { assert all[j] == m[j]; }
    }
  }

  /** Merging sorted spans gives separated spans. */
  lemma {:induction false} MergedSeparated(ns: seq<Span>)
    requires SortedByStart(ns)
    ensures Separated(Merged(ns))
    decreases |ns|
  {
    if |ns| > 0 {
      var init := ns[..|ns| - 1];
      MergedSeparated(init);
      MergedStartsBounded(init);
      var m := Merged(init);
      var x := ns[|ns| - 1];
      if |m| == 0 || x.first > m[|m| - 1].last {
        if |init| > 0 {
          assert init[|init| - 1].first <= x.first;
        }
        SeparatedAppend(m, x);
      } else {
        var p := m[|m| - 1];
        SeparatedExtendLast(m, Span(p.first, if p.last < x.last then x.last else p.last));
      }
    }
  }

  /** Merging sorted spans covers exactly the days the spans cover. */
  lemma {:induction false} MergedCovers(ns: seq<Span>, d: int)
    requires SortedByStart(ns)
    ensures InSomeSpan(Merged(ns), d) <==> InSomeSpan(ns, d)
    decreases |ns|
  {
    if |ns| > 0 {
      var init := ns[..|ns| - 1];
      var x := ns[|ns| - 1];
      MergedCovers(init, d);
      assert ns == init + [x];
      InSomeSpanAppend(init, x, d);
      var m := Merged(init);
      if |m| == 0 || x.first > m[|m| - 1].last {
        InSomeSpanAppend(m, x, d);
      } else {
        MergedStartsBounded(init);
        var p := m[|m| - 1];
        var q := Span(p.first, if p.last < x.last then x.last else p.last);
        var front := m[..|m| - 1];
        assert m == front + [p];
        InSomeSpanAppend(front, p, d);
        InSomeSpanAppend(front, q, d);
        assert p.first <= x.first <= p.last;
      }
    }
  }

  /** The starts of the spans (`starts = [s for s, _ in merged]`). */
  function Starts(ms: seq<Span>): (r: seq<int>)
    ensures |r| == |ms| && forall k :: 0 <= k < |ms| ==> r[k] == ms[k].first
  {
    seq(|ms|, k requires 0 <= k < |ms| => ms[k].first)
  }

  /** `bisect.bisect_right`: the number of leading elements of a sorted
      list that are at most `x`, found by halving. */
  method BisectRight(a: seq<int>, x: int) returns (lo: nat)
    requires forall i, j :: 0 <= i < j < |a| ==> a[i] <= a[j]
    ensures lo <= |a|
    ensures forall k :: 0 <= k < lo ==> a[k] <= x
    ensures forall k :: lo <= k < |a| ==> a[k] > x
  {
    lo := 0;
    var hi := |a|;
    while lo < hi
      invariant 0 <= lo <= hi <= |a|
      invariant forall k :: 0 <= k < lo ==> a[k] <= x
      invariant forall k :: hi <= k < |a| ==> a[k] > x
      decreases hi - lo
    {
      var mid := (lo + hi) / 2;
      if x < a[mid] {
        hi := mid;
      } else {
        lo := mid + 1;
      }
    }
  }

  /** In separated spans, a day is covered exactly when it lies in the last
      span starting at or before it. */
  lemma LookupFindsCover(ms: seq<Span>, d: int, lo: nat)
    requires Separated(ms)
    requires lo <= |ms|
    requires forall k :: 0 <= k < lo ==> ms[k].first <= d
    requires forall k :: lo <= k < |ms| ==> ms[k].first > d
    ensures InSomeSpan(ms, d) <==> lo >= 1 && ms[lo - 1].first <= d <= ms[lo - 1].last
  {
    if InSomeSpan(ms, d) {
      var k :| 0 <= k < |ms| && ms[k].first <= d <= ms[k].last;
      assert k < lo;
    }
  }

  /** The normalising loop of `filter_unprocessed_dates`: the ranges whose
      two dates parse, as spans. */
  method NormaliseRanges(rs: seq<ProcessedRange>, parse: string -> Option<int>) returns (norm: seq<Span>)
    ensures norm == Normalised(rs, parse)
  {
    norm := [];
    for i := 0 to |rs|
      invariant norm == Normalised(rs[..i], parse)
    {
      assert rs[..i + 1][..i] == rs[..i];
      var x := rs[i];
      if x.startDate.Some? && x.endDate.Some? {
        var s := parse(x.startDate.value);
        var e := parse(x.endDate.value);
        if s.Some? && e.Some? {
          norm := norm + [Span(s.value, e.value)];
        }
      }
    }
    assert rs[..|rs|] == rs;
  }

  /** Sorting the spans by start and merging them: the result is
      separated and covers exactly the days the spans cover. */
  method SortAndMerge(norm: seq<Span>) returns (merged: seq<Span>)
    ensures Separated(merged)
    ensures forall d :: InSomeSpan(merged, d) <==> InSomeSpan(norm, d)
  {
    var sorted := SortBy(norm, StartLe);
    StartLeIsTotalPreorder();
    SortBySorted(norm, StartLe);
    assert SortedByStart(sorted) by {
      forall i, j | 0 <= i < j < |sorted| ensures sorted[i].first <= sorted[j].first {
        assert StartLe(sorted[i], sorted[j]);
      }
    }
    merged := MergeSpans(sorted);
    MergedSeparated(sorted);
    forall d ensures InSomeSpan(merged, d) <==> InSomeSpan(norm, d) {
      MergedCovers(sorted, d);
      PermutedSpansCover(norm, sorted, d);
    }
  }

  /** The lookup of one day in separated spans through their starts. */
  method Covered(merged: seq<Span>, starts: seq<int>, day: int) returns (b: bool)
    requires Separated(merged) && starts == Starts(merged)
    ensures b <==> InSomeSpan(merged, day)
  {
    var lo := BisectRight(starts, day);
    LookupFindsCover(merged, day, lo);
    b := lo >= 1 && merged[lo - 1].first <= day <= merged[lo - 1].last;
  }

  /** `filter_unprocessed_dates`. */
  method FilterUnprocessedDates(ranges: Option<seq<ProcessedRange>>, days: seq<int>, parse: string -> Option<int>)
    returns (out: seq<int>)
    ensures out == Unprocessed(ranges, days, parse)
  {
    var rs := if ranges.Some? then ranges.value else [];
    var norm := NormaliseRanges(rs, parse);
    var merged := SortAndMerge(norm);
    var starts := Starts(merged);
    out := [];
    for i := 0 to |days|
      invariant out == Unprocessed(ranges, days[..i], parse)
    {
      assert days[..i + 1][..i] == days[..i];
      var day := days[i];
      var b := Covered(merged, starts, day);
      NormalisedCovers(rs, parse, day);
      if !b {
        out := out + [day];
      }
    }
    assert days[..|days|] == days;
  }

  /** The merge loop of `filter_unprocessed_dates`, overwriting the last
      merged span in place. */
  method MergeSpans(ns: seq<Span>) returns (merged: seq<Span>)
    ensures merged == Merged(ns)
  {
    merged := [];
    for i := 0 to |ns|
      invariant merged == Merged(ns[..i])
    {
      assert ns[..i + 1][..i] == ns[..i];
      var x := ns[i];
      if |merged| == 0 || x.first > merged[|merged| - 1].last {
        merged := merged + [x];
      } else {
        var p := merged[|merged| - 1];
        merged := merged[|merged| - 1 := Span(p.first, if p.last < x.last then x.last else p.last)];
      }
    }
    assert ns[..|ns|] == ns;
  }

  // ---------------------------------------------------------------------
  // The state manager.

  /** `AttendanceStateManager`: the `users` map of the state file. */
  class AttendanceStateManager {
    var users: map<string, UserState>

    /** `__init__` / `_load_state`: the stored users when the state file
        could be read, no users otherwise. */
    constructor (stored: Option<map<string, UserState>>)
      ensures users == (if stored.Some? then stored.value else map[])
    {
      users := if stored.Some? then stored.value else map[];
    }

    /** A user's entry, or the empty entry `update_user_state` creates. */
    function UserOf(user: string): UserState
      reads this
    {
      if user in users then users[user] else UserState([], map[])
    }

    /** `get_user_processed_ranges`: `[]` for an unknown user. */
    function GetUserProcessedRanges(user: string): (r: seq<ProcessedRange>)
      reads this
      ensures user !in users ==> r == []
      ensures user in users ==> r == users[user].ranges
    {
      UserOf(user).ranges
    }

    /** `get_forget_punch_usage`: 0 for an unknown user or month. */
    function GetForgetPunchUsage(user: string, yearMonth: string): (r: int)
      reads this
      ensures (user !in users || yearMonth !in users[user].usage) ==> r == 0
      ensures user in users && yearMonth in users[user].usage ==> r == users[user].usage[yearMonth]
    {
      if user !in users then 0
      else if yearMonth in users[user].usage then users[user].usage[yearMonth] else 0
    }

    /** `get_last_analysis_time`: the greatest `last_analysis_time` of the
        user's ranges (a missing one reads as ""), or "" when there is
        none. */
    function GetLastAnalysisTime(user: string): (r: string)
      reads this
      ensures user !in users || |users[user].ranges| == 0 ==> r == ""
      ensures user in users ==> forall k :: 0 <= k < |users[user].ranges| ==>
        LexLe(AnalysisTime(users[user].ranges[k]), r)
      ensures user in users && |users[user].ranges| > 0 ==>
        exists k :: 0 <= k < |users[user].ranges| && r == AnalysisTime(users[user].ranges[k])
    {
      if user !in users then ""
      else
        LatestOfTimes(users[user].ranges);
        LexMax(AnalysisTimes(users[user].ranges))
    }

    /** `update_user_state`: an unknown user is first given an empty entry;
        the range replaces the first one of the same source file or goes
        last; a non-empty usage map overwrites the months it names. Other
        users are untouched. */
    method UpdateUserState(user: string, newRange: ProcessedRange, provided: Option<map<string, int>>)
      modifies this
      ensures users == old(users)[user := UpdatedUser(old(UserOf(user)), newRange, provided)]
      ensures provided.Some? ==> forall k :: k in provided.value ==> GetForgetPunchUsage(user, k) == provided.value[k]
      ensures newRange in GetUserProcessedRanges(user)
    {
      if user !in users {
        users := users[user := UserState([], map[])];
      }
      var data := users[user];
      var ranges := RecordRange(data.ranges, newRange);
      var usage := data.usage;
      if provided.Some? && |provided.value| > 0 {
        usage := usage + provided.value;
      }
      UpdatedUserHolds(data, newRange, provided);
      assert UserState(ranges, usage) == UpdatedUser(old(UserOf(user)), newRange, provided);
      users := users[user := UserState(ranges, usage)];
    }

    /** `detect_date_overlap`. */
    method DetectDateOverlap(user: string, newStart: string, newEnd: string, parse: string -> Option<int>)
      returns (r: Option<seq<(int, int)>>)
      ensures r == Overlaps(GetUserProcessedRanges(user), newStart, newEnd, parse)
    {
      var rs := GetUserProcessedRanges(user);
      var s := parse(newStart);
      var e := parse(newEnd);
      if s.None? || e.None? {
        return None;
      }
      var overlaps: seq<(int, int)> := [];
      for i := 0 to |rs|
        invariant OverlapsWith(rs[..i], s.value, e.value, parse) == Some(overlaps)
      {
        assert rs[..i + 1][..i] == rs[..i];
        var x := rs[i];
        if x.startDate.None? || x.endDate.None? {
          OverlapsFailureSticks(rs, i + 1, s.value, e.value, parse);
          return None;
        }
        var xs := parse(x.startDate.value);
        var xe := parse(x.endDate.value);
        if xs.None? || xe.None? {
          OverlapsFailureSticks(rs, i + 1, s.value, e.value, parse);
          return None;
        }
        if s.value <= xe.value && e.value >= xs.value {
          var a := if s.value < xs.value then xs.value else s.value;
          var b := if e.value < xe.value then e.value else xe.value;
          overlaps := overlaps + [(a, b)];
        }
      }
      assert rs[..|rs|] == rs;
      r := Some(overlaps);
    }
  }

  /** The range step of `update_user_state`: the first entry of the same
      source file is overwritten, or the range goes last. */
  method RecordRange(rs: seq<ProcessedRange>, nr: ProcessedRange) returns (r: seq<ProcessedRange>)
    ensures r == ReplaceOrAppend(rs, nr)
  {
    var i := FindSource(rs, nr.sourceFile);
    if i < |rs| {
      r := rs[i := nr];
    } else {
      r := rs + [nr];
    }
  }

  /** After `update_user_state` the range is recorded and every month the
      usage map names has the given count. */
  lemma UpdatedUserHolds(u: UserState, nr: ProcessedRange, provided: Option<map<string, int>>)
    ensures nr in UpdatedUser(u, nr, provided).ranges
    ensures provided.Some? ==> forall k :: k in provided.value ==>
      k in UpdatedUser(u, nr, provided).usage && UpdatedUser(u, nr, provided).usage[k] == provided.value[k]
  {
    ReplaceOrAppendIdempotent(u.ranges, nr);
  }

  /** The scan of `update_user_state` for an entry of the same source
      file: its index, or the length when there is none. */
  method FindSource(rs: seq<ProcessedRange>, source: string) returns (i: nat)
    ensures i <= |rs|
    ensures FirstWithSource(rs, source) == if i < |rs| then Some(i) else None
  {
    i := 0;
    while i < |rs| && rs[i].sourceFile != source
      invariant 0 <= i <= |rs|
      invariant forall j :: 0 <= j < i ==> rs[j].sourceFile != source
    {
      i := i + 1;
    }
    var first := FirstWithSource(rs, source);
    if first.Some? {
      assert first.value == i;
    }
  }

  /** The `last_analysis_time` of each range, in order. */
  function AnalysisTimes(rs: seq<ProcessedRange>): (ts: seq<string>)
    ensures |ts| == |rs| && forall k :: 0 <= k < |rs| ==> ts[k] == AnalysisTime(rs[k])
  {
    seq(|rs|, k requires 0 <= k < |rs| => AnalysisTime(rs[k]))
  }

  /** The greatest analysis time bounds every range's and is one of them. */
  lemma LatestOfTimes(rs: seq<ProcessedRange>)
    ensures forall k :: 0 <= k < |rs| ==> LexLe(AnalysisTime(rs[k]), LexMax(AnalysisTimes(rs)))
    ensures |rs| > 0 ==> exists k :: 0 <= k < |rs| && LexMax(AnalysisTimes(rs)) == AnalysisTime(rs[k])
  {
    var ts := AnalysisTimes(rs);
    LexMaxIsUpperBound(ts);
    forall k | 0 <= k < |rs| ensures LexLe(AnalysisTime(rs[k]), LexMax(ts)) {
      assert ts[k] == AnalysisTime(rs[k]);
    }
    if |rs| > 0 {
      var k :| 0 <= k < |ts| && ts[k] == LexMax(ts);
    }
  }

  /** The `last_analysis_time` of a range, "" when it has none. */
  function AnalysisTime(x: ProcessedRange): string {
    if x.lastAnalysisTime.Some? then x.lastAnalysisTime.value else ""
  }
}
