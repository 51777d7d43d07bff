/** Date helpers over attendance records: the years the records span and
    the complete work days (dates with both a check-in and a check-out).
    A record without a date is ignored; a record counts as a check-in only
    when its type is CHECKIN, and as a check-out otherwise. A complete day,
    a `datetime` at 00:00 in Python, is represented by its day number. */
module Dates {
  import opened Common
  import opened Records

  /** Some record of date `d` fills the check-in slot (`checkin`) or the
      check-out slot (`!checkin`). */
  predicate HasKind(rs: seq<AttendanceRecord>, d: int, checkin: bool) {
    exists k :: 0 <= k < |rs| && Fills(rs[k], d, checkin)
  }

  /** `years_from_records`. */
  method YearsFromRecords(rs: seq<AttendanceRecord>) returns (years: set<int>)
    ensures forall y :: y in years <==>
      exists k :: 0 <= k < |rs| && rs[k].date.Some? && CivilFromDays(rs[k].date.value).year == y
  {
    years := {};
    for i := 0 to |rs|
      invariant forall y :: y in years <==>
        exists k :: 0 <= k < i && rs[k].date.Some? && CivilFromDays(rs[k].date.value).year == y
    {
      if rs[i].date.Some? {
        years := years + {CivilFromDays(rs[i].date.value).year};
      }
    }
  }

  /** One more record adds at most its own date and kind. */
  lemma HasKindStep(rs: seq<AttendanceRecord>, i: nat, d: int, checkin: bool)
    requires i < |rs|
    ensures HasKind(rs[..i + 1], d, checkin) <==> HasKind(rs[..i], d, checkin) || Fills(rs[i], d, checkin)
  {
    var a := rs[..i + 1];
    assert forall k :: 0 <= k < i ==> a[k] == rs[..i][k];
    if HasKind(a, d, checkin) {
      var k :| 0 <= k < |a| && Fills(a[k], d, checkin);
      if k < i { assert Fills(rs[..i][k], d, checkin); }
    }
    if Fills(rs[i], d, checkin) { assert Fills(a[i], d, checkin); }
  }

  predicate IntLe(a: int, b: int) {
    a <= b
  }

  lemma IntLeIsTotalPreorder()
    ensures TotalPreorder(IntLe)
  {
  }

  /** The first loop of `identify_complete_work_days`: the `daily` dict,
      as its keys in insertion order and the two flags of each key. */
  method CollectFlags(rs: seq<AttendanceRecord>) returns (order: seq<int>, flags: map<int, (bool, bool)>)
    ensures order == DistinctDates(rs) && Distinct(order)
    ensures forall d :: d in flags <==> d in order
    ensures forall d :: d in flags ==> flags[d].0 == HasKind(rs, d, true) && flags[d].1 == HasKind(rs, d, false)
  {
    order := [];
    flags := map[];
    for i := 0 to |rs|
      invariant order == DistinctDates(rs[..i])
      invariant forall d :: d in flags <==> d in order
      invariant forall d :: d in flags ==>
        flags[d].0 == HasKind(rs[..i], d, true) && flags[d].1 == HasKind(rs[..i], d, false)
    {
      var r := rs[i];
      assert rs[..i + 1][..i] == rs[..i];
      forall d, c ensures HasKind(rs[..i + 1], d, c) <==> HasKind(rs[..i], d, c) || Fills(r, d, c) {
        HasKindStep(rs, i, d, c);
      }
      if r.date.Some? {
        var d := r.date.value;
        if d !in flags {
          order := order + [d];
          flags := flags[d := (false, false)];
        }
        if IsCheckIn(r) {
          flags := flags[d := (true, flags[d].1)];
        } else {
          flags := flags[d := (flags[d].0, true)];
        }
      }
    }
    assert rs[..|rs|] == rs;
  }

  /** The second loop: the keys whose two flags are set, each once. */
  method SelectComplete(order: seq<int>, flags: map<int, (bool, bool)>) returns (found: seq<int>)
    requires Distinct(order)
    requires forall d :: d in order ==> d in flags
    ensures Distinct(found)
    ensures forall d :: d in found <==> d in order && flags[d].0 && flags[d].1
  {
    found := [];
    for j := 0 to |order|
      invariant forall d :: d in found <==> d in order[..j] && flags[d].0 && flags[d].1
      invariant Distinct(found)
    {
      var d := order[j];
      assert order[..j + 1] == order[..j] + [d];
      if flags[d].0 && flags[d].1 {
        assert d !in order[..j];
        found := found + [d];
      }
    }
    assert order[..|order|] == order;
  }

  /** `sorted` on distinct day numbers: strictly ascending, same members. */
  function SortDays(ds: seq<int>): (r: seq<int>)
    requires Distinct(ds)
    ensures forall i, j :: 0 <= i < j < |r| ==> r[i] < r[j]
    ensures forall d :: d in r <==> d in ds
  {
    IntLeIsTotalPreorder();
    SortBySorted(ds, IntLe);
    var out := SortBy(ds, IntLe);
    PermutationKeepsDistinct(ds, out);
    assert forall d :: d in out <==> d in multiset(out);
    assert forall i, j :: 0 <= i < j < |out| ==> IntLe(out[i], out[j]);
    out
  }

  /** `identify_complete_work_days`: the dates that have a check-in and a
      check-out record, ascending, each once. */
  method IdentifyCompleteWorkDays(rs: seq<AttendanceRecord>) returns (out: seq<int>)
    ensures forall i, j :: 0 <= i < j < |out| ==> out[i] < out[j]
    ensures forall d :: d in out <==> HasKind(rs, d, true) && HasKind(rs, d, false)
  {
    var order, flags := CollectFlags(rs);
    var found := SelectComplete(order, flags);
    out := SortDays(found);
    forall d | HasKind(rs, d, true) ensures d in order {
      var k :| 0 <= k < |rs| && Fills(rs[k], d, true);
      assert d in DistinctDates(rs);
    }
  }
}
