/** `group_daily`: records grouped by date into a check-in slot and a
    check-out slot; a later record overwrites an earlier one in its slot. */
module Grouping {
  import opened Common
  import opened Records

  /** The two slots of one date. */
  datatype Slots = Slots(checkin: Option<AttendanceRecord>, checkout: Option<AttendanceRecord>)

  /** `group_daily`. A record without a date is skipped; a record of type
      CHECKIN goes to the check-in slot and any other one, including a
      record with no type, to the check-out slot. */
  method GroupDaily(rs: seq<AttendanceRecord>) returns (daily: map<int, Slots>)
    ensures forall d :: d in daily <==> exists k :: 0 <= k < |rs| && rs[k].date == Some(d)
    ensures forall d :: d in daily ==> daily[d] == Slots(LastCheckIn(rs, d), LastCheckOut(rs, d))
  {
    daily := map[];
    for i := 0 to |rs|
      invariant forall d :: d in daily <==> exists k :: 0 <= k < i && rs[k].date == Some(d)
      invariant forall d :: d in daily ==> daily[d] == Slots(LastCheckIn(rs[..i], d), LastCheckOut(rs[..i], d))
    {
      var r := rs[i];
      assert rs[..i + 1][..i] == rs[..i];
      if r.date.Some? {
        var d := r.date.value;
        var slots := if d in daily then daily[d] else Slots(None, None);
        if d !in daily {
          LastFillingIsLast(rs[..i], d, true);
          LastFillingIsLast(rs[..i], d, false);
        }
        if IsCheckIn(r) {
          daily := daily[d := Slots(Some(r), slots.checkout)];
        } else {
          daily := daily[d := Slots(slots.checkin, Some(r))];
        }
      }
    }
    assert rs[..|rs|] == rs;
  }
}
