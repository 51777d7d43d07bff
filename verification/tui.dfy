/** The terminal UI's own recent-file list and its table truncation. The
    list lives in the same JSON file as the shared one (`Recent.RecentFile`)
    but holds bare paths; `os.path.exists` is a parameter. */
module Tui {
  import opened Common
  import opened Recent

  /** The existing string paths of the stored list, in stored order. */
  function ExistingPaths(items: seq<JsonItem>, exists_: string -> bool): (r: seq<string>)
    ensures |r| <= |items|
    ensures forall k :: 0 <= k < |r| ==> exists_(r[k]) && JStr(r[k]) in items
    decreases |items|
  {
    if |items| == 0 then []
    else
      var rest := ExistingPaths(items[1..], exists_);
      assert forall k :: 0 <= k < |rest| ==> JStr(rest[k]) in items by {
        forall k | 0 <= k < |rest| ensures JStr(rest[k]) in items {
          assert JStr(rest[k]) in items[1..];
        }
      }
      if items[0].JStr? && exists_(items[0].s) then [items[0].s] + rest else rest
  }

  /** `load_recent_files`: the stored string paths that exist, in stored
      order, cut with Python's `[:limit]`. */
  function LoadRecentFiles(store: RecentFile, limit: int, exists_: string -> bool): (r: seq<string>)
    reads store
    ensures forall k :: 0 <= k < |r| ==> exists_(r[k]) && JStr(r[k]) in store.recent
    ensures limit >= 0 ==> |r| <= limit
  {
    PyPrefix(ExistingPaths(store.recent, exists_), limit)
  }

  /** On a list of bare paths this is the shared loader without missing
      files: both keep the first `limit` existing paths. */
  lemma {:induction false} ExistingIsVisible(items: seq<JsonItem>, exists_: string -> bool)
    requires forall k :: 0 <= k < |items| ==> items[k].JStr?
    ensures ExistingPaths(items, exists_) == Visible(items, false, exists_)
    decreases |items|
  {
    if |items| > 0 {
      ExistingIsVisible(items[1..], exists_);
    }
  }

  lemma AgreesWithSharedLoader(store: RecentFile, limit: int, exists_: string -> bool)
    requires limit >= 1
    requires forall k :: 0 <= k < |store.recent| ==> store.recent[k].JStr?
    ensures LoadRecentFiles(store, limit, exists_) == LoadFrom(store.recent, [], limit, false, exists_)
  {
    ExistingIsVisible(store.recent, exists_);
    LoadIsVisiblePrefix(store.recent, limit, false, exists_);
  }

  /** The index of the first occurrence of `x`. */
  function FirstIndex<T(==)>(s: seq<T>, x: T): (i: nat)
    requires x in s
    ensures i < |s| && s[i] == x && x !in s[..i]
  {
    if s[0] == x then 0
    else
      var i := FirstIndex(s[1..], x);
      assert s[..i + 1] == [s[0]] + s[1..][..i];
      i + 1
  }

  /** Python `list.remove(x)` for an `x` in the list: the first occurrence
      goes, everything else stays in order. */
  function RemoveFirst<T(==)>(s: seq<T>, x: T): (r: seq<T>)
    requires x in s
    ensures r == s[..FirstIndex(s, x)] + s[FirstIndex(s, x) + 1..]
    ensures multiset(r) == multiset(s) - multiset{x}
  {
    var i := FirstIndex(s, x);
    assert s == s[..i] + [x] + s[i + 1..];
    s[..i] + s[i + 1..]
  }

  /** The list `add_recent_file` stores. */
  function StoredList(items: seq<JsonItem>, path: string, limit: int): seq<JsonItem> {
    var without := if JStr(path) in items then RemoveFirst(items, JStr(path)) else items;
    PyPrefix([JStr(path)] + without, limit)
  }

  /** `add_recent_file`: nothing happens for an empty path; otherwise the
      first earlier occurrence of the path is removed, the path is put in
      front and the list is cut with `[:limit]`. A failed write is
      ignored. */
  method AddRecentFile(store: RecentFile, path: string, limit: int, writable: bool)
    modifies store
    ensures path == "" || !writable ==> store.recent == old(store.recent)
    ensures path != "" && writable ==> store.recent == StoredList(old(store.recent), path, limit)
  {
    if path == "" {
      return;
    }
    var items := store.recent;
    if JStr(path) in items {
      items := RemoveFirst(items, JStr(path));
    }
    items := [JStr(path)] + items;
    items := PyPrefix(items, limit);
    if writable {
      store.recent := items;
    }
  }

  /** With a positive limit the path is first, the limit holds, and a path
      stored at most once before is stored exactly once after. */
  lemma StoredListShape(items: seq<JsonItem>, path: string, limit: int)
    requires limit >= 1
    ensures var r := StoredList(items, path, limit);
      |r| >= 1 && r[0] == JStr(path) && |r| <= limit &&
      (multiset(items)[JStr(path)] <= 1 ==> multiset(r)[JStr(path)] == 1)
  {
    var x := JStr(path);
    var without := if x in items then RemoveFirst(items, x) else items;
    var whole := [x] + without;
    var r := StoredList(items, path, limit);
    assert r == whole[..|r|];
    if multiset(items)[x] <= 1 {
      assert multiset(without)[x] == 0;
      assert whole == r + whole[|r|..];
      assert multiset(whole) == multiset(r) + multiset(whole[|r|..]);
      assert r == [x] + r[1..];
      assert multiset(r)[x] >= 1;
    }
  }

  // ---------------------------------------------------------------------
  // adapters.py

  function Min(a: int, b: int): int {
    if a <= b then a else b
  }

  /** `truncate_rows`: the first `limit` rows, none for a limit of zero or
      less. */
  method TruncateRows<T>(rows: seq<T>, limit: int) returns (out: seq<T>)
    ensures |out| == if limit <= 0 then 0 else Min(|rows|, limit)
    ensures out == rows[..|out|]
    ensures limit >= 0 ==> out == PyPrefix(rows, limit)
  {
    out := [];
    var i := 0;
    while i < |rows|
      invariant 0 <= i <= |rows|
      invariant out == rows[..i]
      invariant i <= if limit <= 0 then 0 else limit
    {
      if i >= limit {
        break;
      }
      out := out + [rows[i]];
      i := i + 1;
    }
  }
}
