/** The most-recently-used file list shared by the command line, the web
    service and the terminal UI. The JSON file is a `RecentFile` holding
    its "recent" list (an unreadable file or a missing key reads as the
    empty list); the clock and `os.path.exists` are parameters. */
module Recent {
  import opened Common

  /** An element of the stored list: a bare path, an object with an
      optional string "path" and an optional "last_used", or any other
      JSON value. */
  datatype JsonItem = JStr(s: string) | JObject(path: Option<string>, lastUsed: Option<string>) | JOther

  /** The stored JSON file's "recent" list. */
  class RecentFile {
    var recent: seq<JsonItem>

    constructor(recent: seq<JsonItem>)
      ensures this.recent == recent
    {
      this.recent := recent;
    }
  }

  /** The object `add_recent_file` writes for a path. */
  function Entry(path: string, lastUsed: string): JsonItem {
    JObject(Some(path), Some(lastUsed))
  }

  /** The path an item names, if it names one as a string. */
  function ItemPath(item: JsonItem): Option<string> {
    match item
    case JStr(s) => Some(s)
    case JObject(p, _) => p
    case JOther => None
  }

  /** When an item was last used: its own "last_used", else now. */
  function LastUsed(item: JsonItem, timestamp: string): string {
    if item.JObject? && item.lastUsed.Some? then item.lastUsed.value else timestamp
  }

  /** `islice`-style prefix of at most `n` elements. */
  function Take<T>(s: seq<T>, n: nat): (r: seq<T>)
    ensures |r| == if n < |s| then n else |s|
    ensures r == s[..|r|]
  {
    if n < |s| then s[..n] else s
  }

  // ---------------------------------------------------------------------
  // load_recent_files

  /** The paths a load keeps, with no limit: string paths that exist, or
      all of them when missing files are included. */
  function Visible(items: seq<JsonItem>, includeMissing: bool, exists_: string -> bool): (r: seq<string>)
    ensures |r| <= |items|
    decreases |items|
  {
    if |items| == 0 then []
    else
      var p := ItemPath(items[0]);
      var rest := Visible(items[1..], includeMissing, exists_);
      if p.Some? && (exists_(p.value) || includeMissing) then [p.value] + rest else rest
  }

  /** The loop of `load_recent_files` from some item on, given the paths
      so far. The length test follows every item that names a path,
      appended or not. */
  function LoadFrom(items: seq<JsonItem>, acc: seq<string>, limit: int, includeMissing: bool,
                    exists_: string -> bool): (r: seq<string>)
    ensures acc <= r
    decreases |items|
  {
    if |items| == 0 then acc
    else
      var p := ItemPath(items[0]);
      if p.None? then LoadFrom(items[1..], acc, limit, includeMissing, exists_)
      else
        var acc2 := if exists_(p.value) || includeMissing then acc + [p.value] else acc;
        if |acc2| >= limit then acc2 else LoadFrom(items[1..], acc2, limit, includeMissing, exists_)
  }

  /** Below the limit, the loop appends the first visible paths until the
      limit is reached. */
  lemma {:induction false} LoadFromTakes(items: seq<JsonItem>, acc: seq<string>, limit: int, includeMissing: bool,
                                         exists_: string -> bool)
    requires |acc| < limit
    ensures LoadFrom(items, acc, limit, includeMissing, exists_) ==
      acc + Take(Visible(items, includeMissing, exists_), limit - |acc|)
    decreases |items|
  {
    if |items| > 0 {
      var p := ItemPath(items[0]);
      var rest := Visible(items[1..], includeMissing, exists_);
      if p.Some? && (exists_(p.value) || includeMissing) {
        var acc2 := acc + [p.value];
        if |acc2| < limit {
          LoadFromTakes(items[1..], acc2, limit, includeMissing, exists_);
          assert Take([p.value] + rest, limit - |acc|) == [p.value] + Take(rest, limit - |acc2|);
        } else {
          assert Take([p.value] + rest, limit - |acc|) == [p.value];
        }
      } else {
        LoadFromTakes(items[1..], acc, limit, includeMissing, exists_);
      }
    }
  }

  /** `load_recent_files`: the stored string paths, in stored order,
      skipping missing files unless they are included, stopping at the
      limit. */
  method LoadRecentFiles(store: RecentFile, limit: int, includeMissing: bool, exists_: string -> bool)
    returns (paths: seq<string>)
    ensures paths == LoadFrom(store.recent, [], limit, includeMissing, exists_)
  {
    var items := store.recent;
    paths := [];
    var i := 0;
    while i < |items|
      invariant 0 <= i <= |items|
      invariant LoadFrom(items[i..], paths, limit, includeMissing, exists_) ==
        LoadFrom(items, [], limit, includeMissing, exists_)
    {
      var path := ItemPath(items[i]);
      assert items[i..][1..] == items[i + 1..];
      if path.None? {
        i := i + 1;
        continue;
      }
      if exists_(path.value) || includeMissing {
        paths := paths + [path.value];
      }
      if |paths| >= limit {
        return;
      }
      i := i + 1;
    }
  }

  /** For a positive limit a load is the first `limit` visible paths. */
  lemma LoadIsVisiblePrefix(items: seq<JsonItem>, limit: int, includeMissing: bool, exists_: string -> bool)
    requires limit >= 1
    ensures var r := LoadFrom(items, [], limit, includeMissing, exists_);
      r == Take(Visible(items, includeMissing, exists_), limit) && |r| <= limit
  {
    LoadFromTakes(items, [], limit, includeMissing, exists_);
  }

  /** Every path returned names a stored item and, unless missing files
      are included, exists. */
  lemma {:induction false} VisibleSound(items: seq<JsonItem>, includeMissing: bool, exists_: string -> bool)
    ensures forall p :: p in Visible(items, includeMissing, exists_) ==>
      (includeMissing || exists_(p)) && exists k :: 0 <= k < |items| && ItemPath(items[k]) == Some(p)
    decreases |items|
  {
    if |items| > 0 {
      VisibleSound(items[1..], includeMissing, exists_);
      forall p | p in Visible(items[1..], includeMissing, exists_)
        ensures exists k :: 0 <= k < |items| && ItemPath(items[k]) == Some(p)
      {
        var k :| 0 <= k < |items[1..]| && ItemPath(items[1..][k]) == Some(p);
        assert ItemPath(items[k + 1]) == Some(p);
      }
    }
  }

  /** The length test comes after the append, so a limit of zero still
      lets the first stored path through. */
  lemma ZeroLimitLoadsOne(p: string, exists_: string -> bool)
    ensures LoadFrom([JStr(p)], [], 0, true, exists_) == [p]
  {
  }

  // ---------------------------------------------------------------------
  // add_recent_file

  /** The reference list of older entries: every stored item naming a
      path not seen before, in stored order, as an object. */
  function Fresh(items: seq<JsonItem>, seen: set<string>, timestamp: string): (r: seq<JsonItem>)
    ensures forall k :: 0 <= k < |r| ==> r[k].JObject? && r[k].path.Some? && r[k].path.value !in seen
    decreases |items|
  {
    if |items| == 0 then []
    else
      var p := ItemPath(items[0]);
      if p.None? || p.value in seen then Fresh(items[1..], seen, timestamp)
      else [Entry(p.value, LastUsed(items[0], timestamp))] + Fresh(items[1..], seen + {p.value}, timestamp)
  }

  /** No two entries name the same path. */
  predicate DistinctPaths(r: seq<JsonItem>) {
    forall i, j :: 0 <= i < j < |r| ==> ItemPath(r[i]) != ItemPath(r[j])
  }

  lemma {:induction false} FreshDistinct(items: seq<JsonItem>, seen: set<string>, timestamp: string)
    ensures DistinctPaths(Fresh(items, seen, timestamp))
    decreases |items|
  {
    if |items| > 0 {
      var p := ItemPath(items[0]);
      if p.None? || p.value in seen {
        FreshDistinct(items[1..], seen, timestamp);
      } else {
        FreshDistinct(items[1..], seen + {p.value}, timestamp);
      }
    }
  }

  /** The normalising loop of `add_recent_file` from some item on, given
      the entries so far and the paths seen. */
  function Normalize(items: seq<JsonItem>, seen: set<string>, acc: seq<JsonItem>, limit: int,
                     timestamp: string): (r: seq<JsonItem>)
    ensures acc <= r
    decreases |items|
  {
    if |items| == 0 then acc
    else
      var p := ItemPath(items[0]);
      if p.None? || p.value in seen then Normalize(items[1..], seen, acc, limit, timestamp)
      else
        var acc2 := acc + [Entry(p.value, LastUsed(items[0], timestamp))];
        if |acc2| >= limit then acc2 else Normalize(items[1..], seen + {p.value}, acc2, limit, timestamp)
  }

  /** Below the limit, the loop appends the first fresh entries until the
      limit is reached. */
  lemma {:induction false} NormalizeTakes(items: seq<JsonItem>, seen: set<string>, acc: seq<JsonItem>, limit: int,
                                          timestamp: string)
    requires |acc| < limit
    ensures Normalize(items, seen, acc, limit, timestamp) == acc + Take(Fresh(items, seen, timestamp), limit - |acc|)
    decreases |items|
  {
    if |items| > 0 {
      var p := ItemPath(items[0]);
      if p.None? || p.value in seen {
        NormalizeTakes(items[1..], seen, acc, limit, timestamp);
      } else {
        var e := Entry(p.value, LastUsed(items[0], timestamp));
        var rest := Fresh(items[1..], seen + {p.value}, timestamp);
        var acc2 := acc + [e];
        if |acc2| < limit {
          NormalizeTakes(items[1..], seen + {p.value}, acc2, limit, timestamp);
          assert Take([e] + rest, limit - |acc|) == [e] + Take(rest, limit - |acc2|);
        } else {
          assert Take([e] + rest, limit - |acc|) == [e];
        }
      }
    }
  }

  /** The list `add_recent_file` stores. */
  function StoredList(items: seq<JsonItem>, path: string, limit: int, timestamp: string): seq<JsonItem> {
    PyPrefix(Normalize(items, {path}, [Entry(path, timestamp)], limit, timestamp), limit)
  }

  /** `add_recent_file`: nothing happens for an empty path; otherwise the
      path goes first, followed by the older entries without repeats, and
      the list is cut to the limit. A failed write is ignored. */
  method AddRecentFile(store: RecentFile, path: string, limit: int, timestamp: string, writable: bool)
    modifies store
    ensures path == "" || !writable ==> store.recent == old(store.recent)
    ensures path != "" && writable ==> store.recent == StoredList(old(store.recent), path, limit, timestamp)
  {
    if path == "" {
      return;
    }
    var items := store.recent;
    var normalized := [Entry(path, timestamp)];
    var seen := {path};
    var i := 0;
    while i < |items|
      invariant 0 <= i <= |items|
      invariant Normalize(items[i..], seen, normalized, limit, timestamp) ==
        Normalize(items, {path}, [Entry(path, timestamp)], limit, timestamp)
    {
      var candidate := ItemPath(items[i]);
      assert items[i..][1..] == items[i + 1..];
      if candidate.None? || candidate.value in seen {
        i := i + 1;
        continue;
      }
      seen := seen + {candidate.value};
      normalized := normalized + [Entry(candidate.value, LastUsed(items[i], timestamp))];
      if |normalized| >= limit {
        break;
      }
      i := i + 1;
    }
    if writable {
      store.recent := PyPrefix(normalized, limit);
    }
  }

  /** For a positive limit the stored list is the new path followed by the
      first older entries naming other paths, in stored order: the path
      comes first, no path repeats, and the limit holds. */
  lemma StoredListShape(items: seq<JsonItem>, path: string, limit: int, timestamp: string)
    requires limit >= 1
    ensures var r := StoredList(items, path, limit, timestamp);
      r == [Entry(path, timestamp)] + Take(Fresh(items, {path}, timestamp), limit - 1) &&
      |r| <= limit && r[0] == Entry(path, timestamp) && DistinctPaths(r)
  {
    var older := Fresh(items, {path}, timestamp);
    var r := [Entry(path, timestamp)] + Take(older, limit - 1);
    if 1 < limit {
      NormalizeTakes(items, {path}, [Entry(path, timestamp)], limit, timestamp);
    } else {
      NormalizeAtLimit(items, {path}, [Entry(path, timestamp)], limit, timestamp);
    }
    FreshDistinct(items, {path}, timestamp);
    forall i, j | 0 <= i < j < |r| ensures ItemPath(r[i]) != ItemPath(r[j]) {
      if i > 0 {
        assert r[i] == older[i - 1] && r[j] == older[j - 1];
      } else {
        assert r[j] == older[j - 1];
      }
    }
  }

  /** At the limit already, the loop adds at most one entry, which the
      final cut removes again. */
  lemma {:induction false} NormalizeAtLimit(items: seq<JsonItem>, seen: set<string>, acc: seq<JsonItem>, limit: int,
                                            timestamp: string)
    requires 0 <= limit <= |acc|
    ensures PyPrefix(Normalize(items, seen, acc, limit, timestamp), limit) == PyPrefix(acc, limit)
    decreases |items|
  {
    if |items| > 0 {
      var p := ItemPath(items[0]);
      if p.None? || p.value in seen {
        NormalizeAtLimit(items[1..], seen, acc, limit, timestamp);
      } else {
        var acc2 := acc + [Entry(p.value, LastUsed(items[0], timestamp))];
        assert acc2[..limit] == acc[..limit];
      }
    }
  }

  /** Re-adding the most recent path with a positive limit keeps the list
      as it was, apart from its own time of use. */
  lemma ReAddFirstKeepsOrder(items: seq<JsonItem>, path: string, limit: int, timestamp: string)
    requires limit >= 1 && |items| >= 1 && items[0] == JStr(path)
    ensures StoredList(items, path, limit, timestamp) == StoredList(items[1..], path, limit, timestamp)
  {
    StoredListShape(items, path, limit, timestamp);
    StoredListShape(items[1..], path, limit, timestamp);
    assert Fresh(items, {path}, timestamp) == Fresh(items[1..], {path}, timestamp);
  }
}
