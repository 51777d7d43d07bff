/** The web service's pure helpers: the output-file stem and path, the
    comparison of cleanup snapshots, the issue totals, the boolean
    environment flags and the download handler's name check. File
    existence and environment variables are parameters. */
module Server {
  import opened Common
  import opened Records
  import Service

  /** Python `s.replace(c, d)` for single characters. */
  function ReplaceChar(s: string, c: char, d: char): (r: string)
    ensures |r| == |s|
    ensures forall i :: 0 <= i < |s| ==> r[i] == if s[i] == c then d else s[i]
  {
    if |s| == 0 then "" else ReplaceChar(s[..|s| - 1], c, d) + [if s[|s| - 1] == c then d else s[|s| - 1]]
  }

  const DefaultStem: string := "analysis"

  /** Every "/" and "\\" turned into "_". */
  function FlattenSeparators(s: string): (r: string)
    ensures |r| == |s| && '/' !in r && '\\' !in r
    ensures '/' !in s && '\\' !in s ==> r == s
  {
    ReplaceChar(ReplaceChar(s, '/', '_'), '\\', '_')
  }

  /** One ".txt" suffix removed, whatever its letter case. */
  function DropTxtSuffix(s: string): (r: string)
    ensures |r| <= |s| && forall i :: 0 <= i < |r| ==> r[i] == s[i]
    ensures |r| < |s| <==> EndsWith(Lower(s), ".txt")
  {
    if EndsWith(Lower(s), ".txt") then s[..|s| - 4] else s
  }

  /** The stem of a non-empty upload name. */
  function SanitizeName(given: string): (r: string)
    ensures r != "" && '/' !in r && '\\' !in r
  {
    var base := FlattenSeparators(Basename(given));
    var stem := DropTxtSuffix(base);
    if stem == "" then DefaultStem else stem
  }

  /** `_sanitize_stem`: the base name of the upload (or of "analysis"),
      with "/" and "\\" turned into "_" and one ".txt" suffix of any case
      removed; "analysis" when nothing is left. The result is never empty
      and never names another directory. */
  function SanitizeStem(filename: Option<string>): (r: string)
    ensures r != "" && '/' !in r && '\\' !in r
  {
    SanitizeName(if filename.None? || filename.value == "" then DefaultStem else filename.value)
  }

  /** A directory part in front of the name does not change the base
      name. */
  lemma {:induction false} BasenameAfterSlash(dir: string, name: string)
    ensures Basename(dir + "/" + name) == Basename(name)
    decreases |name|
  {
    var p := dir + "/" + name;
    if |name| > 0 {
      assert p[..|p| - 1] == dir + "/" + name[..|name| - 1];
      assert p[|p| - 1] == name[|name| - 1];
      BasenameAfterSlash(dir, name[..|name| - 1]);
    }
  }

  lemma LowerAppend(a: string, b: string)
    ensures Lower(a + b) == Lower(a) + Lower(b)
  {
    assert forall i :: 0 <= i < |a + b| ==> Lower(a + b)[i] == (Lower(a) + Lower(b))[i];
  }

  lemma DropTxtKeeps(s: string)
    requires !EndsWith(Lower(s), ".txt")
    ensures DropTxtSuffix(s) == s
  {
  }

  lemma DropTxtRemoves(s: string, suffix: string)
    requires Lower(suffix) == ".txt"
    ensures DropTxtSuffix(s + suffix) == s
  {
    var t := s + suffix;
    LowerAppend(s, suffix);
    assert Lower(t)[|Lower(t)| - 4..] == ".txt";
    assert t[..|s|] == s;
  }

  /** A plain name is kept, and a ".txt" suffix of any case is removed. */
  lemma SanitizePlainName(s: string, suffix: string)
    requires s != "" && '/' !in s && '\\' !in s && !EndsWith(Lower(s), ".txt")
    requires '/' !in suffix && '\\' !in suffix
    requires suffix == "" || Lower(suffix) == ".txt"
    ensures SanitizeName(s + suffix) == s
  {
    var t := s + suffix;
    BasenameOfPlainName(t);
    assert FlattenSeparators(Basename(t)) == t;
    if suffix != "" {
      DropTxtRemoves(s, suffix);
    } else {
      assert t == s;
      DropTxtKeeps(s);
    }
  }

  lemma DefaultStemIsPlain()
    ensures SanitizeName(DefaultStem) == DefaultStem
  {
    assert Lower(DefaultStem)[4] == 'y';
    SanitizePlainName(DefaultStem, "");
    assert DefaultStem + "" == DefaultStem;
  }

  lemma TxtSuffixesLower()
    ensures Lower(".txt") == ".txt" && Lower(".TXT") == ".txt"
  {
    assert LowerChar('T') == 't' && LowerChar('X') == 'x';
  }

  /** The stem of a plain upload name with or without its ".txt" or ".TXT"
      suffix is the name itself. */
  lemma SanitizeKeepsPlainStem(s: string)
    requires s != "" && '/' !in s && '\\' !in s && !EndsWith(Lower(s), ".txt")
    ensures SanitizeStem(Some(s)) == s
    ensures SanitizeStem(Some(s + ".txt")) == s
    ensures SanitizeStem(Some(s + ".TXT")) == s
  {
    TxtSuffixesLower();
    assert s + "" == s;
    SanitizePlainName(s, "");
    assert '/' !in ".txt" && '\\' !in ".txt" && '/' !in ".TXT" && '\\' !in ".TXT";
    SanitizePlainName(s, ".txt");
    SanitizePlainName(s, ".TXT");
    SanitizeStemOfName(s);
    SanitizeStemOfName(s + ".txt");
    SanitizeStemOfName(s + ".TXT");
  }

  lemma SanitizeStemOfName(t: string)
    requires t != ""
    ensures SanitizeStem(Some(t)) == SanitizeName(t)
  {
  }

  /** Only the last path component of the upload name matters. */
  lemma SanitizeIgnoresDirectory(dir: string, name: string)
    ensures SanitizeStem(Some(dir + "/" + name)) == SanitizeStem(Some(name))
  {
    BasenameAfterSlash(dir, name);
    if name == "" {
      DefaultStemIsPlain();
    }
  }

  const ExcelSuffix: string := "_analysis.xlsx"
  const CsvSuffix: string := "_analysis.csv"

  /** The canonical output path before any fallback: the stem followed by
      "_analysis" and the extension of the requested format. */
  function PreferredPath(filename: Option<string>, output: Service.Format, canonicalDir: string): (r: string)
    ensures output == Service.Excel ==> EndsWith(r, ExcelSuffix)
    ensures output == Service.Csv ==> EndsWith(r, CsvSuffix)
    ensures EndsWith(r, SanitizeStem(filename) + if output == Service.Excel then ExcelSuffix else CsvSuffix)
  {
    var name := SanitizeStem(filename) + if output == Service.Excel then ExcelSuffix else CsvSuffix;
    var suffix := if output == Service.Excel then ExcelSuffix else CsvSuffix;
    var r := PathJoin(canonicalDir, name);
    assert name[|name| - |suffix|..] == suffix;
    EndsWithOfSuffix(r, name, suffix);
    r
  }

  /** `_canonical_output_path`: the preferred path, unless an Excel output
      is absent and its CSV fallback exists. */
  function CanonicalOutputPath(filename: Option<string>, output: Service.Format, canonicalDir: string,
                               exists_: string -> bool): (r: string)
    ensures r != PreferredPath(filename, output, canonicalDir) ==>
      (output == Service.Excel && !exists_(PreferredPath(filename, output, canonicalDir)) && exists_(r) &&
       r == ReplaceAll(PreferredPath(filename, output, canonicalDir), ".xlsx", ".csv"))
    ensures (output == Service.Excel && !exists_(PreferredPath(filename, output, canonicalDir)) &&
       exists_(ReplaceAll(PreferredPath(filename, output, canonicalDir), ".xlsx", ".csv"))) ==>
      r == ReplaceAll(PreferredPath(filename, output, canonicalDir), ".xlsx", ".csv")
  {
    var preferred := PreferredPath(filename, output, canonicalDir);
    if output == Service.Excel && !exists_(preferred) then
      var fallback := ReplaceAll(preferred, ".xlsx", ".csv");
      if exists_(fallback) then fallback else preferred
    else preferred
  }

  // ---------------------------------------------------------------------
  // Cleanup snapshots. A snapshot is the JSON dict the preview hands out;
  // a missing key reads as None, a missing list as empty.

  datatype BackupItem = BackupItem(name: string, size: Option<int>, mtime: Option<int>)

  /** Only the size of the canonical entry is read. */
  datatype CanonicalInfo = CanonicalInfo(size: Option<int>)

  datatype Snapshot = Snapshot(
    deleteCanonical: Option<bool>,
    exportPolicy: Option<string>,
    backups: seq<BackupItem>,
    canonical: Option<CanonicalInfo>)

  function OrZero(x: Option<int>): int {
    if x.Some? then x.value else 0
  }

  function Entry(item: BackupItem): (int, int) {
    (OrZero(item.size), OrZero(item.mtime))
  }

  /** `_backups_to_map`: name -> (size, mtime); a later item overwrites an
      earlier one of the same name. */
  function BackupsToMap(items: seq<BackupItem>): (m: map<string, (int, int)>)
    ensures forall n :: n in m <==> exists k :: 0 <= k < |items| && items[k].name == n
    decreases |items|
  {
    if |items| == 0 then map[]
    else
      var m := BackupsToMap(items[..|items| - 1]);
      assert forall k :: 0 <= k < |items| - 1 ==> items[..|items| - 1][k] == items[k];
      m[items[|items| - 1].name := Entry(items[|items| - 1])]
  }

  /** The entry of a name is that of its last item. */
  lemma {:induction false} LastItemWins(items: seq<BackupItem>, k: nat)
    requires k < |items|
    requires forall j :: k < j < |items| ==> items[j].name != items[k].name
    ensures BackupsToMap(items)[items[k].name] == Entry(items[k])
    decreases |items|
  {
    var n := |items| - 1;
    if k < n {
      LastItemWins(items[..n], k);
      assert items[..n][k] == items[k];
    }
  }

  /** No two items share a name. */
  predicate DistinctNames(items: seq<BackupItem>) {
    forall i, j :: 0 <= i < j < |items| ==> items[i].name != items[j].name
  }

  /** With distinct names the map does not depend on the order of the
      listing. */
  lemma ListingOrderIrrelevant(a: seq<BackupItem>, b: seq<BackupItem>)
    requires DistinctNames(a) && DistinctNames(b)
    requires forall x :: x in a <==> x in b
    ensures BackupsToMap(a) == BackupsToMap(b)
  {
    var ma := BackupsToMap(a);
    var mb := BackupsToMap(b);
    forall n | n in ma ensures n in mb && ma[n] == mb[n] {
      var i :| 0 <= i < |a| && a[i].name == n;
      assert a[i] in b;
      var j :| 0 <= j < |b| && b[j] == a[i];
      LastItemWins(a, i);
      LastItemWins(b, j);
    }
    forall n | n in mb ensures n in ma {
      var j :| 0 <= j < |b| && b[j].name == n;
      assert b[j] in a;
      var i :| 0 <= i < |a| && a[i] == b[j];
    }
  }

  /** `_snapshots_strict_equal`. */
  predicate SnapshotsStrictEqual(expected: Snapshot, current: Snapshot)
    ensures expected == current ==> SnapshotsStrictEqual(expected, current)
  {
    expected.deleteCanonical == current.deleteCanonical &&
    expected.exportPolicy == current.exportPolicy &&
    BackupsToMap(expected.backups) == BackupsToMap(current.backups) &&
    expected.canonical.Some? == current.canonical.Some?
  }

  /** Strict equality ignores the order in which backups are listed. */
  lemma StrictEqualIgnoresListingOrder(s: Snapshot, reordered: seq<BackupItem>)
    requires DistinctNames(s.backups) && DistinctNames(reordered)
    requires forall x :: x in s.backups <==> x in reordered
    ensures SnapshotsStrictEqual(s, s.(backups := reordered))
  {
    ListingOrderIrrelevant(s.backups, reordered);
  }

  /** `_snapshots_cleanup_compatible`. Under any policy but "archive" the
      backups must be unchanged; under "archive" one new backup is also
      accepted when nothing vanished, the preview had a canonical file and
      the new backup has the canonical file's size. */
  function SnapshotsCleanupCompatible(preview: Snapshot, current: Snapshot, policy: string): (r: bool)
    ensures r ==> preview.deleteCanonical == current.deleteCanonical && preview.exportPolicy == current.exportPolicy
  {
    if preview.deleteCanonical != current.deleteCanonical then false
    else if preview.exportPolicy != current.exportPolicy then false
    else
      var expMap := BackupsToMap(preview.backups);
      var curMap := BackupsToMap(current.backups);
      if policy != "archive" then expMap == curMap
      else if curMap == expMap then true
      else
        var removed := expMap.Keys - curMap.Keys;
        if |removed| > 0 then false
        else
          var added := curMap.Keys - expMap.Keys;
          if |added| != 1 then false
          else if preview.canonical.None? then false
          else forall n :: n in added ==> curMap[n].0 == OrZero(preview.canonical.value.size)
  }

  /** A compatible change of the backups is one new backup under the
      archive policy, with nothing removed, while the preview had a
      canonical file. */
  lemma CompatibleChangeIsOneNewBackup(preview: Snapshot, current: Snapshot, policy: string)
    requires SnapshotsCleanupCompatible(preview, current, policy)
    requires BackupsToMap(preview.backups) != BackupsToMap(current.backups)
    ensures policy == "archive" && preview.canonical.Some?
    ensures BackupsToMap(preview.backups).Keys <= BackupsToMap(current.backups).Keys
    ensures |BackupsToMap(current.backups).Keys - BackupsToMap(preview.backups).Keys| == 1
  {
    var expKeys := BackupsToMap(preview.backups).Keys;
    var curKeys := BackupsToMap(current.backups).Keys;
    assert policy == "archive";
    var removed := expKeys - curKeys;
    assert |removed| == 0;
    forall n | n in expKeys ensures n in curKeys {
      assert n !in removed;
    }
  }

  /** Under the archive policy, the backup made by renaming the canonical
      file (a new name with the canonical size) is accepted. */
  lemma ArchiveAcceptsRenamedCanonical(preview: Snapshot, name: string, mtime: Option<int>)
    requires preview.canonical.Some?
    requires forall k :: 0 <= k < |preview.backups| ==> preview.backups[k].name != name
    ensures var item := BackupItem(name, Some(OrZero(preview.canonical.value.size)), mtime);
      SnapshotsCleanupCompatible(preview, preview.(backups := preview.backups + [item]), "archive")
  {
    var item := BackupItem(name, Some(OrZero(preview.canonical.value.size)), mtime);
    var current := preview.(backups := preview.backups + [item]);
    assert (preview.backups + [item])[..|preview.backups|] == preview.backups;
    var expMap := BackupsToMap(preview.backups);
    var curMap := BackupsToMap(current.backups);
    assert curMap == expMap[name := Entry(item)];
    assert name !in expMap;
    assert curMap != expMap;
    assert curMap.Keys - expMap.Keys == {name};
    assert expMap.Keys - curMap.Keys == {};
  }

  /** A backup that vanished since the preview is never accepted. */
  lemma VanishedBackupRejected(preview: Snapshot, current: Snapshot, policy: string, name: string)
    requires name in BackupsToMap(preview.backups) && name !in BackupsToMap(current.backups)
    ensures !SnapshotsCleanupCompatible(preview, current, policy)
  {
    var expMap := BackupsToMap(preview.backups);
    var curMap := BackupsToMap(current.backups);
    assert name in expMap.Keys - curMap.Keys;
  }

  /** Strictly equal snapshots are compatible under every policy. */
  lemma StrictEqualIsCompatible(preview: Snapshot, current: Snapshot, policy: string)
    requires SnapshotsStrictEqual(preview, current)
    ensures SnapshotsCleanupCompatible(preview, current, policy)
  {
  }

  /** `_totals`: the five category counts and TOTAL, the number of
      issues; the counts add up to TOTAL. */
  function ServerTotals(issues: seq<Issue>): (t: Service.Totals)
    ensures t.total == |issues|
    ensures t.forgetPunch + t.late + t.overtime + t.wfh + t.weekdayLeave == t.total
  {
    Service.KindCountsAddUp(issues);
    Service.Totals(
      Service.CountKind(issues, ForgetPunch), Service.CountKind(issues, Late),
      Service.CountKind(issues, Overtime), Service.CountKind(issues, Wfh),
      Service.CountKind(issues, WeekdayLeave), |issues|)
  }

  /** The web service's totals agree with the analysis service's. */
  lemma TotalsAgree(issues: seq<Issue>)
    ensures ServerTotals(issues) == Service.ServiceTotals(issues)
  {
  }

  /** The spellings that switch a flag on. */
  predicate TruthyWord(s: string) {
    s == "1" || s == "true" || s == "yes" || s == "on"
  }

  /** `_env_flag`: the default when the variable is unset, otherwise
      whether its stripped, lower-cased value is 1, true, yes or on. */
  function EnvFlag(value: Option<string>, default: bool): (r: bool)
    ensures value.None? ==> r == default
  {
    if value.None? then default else TruthyWord(Lower(Strip(value.value)))
  }

  lemma StripIsTrimmed(v: string)
    ensures Trimmed(Strip(v))
  {
    var l := LStrip(v);
    var s := RStrip(l);
    if |s| > 0 {
      assert l[0] == s[0];
    }
  }

  lemma LowerCharKeepsSpace(c: char)
    ensures IsSpace(LowerChar(c)) <==> IsSpace(c)
  {
  }

  lemma LowerKeepsTrimmed(s: string)
    requires Trimmed(s)
    ensures Trimmed(Lower(s))
  {
    if |s| > 0 {
      LowerCharKeepsSpace(s[0]);
      LowerCharKeepsSpace(s[|s| - 1]);
    }
  }

  lemma {:induction false} LowerIdempotent(s: string)
    ensures Lower(Lower(s)) == Lower(s)
  {
    assert forall i :: 0 <= i < |s| ==> LowerChar(LowerChar(s[i])) == LowerChar(s[i]);
  }

  /** Normalising the value first changes nothing: surrounding white space
      and letter case do not matter. */
  lemma EnvFlagNormalised(v: string, default: bool)
    ensures EnvFlag(Some(v), default) == EnvFlag(Some(Lower(Strip(v))), default)
  {
    var s := Strip(v);
    StripIsTrimmed(v);
    LowerKeepsTrimmed(s);
    StripOfTrimmed(Lower(s));
    LowerIdempotent(s);
  }

  /** A name the download handler accepts: no "/" and no "..". */
  predicate DownloadNameSafe(s: string) {
    '/' !in s && !Contains(s, "..")
  }

  /** The download handler's first check: it rejects a session id or a
      file name that contains "/" or "..". */
  function DownloadRejected(sessionId: string, filename: string): (r: bool)
    ensures !r ==> sessionId != ".." && filename != ".."
  {
    if !DownloadNameSafe(sessionId) || !DownloadNameSafe(filename) then true
    else
      assert StartsWith("..", "..");
      false
  }

  /** An accepted pair joins into exactly two path components, neither of
      them "..". */
  lemma AcceptedPathComponents(sessionId: string, filename: string)
    requires !DownloadRejected(sessionId, filename)
    ensures Split(sessionId + "/" + filename, '/') == [sessionId, filename]
  {
    var parts := [sessionId, filename];
    assert Join(parts, '/') == sessionId + "/" + filename by {
      assert parts[1..] == [filename];
    }
    SplitJoin(parts, '/');
  }
}
