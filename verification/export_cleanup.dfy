/** Cleaning up generated exports: recognising timestamped backups of an
    export (`NAME_YYYYMMDD_HHMMSS.ext` beside `NAME.ext`), refusing paths
    that climb out of their directory, listing the backups and removing
    them, and the canonical file last when asked. The directory listing,
    `os.path.isdir` and the file system are parameters; a `Disk` holds the
    files and the ones whose removal the system refuses. */
module ExportCleanup {
  import opened Common

  // ---------------------------------------------------------------------
  // Backup names

  /** `\d{8}_\d{6}` matched in full: eight digits, "_", six digits. */
  predicate IsTimestamp(s: string) {
    |s| == 15 && AllDigits(s[..8]) && s[8] == '_' && AllDigits(s[9..])
  }

  /** The part of a candidate between `stem + "_"` and the extension;
      Python's slice is empty when its end lies before its start. */
  function Middle(stem: string, ext: string, candidate: string): string {
    var start := |stem| + 1;
    var end := if ext != "" then |candidate| - |ext| else |candidate|;
    if 0 <= start <= end <= |candidate| then candidate[start..end] else ""
  }

  /** `_match_timestamped_filename`. */
  predicate MatchTimestamped(stem: string, ext: string, candidate: string) {
    if !StartsWith(candidate, stem + "_") then false
    else if ext != "" && !EndsWith(candidate, ext) then false
    else IsTimestamp(Middle(stem, ext, candidate))
  }

  /** Every `stem + "_" + timestamp + ext` matches. */
  lemma BackupNameMatches(stem: string, ext: string, ts: string)
    requires IsTimestamp(ts)
    ensures MatchTimestamped(stem, ext, stem + "_" + ts + ext)
  {
    var c := stem + "_" + ts + ext;
    assert c[..|stem + "_"|] == stem + "_";
    assert c[|c| - |ext|..] == ext;
    assert c[|stem| + 1..|c| - |ext|] == ts;
  }

  /** Only such names match: a match is the stem, "_", a timestamp and the
      extension, in that order. */
  lemma MatchIsBackupName(stem: string, ext: string, candidate: string)
    requires MatchTimestamped(stem, ext, candidate)
    ensures IsTimestamp(Middle(stem, ext, candidate))
    ensures candidate == stem + "_" + Middle(stem, ext, candidate) + ext
  {
    var start := |stem| + 1;
    var end := if ext != "" then |candidate| - |ext| else |candidate|;
    assert 0 <= start <= end <= |candidate|;
    assert candidate[..start] == stem + "_";
    assert candidate[end..] == ext;
    assert candidate == candidate[..start] + candidate[start..end] + candidate[end..];
  }

  /** The canonical file itself is never taken for a backup. */
  lemma CanonicalNeverMatches(stem: string, ext: string)
    ensures !MatchTimestamped(stem, ext, stem + ext)
  {
    assert Middle(stem, ext, stem + ext) == "";
  }

  // ---------------------------------------------------------------------
  // os.path on POSIX

  /** One component folded into the normalised ones: "" and "." vanish,
      ".." removes the previous name, and a ".." that cannot is kept in a
      relative path and dropped at the root. */
  function NormStep(acc: seq<string>, comp: string, absolute: bool): seq<string> {
    if comp == "" || comp == "." then acc
    else if comp != ".." || (!absolute && |acc| == 0) || (|acc| > 0 && acc[|acc| - 1] == "..") then acc + [comp]
    else if |acc| > 0 then acc[..|acc| - 1]
    else acc
  }

  /** The shape of normalised components: no "" and no "."; ".." only in
      front; none at all in an absolute path. */
  predicate NormalForm(r: seq<string>, absolute: bool) {
    (forall k :: 0 <= k < |r| ==> r[k] != "" && r[k] != ".") &&
    (forall i, j :: 0 <= i < j < |r| && r[j] == ".." ==> r[i] == "..") &&
    (absolute ==> ".." !in r)
  }

  /** The component loop of `os.path.normpath`. */
  function NormComponents(comps: seq<string>, absolute: bool): (r: seq<string>)
    ensures NormalForm(r, absolute)
    ensures forall k :: 0 <= k < |r| ==> r[k] in comps
    decreases |comps|
  {
    if |comps| == 0 then []
    else
      var acc := NormComponents(comps[..|comps| - 1], absolute);
      assert forall k :: 0 <= k < |acc| ==> acc[k] in comps by {
        forall k | 0 <= k < |acc| ensures acc[k] in comps {
          assert acc[k] in comps[..|comps| - 1];
        }
      }
      NormStep(acc, comps[|comps| - 1], absolute)
  }

  /** How many leading slashes `normpath` keeps: two exactly when there
      are two and not three. */
  function InitialSlashes(path: string): nat {
    if !StartsWith(path, "/") then 0
    else if StartsWith(path, "//") && !StartsWith(path, "///") then 2
    else 1
  }

  function Slashes(k: nat): string {
    if k == 0 then "" else if k == 1 then "/" else "//"
  }

  /** `os.path.normpath`. */
  function NormPath(path: string): (r: string)
    ensures r != ""
    ensures StartsWith(path, "/") ==> StartsWith(r, "/")
  {
    if path == "" then "."
    else
      var slashes := InitialSlashes(path);
      var comps := NormComponents(Split(path, '/'), slashes > 0);
      var joined := Slashes(slashes) + Join(comps, '/');
      if joined == "" then "." else joined
  }

  /** The components of the normalised path, as `split("/")` returns
      them. */
  function NormParts(path: string): seq<string> {
    if path == "" then ["."]
    else
      var slashes := InitialSlashes(path);
      var comps := NormComponents(Split(path, '/'), slashes > 0);
      if slashes == 0 then (if comps == [] then ["."] else comps)
      else (if slashes == 1 then [""] else ["", ""]) + (if comps == [] then [""] else comps)
  }

  lemma JoinLeadingEmpty(parts: seq<string>)
    requires |parts| >= 1
    ensures Join([""] + parts, '/') == "/" + Join(parts, '/')
  {
    assert ([""] + parts)[1..] == parts;
  }

  /** A leading slash before joined components splits off as one empty
      component. */
  lemma SlashJoinSplit(parts: seq<string>)
    requires |parts| >= 1
    requires forall k :: 0 <= k < |parts| ==> '/' !in parts[k]
    ensures Split("/" + Join(parts, '/'), '/') == [""] + parts
  {
    JoinLeadingEmpty(parts);
    var all := [""] + parts;
    assert forall k :: 0 <= k < |all| ==> '/' !in all[k];
    SplitJoin(all, '/');
  }

  /** Two leading slashes split off as two empty components. */
  lemma DoubleSlashJoinSplit(parts: seq<string>)
    requires |parts| >= 1
    requires forall k :: 0 <= k < |parts| ==> '/' !in parts[k]
    ensures Split("//" + Join(parts, '/'), '/') == ["", ""] + parts
  {
    var j := Join(parts, '/');
    SlashJoinSplit(parts);
    SplitTwoLeadingSeps(j, '/');
    assert [""] + ([""] + parts) == ["", ""] + parts;
  }

  /** Two separators in front add two empty components. */
  lemma SplitTwoLeadingSeps(x: string, c: char)
    ensures Split([c, c] + x, c) == [""] + Split([c] + x, c)
  {
    assert ([c, c] + x)[1..] == [c] + x;
  }

  lemma NormPathSplit(path: string)
    ensures Split(NormPath(path), '/') == NormParts(path)
  {
    if path == "" {
      SplitNoSep(".", '/');
    } else {
      var slashes := InitialSlashes(path);
      var comps := NormComponents(Split(path, '/'), slashes > 0);
      if slashes == 0 {
        if comps == [] {
          SplitNoSep(".", '/');
        } else {
          assert Slashes(0) + Join(comps, '/') == Join(comps, '/');
          SplitJoin(comps, '/');
        }
      } else {
        var body := if comps == [] then [""] else comps;
        assert Join(comps, '/') == Join(body, '/');
        if slashes == 1 {
          SlashJoinSplit(body);
        } else {
          DoubleSlashJoinSplit(body);
        }
      }
    }
  }

  /** The traversal check of `list_backups`: the normalised path has a
      ".." component. */
  predicate Traverses(filepath: string)
    ensures Traverses(filepath) ==> filepath != ""
  {
    SplitNoSep(".", '/');
    ".." in Split(NormPath(filepath), '/')
  }

  /** A path is refused exactly when a ".." survives normalisation, and
      such a ".." can only lead the path. */
  lemma TraversesIff(filepath: string)
    ensures Traverses(filepath) <==>
      (filepath != "" && ".." in NormComponents(Split(filepath, '/'), InitialSlashes(filepath) > 0))
  {
    NormPathSplit(filepath);
  }

  /** An absolute path is never refused. */
  lemma AbsoluteNeverTraverses(filepath: string)
    requires StartsWith(filepath, "/")
    ensures !Traverses(filepath)
  {
    TraversesIff(filepath);
  }

  /** Nor is a path without any ".." component. */
  lemma NoParentNeverTraverses(filepath: string)
    requires ".." !in Split(filepath, '/')
    ensures !Traverses(filepath)
  {
    TraversesIff(filepath);
  }

  /** A path that starts by leaving its directory is refused. */
  lemma LeadingParentTraverses(rest: string)
    ensures Traverses("../" + rest)
  {
    var p := "../" + rest;
    assert p[0] == '.' && p[1] == '.';
    assert p[1..][1..] == "/" + rest;
    assert Split(p[1..][1..], '/')[0] == "";
    assert Split(p[1..], '/')[0] == ".";
    assert Split(p, '/')[0] == "..";
    assert !StartsWith(p, "/");
    var comps := Split(p, '/');
    ParentKeptInFront(comps);
    TraversesIff(p);
  }

  /** A relative path's leading ".." is never removed. */
  lemma {:induction false} ParentKeptInFront(comps: seq<string>)
    requires |comps| >= 1 && comps[0] == ".."
    ensures |NormComponents(comps, false)| >= 1 && NormComponents(comps, false)[0] == ".."
    decreases |comps|
  {
    if |comps| > 1 {
      var init := comps[..|comps| - 1];
      assert init[0] == "..";
      ParentKeptInFront(init);
    } else {
      assert comps[..0] == [];
    }
  }

  /** `os.path.split`: the part after the last "/", and the part before it
      without trailing slashes unless it is all slashes. */
  function PathSplit(p: string): (r: (string, string))
    ensures '/' !in r.1
  {
    var tail := Basename(p);
    var head := p[..|p| - |tail|];
    (if head != "" && exists k :: 0 <= k < |head| && head[k] != '/' then RStripSlashes(head) else head, tail)
  }

  function RStripSlashes(s: string): (r: string)
    ensures |r| <= |s|
  {
    if |s| > 0 && s[|s| - 1] == '/' then RStripSlashes(s[..|s| - 1]) else s
  }

  /** `os.path.splitext` of a name without "/": the extension starts at
      the last "." unless only dots precede it. */
  function SplitExt(name: string): (r: (string, string))
    ensures r.0 + r.1 == name
    ensures r.1 != "" ==> r.1[0] == '.' && '.' !in r.1[1..]
  {
    var dot := LastIndex(name, '.');
    if dot.Some? && exists k :: 0 <= k < dot.value && name[k] != '.' then
      (name[..dot.value], name[dot.value..])
    else (name, "")
  }

  /** The index of the last occurrence of `c`. */
  function LastIndex(s: string, c: char): (r: Option<nat>)
    ensures r.None? ==> c !in s
    ensures r.Some? ==> r.value < |s| && s[r.value] == c && c !in s[r.value + 1..]
  {
    if |s| == 0 then None
    else if s[|s| - 1] == c then Some(|s| - 1)
    else
      var r := LastIndex(s[..|s| - 1], c);
      if r.Some? then
        assert s[r.value + 1..] == s[..|s| - 1][r.value + 1..] + [s[|s| - 1]];
        r
      else r
  }

  // ---------------------------------------------------------------------
  // Listing backups

  /** A directory entry `list_backups` keeps: a plain name (not "." or
      "..") that matches the backup pattern. */
  predicate Kept(stem: string, ext: string, candidate: string) {
    '/' !in candidate && candidate != "." && candidate != ".." && MatchTimestamped(stem, ext, candidate)
  }

  /** The backup paths found in a listing, in listing order. */
  function BackupPaths(directory: string, stem: string, ext: string, listing: seq<string>): (r: seq<string>)
    ensures |r| <= |listing|
    decreases |listing|
  {
    if |listing| == 0 then []
    else
      var rest := BackupPaths(directory, stem, ext, listing[..|listing| - 1]);
      var c := listing[|listing| - 1];
      if Kept(stem, ext, c) then rest + [PathJoin(directory, c)] else rest
  }

  /** Exactly the kept entries, each joined to the directory. */
  lemma {:induction false} BackupPathsExact(directory: string, stem: string, ext: string, listing: seq<string>)
    ensures forall p :: p in BackupPaths(directory, stem, ext, listing) <==>
      exists c :: c in listing && Kept(stem, ext, c) && p == PathJoin(directory, c)
    decreases |listing|
  {
    if |listing| > 0 {
      var init := listing[..|listing| - 1];
      BackupPathsExact(directory, stem, ext, init);
      assert listing == init + [listing[|listing| - 1]];
    }
  }

  /** The directory and the name parts of a normalised export path. */
  function Location(filepath: string): (string, string, string) {
    var parts := PathSplit(NormPath(filepath));
    var directory := if parts.0 == "" then "." else parts.0;
    var split := SplitExt(parts.1);
    (directory, split.0, split.1)
  }

  /** What `list_backups` returns or raises. */
  function ListBackupsResult(filepath: string, isDir: string -> bool,
                             listdir: string -> Option<seq<string>>): Result<seq<string>> {
    if Traverses(filepath) then Failure("Invalid filepath with directory traversal: " + NormPath(filepath))
    else
      var loc := Location(filepath);
      if !isDir(loc.0) then Success([])
      else if listdir(loc.0).None? then Success([])
      else Success(BackupPaths(loc.0, loc.1, loc.2, listdir(loc.0).value))
  }

  /** `list_backups`: the timestamped backups of the export in its
      directory, in listing order; a vanished directory lists nothing. */
  method ListBackups(filepath: string, isDir: string -> bool, listdir: string -> Option<seq<string>>)
    returns (r: Result<seq<string>>)
    ensures r == ListBackupsResult(filepath, isDir, listdir)
  {
    var normalised := NormPath(filepath);
    if ".." in Split(normalised, '/') {
      return Failure("Invalid filepath with directory traversal: " + normalised);
    }
    var parts := PathSplit(normalised);
    var directory := if parts.0 == "" then "." else parts.0;
    if !isDir(directory) {
      return Success([]);
    }
    var split := SplitExt(parts.1);
    var stem := split.0;
    var ext := split.1;
    var listing := listdir(directory);
    if listing.None? {
      return Success([]);
    }
    var backups := CollectBackups(directory, stem, ext, listing.value);
    return Success(backups);
  }

  /** The loop of `list_backups` over the directory entries. */
  method CollectBackups(directory: string, stem: string, ext: string, candidates: seq<string>)
    returns (backups: seq<string>)
    ensures backups == BackupPaths(directory, stem, ext, candidates)
  {
    backups := [];
    for i := 0 to |candidates|
      invariant backups == BackupPaths(directory, stem, ext, candidates[..i])
    {
      var candidate := candidates[i];
      assert candidates[..i + 1][..i] == candidates[..i];
      if '/' in candidate || candidate == "." || candidate == ".." {
        continue;
      }
      if MatchTimestamped(stem, ext, candidate) {
        backups := backups + [PathJoin(directory, candidate)];
      }
    }
    assert candidates[..|candidates|] == candidates;
  }

  // ---------------------------------------------------------------------
  // Removing

  datatype RemoveOutcome = Removed | Missing | Refused

  /** The files present, and those whose removal the system refuses
      (`PermissionError` or another `OSError`). */
  class Disk {
    var files: set<string>
    var refused: set<string>

    constructor(files: set<string>, refused: set<string>)
      ensures this.files == files && this.refused == refused
    {
      this.files := files;
      this.refused := refused;
    }

    predicate Exists(path: string)
      reads this
    {
      path in files
    }

    /** `os.remove(path)`. */
    method Remove(path: string) returns (outcome: RemoveOutcome)
      modifies this
      ensures refused == old(refused)
      ensures path !in old(files) ==> outcome == Missing && files == old(files)
      ensures path in old(files) && path in refused ==> outcome == Refused && files == old(files)
      ensures path in old(files) && path !in refused ==> outcome == Removed && files == old(files) - {path}
    {
      if path !in files {
        outcome := Missing;
      } else if path in refused {
        outcome := Refused;
      } else {
        files := files - {path};
        outcome := Removed;
      }
    }
  }

  /** Removing each path in turn, skipping the missing and the refused
      ones: the paths removed, in order, and the files left. */
  function RemoveEach(paths: seq<string>, files: set<string>, refused: set<string>): (r: (seq<string>, set<string>))
    ensures r.1 <= files
    decreases |paths|
  {
    if |paths| == 0 then ([], files)
    else
      var before := RemoveEach(paths[..|paths| - 1], files, refused);
      var p := paths[|paths| - 1];
      if p in before.1 && p !in refused then (before.0 + [p], before.1 - {p}) else before
  }

  /** A path is reported removed exactly when it was listed, present and
      not refused, and it is gone afterwards; nothing else disappears. */
  lemma {:induction false} RemoveEachExact(paths: seq<string>, files: set<string>, refused: set<string>)
    ensures var r := RemoveEach(paths, files, refused);
      (forall p :: p in r.0 <==> p in paths && p in files && p !in refused) &&
      r.1 == files - set p | p in r.0
    decreases |paths|
  {
    if |paths| > 0 {
      var init := paths[..|paths| - 1];
      RemoveEachExact(init, files, refused);
      assert paths == init + [paths[|paths| - 1]];
    }
  }

  /** Each path is reported at most once. */
  lemma {:induction false} RemoveEachDistinct(paths: seq<string>, files: set<string>, refused: set<string>)
    ensures Distinct(RemoveEach(paths, files, refused).0)
    decreases |paths|
  {
    if |paths| > 0 {
      var init := paths[..|paths| - 1];
      RemoveEachDistinct(init, files, refused);
      RemoveEachExact(init, files, refused);
    }
  }

  /** The removal loop of `cleanup_exports`: a backup that is missing or
      whose removal is refused is skipped. */
  method RemoveBackups(disk: Disk, backups: seq<string>) returns (removed: seq<string>)
    modifies disk
    ensures disk.refused == old(disk.refused)
    ensures (removed, disk.files) == RemoveEach(backups, old(disk.files), old(disk.refused))
  {
    removed := [];
    for i := 0 to |backups|
      invariant disk.refused == old(disk.refused)
      invariant (removed, disk.files) == RemoveEach(backups[..i], old(disk.files), old(disk.refused))
    {
      assert backups[..i + 1][..i] == backups[..i];
      var outcome := disk.Remove(backups[i]);
      if outcome == Removed {
        removed := removed + [backups[i]];
      }
    }
    assert backups[..|backups|] == backups;
  }

  /** The outcome of `cleanup_exports`: what it returns or raises, and the
      files left. */
  datatype Cleanup = Cleanup(result: Result<seq<string>>, files: set<string>)

  function CleanupResult(filepath: string, includeCanonical: bool, files: set<string>, refused: set<string>,
                         isDir: string -> bool, listdir: string -> Option<seq<string>>): Cleanup {
    var listed := ListBackupsResult(filepath, isDir, listdir);
    if listed.Failure? then Cleanup(Failure(listed.error), files)
    else
      var after := RemoveEach(listed.value, files, refused);
      if includeCanonical && filepath in after.1 then
        if filepath in refused then Cleanup(Failure("Failed to remove canonical file " + filepath), after.1)
        else Cleanup(Success(after.0 + [filepath]), after.1 - {filepath})
      else Cleanup(Success(after.0), after.1)
  }

  /** `cleanup_exports`: removes the listed backups it can, then the
      canonical file when asked and present; a refused canonical removal
      is raised, after the backups are gone. */
  method CleanupExports(filepath: string, includeCanonical: bool, disk: Disk,
                        isDir: string -> bool, listdir: string -> Option<seq<string>>)
    returns (r: Result<seq<string>>)
    modifies disk
    ensures disk.refused == old(disk.refused)
    ensures var c := CleanupResult(filepath, includeCanonical, old(disk.files), old(disk.refused), isDir, listdir);
      r == c.result && disk.files == c.files
  {
    var listed := ListBackups(filepath, isDir, listdir);
    if listed.Failure? {
      return Failure(listed.error);
    }
    var removed := RemoveBackups(disk, listed.value);
    if includeCanonical && disk.Exists(filepath) {
      var outcome := disk.Remove(filepath);
      if outcome == Refused {
        return Failure("Failed to remove canonical file " + filepath);
      }
      removed := removed + [filepath];
    }
    return Success(removed);
  }

  /** Without `include_canonical` only listed backups are removed and
      reported; with it, the canonical file comes last, and only when it
      was present and could be removed. */
  lemma CleanupContract(filepath: string, includeCanonical: bool, files: set<string>, refused: set<string>,
                        isDir: string -> bool, listdir: string -> Option<seq<string>>)
    requires ListBackupsResult(filepath, isDir, listdir).Success?
    ensures var backups := ListBackupsResult(filepath, isDir, listdir).value;
      var c := CleanupResult(filepath, includeCanonical, files, refused, isDir, listdir);
      var removed := RemoveEach(backups, files, refused).0;
      (forall p :: p in removed <==> p in backups && p in files && p !in refused) &&
      (!includeCanonical ==> c.result == Success(removed) && c.files == files - set p | p in removed) &&
      (c.result.Success? && |c.result.value| > |removed| ==>
        includeCanonical && c.result.value == removed + [filepath] && filepath in files && filepath !in refused &&
        filepath !in c.files)
  {
    var backups := ListBackupsResult(filepath, isDir, listdir).value;
    RemoveEachExact(backups, files, refused);
  }
}
