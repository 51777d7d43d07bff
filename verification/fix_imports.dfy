/** The import-block sorter: it finds the first block of `import` and
    `from` lines of a Python file (after a shebang line and any docstrings),
    sorts its lines into standard-library, third-party and local groups
    and writes the block back in place. The file is given as its lines
    (`content.split('\n')`); reading and writing it is not modelled. */
module FixImports {
  import opened Common

  const TripleDouble := "\"\"\""
  const TripleSingle := "'''"

  predicate IsImportLine(line: string) {
    StartsWith(line, "import ") || StartsWith(line, "from ")
  }

  /** `line.strip() == ''`: nothing but white space (see
      `BlankIffStripsEmpty`). */
  predicate IsBlank(line: string) {
    |line| == 0 || (IsSpace(line[0]) && IsBlank(line[1..]))
  }

  lemma {:induction false} BlankIffAllSpace(line: string)
    ensures IsBlank(line) <==> forall i :: 0 <= i < |line| ==> IsSpace(line[i])
  {
    if |line| > 0 {
      BlankIffAllSpace(line[1..]);
      assert forall i :: 1 <= i < |line| ==> line[i] == line[1..][i - 1];
    }
  }

  lemma BlankIffStripsEmpty(line: string)
    ensures IsBlank(line) <==> Strip(line) == ""
  {
    BlankIffAllSpace(line);
    StripEmptyIffBlank(line);
  }

  predicate OpensDocstring(line: string) {
    StartsWith(line, TripleDouble) || StartsWith(line, TripleSingle)
  }

  // ---------------------------------------------------------------------
  // Block detection

  /** The first index from `j` on whose line contains `quote`, or the
      number of lines. */
  function CloseIndex(lines: seq<string>, j: nat, quote: string): (k: nat)
    requires |quote| > 0
    ensures j <= |lines| ==> j <= k <= |lines|
    ensures j > |lines| ==> k == j
    ensures forall m :: j <= m < k && m < |lines| ==> !Contains(lines[m], quote)
    ensures k < |lines| ==> Contains(lines[k], quote)
    decreases |lines| - j
  {
    if j >= |lines| || Contains(lines[j], quote) then j else CloseIndex(lines, j + 1, quote)
  }

  /** The inner loop that skips to the line closing a docstring. */
  method FindClose(lines: seq<string>, j: nat, quote: string) returns (k: nat)
    requires |quote| > 0 && j <= |lines|
    ensures k == CloseIndex(lines, j, quote)
  {
    k := j;
    while k < |lines| && !Contains(lines[k], quote)
      invariant j <= k <= |lines|
      invariant CloseIndex(lines, k, quote) == CloseIndex(lines, j, quote)
      decreases |lines| - k
    {
      k := k + 1;
    }
  }

  /** Where scanning resumes after a line that opens a docstring: a line
      holding exactly one triple quote of either kind opens a docstring
      that runs to the next line containing that quote; any other such
      line is skipped alone. */
  function AfterDocstring(lines: seq<string>, i: nat): (j: nat)
    requires i < |lines|
    ensures i < j <= |lines| + 1
  {
    if Count(lines[i], TripleDouble) == 1 || Count(lines[i], TripleSingle) == 1 then
      var quote := if Contains(lines[i], TripleDouble) then TripleDouble else TripleSingle;
      CloseIndex(lines, i + 1, quote) + 1
    else i + 1
  }

  /** The outer scan from line `i`: the index of the line that starts the
      first import block, if any. */
  function Scan(lines: seq<string>, i: nat): (r: Option<nat>)
    ensures r.Some? ==> i <= r.value < |lines| && IsImportLine(lines[r.value])
    decreases |lines| + 1 - i
  {
    if i >= |lines| then None
    else if i == 0 && StartsWith(lines[0], "#!") then Scan(lines, 1)
    else if OpensDocstring(lines[i]) then Scan(lines, AfterDocstring(lines, i))
    else if IsImportLine(lines[i]) then Some(i)
    else Scan(lines, i + 1)
  }

  /** The first index from `i` on whose line is neither an import line
      nor blank. */
  function BlockEnd(lines: seq<string>, i: nat): (e: nat)
    requires i <= |lines|
    ensures i <= e <= |lines|
    ensures e < |lines| ==> !IsImportLine(lines[e]) && !IsBlank(lines[e])
    decreases |lines| - i
  {
    if i == |lines| || !(IsImportLine(lines[i]) || IsBlank(lines[i])) then i else BlockEnd(lines, i + 1)
  }

  /** Every line the block spans is an import line or blank. */
  lemma {:induction false} BlockEndSpans(lines: seq<string>, i: nat)
    requires i <= |lines|
    ensures forall k :: i <= k < BlockEnd(lines, i) ==> IsImportLine(lines[k]) || IsBlank(lines[k])
    decreases |lines| - i
  {
    if i < |lines| && (IsImportLine(lines[i]) || IsBlank(lines[i])) {
      BlockEndSpans(lines, i + 1);
    }
  }

  /** The non-blank lines, in order. */
  function NonBlank(xs: seq<string>): (r: seq<string>)
    ensures |r| <= |xs|
    ensures forall k :: 0 <= k < |r| ==> !IsBlank(r[k])
  {
    if |xs| == 0 then []
    else
      var init := NonBlank(xs[..|xs| - 1]);
      var last := xs[|xs| - 1];
      if IsBlank(last) then init else init + [last]
  }

  /** An import line is never blank: its first character is a letter. */
  lemma ImportLineNotBlank(line: string)
    requires IsImportLine(line)
    ensures !IsBlank(line)
  {
    assert line[0] == line[..1][0];
    assert !IsSpace(line[0]);
  }

  lemma NonBlankSnoc(xs: seq<string>, x: string)
    ensures NonBlank(xs + [x]) == if IsBlank(x) then NonBlank(xs) else NonBlank(xs) + [x]
  {
    assert (xs + [x])[..|xs|] == xs;
  }

  /** The collecting loop: the block runs to the first line that is
      neither an import line nor blank; the blank lines are dropped. */
  method CollectBlock(lines: seq<string>, start: nat) returns (end: nat, imports: seq<string>)
    requires start < |lines| && IsImportLine(lines[start])
    ensures end == BlockEnd(lines, start) && imports == NonBlank(lines[start..end])
    ensures |imports| > 0
  {
    ImportLineNotBlank(lines[start]);
    imports := [lines[start]];
    end := start + 1;
    assert lines[start..end] == [] + [lines[start]];
    NonBlankSnoc([], lines[start]);
    while end < |lines| && (IsImportLine(lines[end]) || IsBlank(lines[end]))
      invariant start < end <= |lines|
      invariant BlockEnd(lines, end) == BlockEnd(lines, start)
      invariant imports == NonBlank(lines[start..end]) && |imports| > 0
      decreases |lines| - end
    {
      assert lines[start..end + 1] == lines[start..end] + [lines[end]];
      NonBlankSnoc(lines[start..end], lines[end]);
      if !IsBlank(lines[end]) {
        imports := imports + [lines[end]];
      }
      end := end + 1;
    }
  }

  // ---------------------------------------------------------------------
  // Classification

  /** Python `s.rstrip(c)` for one character. */
  function RStripChar(s: string, c: char): (r: string)
    ensures |r| <= |s| && r == s[..|r|]
    ensures |r| > 0 ==> r[|r| - 1] != c
    ensures forall k :: |r| <= k < |s| ==> s[k] == c
  {
    if |s| > 0 && s[|s| - 1] == c then
      var r := RStripChar(s[..|s| - 1], c);
      assert s[..|s| - 1][..|r|] == s[..|r|];
      r
    else s
  }

  /** The module a line imports: the first dotted component of its second
      word, with trailing commas removed on `import` lines. A line with
      fewer than two words makes the sorter raise (`IndexError`). */
  function ModuleKey(line: string): (r: Option<string>)
    ensures r.None? <==> |Words(line)| < 2
    ensures r.Some? ==> '.' !in r.value
    ensures r.Some? && !StartsWith(line, "from ") ==> !EndsWith(r.value, ",")
  {
    var w := Words(line);
    if |w| < 2 then None
    else
      var head := Split(w[1], '.')[0];
      if StartsWith(line, "from ") then Some(head)
      else
        var key := RStripChar(head, ',');
        assert forall k :: 0 <= k < |key| ==> key[k] == head[k];
        Some(key)
  }

  predicate NoSpace(w: string) {
    forall i :: 0 <= i < |w| ==> !IsSpace(w[i])
  }

  /** A run of non-space characters ended by white space or the end of
      the line is one token. */
  lemma {:induction false} TokenOf(w: string, rest: string)
    requires NoSpace(w) && (rest == "" || IsSpace(rest[0]))
    ensures Token(w + rest) == w
    decreases |w|
  {
    if |w| > 0 {
      assert (w + rest)[1..] == w[1..] + rest;
      TokenOf(w[1..], rest);
      assert w == [w[0]] + w[1..];
    } else if rest != "" {
      assert (w + rest)[0] == rest[0];
    }
  }

  lemma WordsOf(w: string, rest: string)
    requires |w| > 0 && NoSpace(w) && (rest == "" || IsSpace(rest[0]))
    ensures Words(w + rest) == [w] + Words(rest)
  {
    TokenOf(w, rest);
    assert (w + rest)[0] == w[0];
    assert (w + rest)[|w|..] == rest;
  }

  lemma WordsAfterSpace(t: string)
    ensures Words(" " + t) == Words(t)
  {
    assert (" " + t)[1..] == t;
  }

  /** The first dotted component of a word with a dot-free head. */
  lemma {:induction false} SplitHead(pkg: string, tail: string)
    requires '.' !in pkg && (tail == "" || tail[0] == '.')
    ensures Split(pkg + tail, '.')[0] == pkg
    decreases |pkg|
  {
    if |pkg| > 0 {
      assert (pkg + tail)[0] == pkg[0] && (pkg + tail)[1..] == pkg[1..] + tail;
      SplitHead(pkg[1..], tail);
      assert pkg == [pkg[0]] + pkg[1..];
    } else if tail == "" {
      assert pkg + tail == "";
    } else {
      assert (pkg + tail)[0] == '.';
    }
  }

  /** The words of `kw word rest`. */
  lemma WordsOfStatement(kw: string, word: string, rest: string)
    requires |kw| > 0 && NoSpace(kw) && |word| > 0 && NoSpace(word) && (rest == "" || IsSpace(rest[0]))
    ensures var ws := Words(kw + (" " + (word + rest))); |ws| >= 2 && ws[1] == word
  {
    var wr := word + rest;
    var swr := " " + wr;
    WordsOf(word, rest);
    WordsAfterSpace(wr);
    assert IsSpace(swr[0]);
    WordsOf(kw, swr);
    assert Words(kw + swr) == [kw] + ([word] + Words(rest));
  }

  /** `from pkg[.sub] ...` has the key `pkg`. */
  lemma ModuleKeyOfFrom(pkg: string, tail: string, rest: string)
    requires |pkg| > 0 && '.' !in pkg && NoSpace(pkg + tail) && (tail == "" || tail[0] == '.')
    requires rest == "" || IsSpace(rest[0])
    ensures ModuleKey("from " + pkg + tail + rest) == Some(pkg)
  {
    var line := "from " + pkg + tail + rest;
    WordsOfStatement("from", pkg + tail, rest);
    assert line == "from" + (" " + ((pkg + tail) + rest));
    assert line[..5] == "from ";
    SplitHead(pkg, tail);
  }

  /** `import pkg[.sub]` has the key `pkg`. */
  lemma ModuleKeyOfImport(pkg: string, tail: string, rest: string)
    requires |pkg| > 0 && '.' !in pkg && ',' !in pkg && NoSpace(pkg + tail) && (tail == "" || tail[0] == '.')
    requires rest == "" || IsSpace(rest[0])
    ensures ModuleKey("import " + pkg + tail + rest) == Some(pkg)
  {
    var line := "import " + pkg + tail + rest;
    WordsOfStatement("import", pkg + tail, rest);
    assert line == "import" + (" " + ((pkg + tail) + rest));
    assert line[0] == 'i' && !StartsWith(line, "from ");
    SplitHead(pkg, tail);
    assert pkg[|pkg| - 1] in pkg;
  }

  /** `import pkg, ...` has the key `pkg`: the comma is stripped. */
  lemma ModuleKeyOfImportList(pkg: string, rest: string)
    requires |pkg| > 0 && '.' !in pkg && ',' !in pkg && NoSpace(pkg + ",")
    requires rest == "" || IsSpace(rest[0])
    ensures ModuleKey("import " + pkg + "," + rest) == Some(pkg)
  {
    var line := "import " + pkg + "," + rest;
    var word := pkg + ",";
    WordsOfStatement("import", word, rest);
    assert line == "import" + (" " + (word + rest));
    assert line[0] == 'i' && !StartsWith(line, "from ");
    assert '.' !in word;
    SplitNoSep(word, '.');
    assert word[..|word| - 1] == pkg;
    assert RStripChar(word, ',') == RStripChar(pkg, ',');
    assert pkg[|pkg| - 1] in pkg;
  }

  const StdlibModules: seq<string> := ["os", "sys", "json", "unittest", "tempfile", "datetime", "pathlib",
    "argparse", "re", "trace", "io", "uuid", "shutil", "logging", "typing", "contextlib", "asyncio"]

  const LocalModules: seq<string> := ["attendance_analyzer", "lib", "server"]

  datatype Group = Stdlib | ThirdParty | Local

  /** The fixed list decides: the standard-library names, then the
      project's own packages, and everything else is third-party. */
  function GroupOf(key: string): (g: Group)
    ensures g == Stdlib <==> key in StdlibModules
    ensures g == Local <==> key !in StdlibModules && key in LocalModules
  {
    if key in StdlibModules then Stdlib else if key in LocalModules then Local else ThirdParty
  }

  datatype Groups = Groups(stdlib: seq<string>, thirdParty: seq<string>, local: seq<string>)

  function Add(gs: Groups, g: Group, line: string): Groups {
    match g
    case Stdlib => gs.(stdlib := gs.stdlib + [line])
    case ThirdParty => gs.(thirdParty := gs.thirdParty + [line])
    case Local => gs.(local := gs.local + [line])
  }

  /** The lines distributed over the three groups in order, or nothing
      when some line has no module key. */
  function Grouped(xs: seq<string>): Option<Groups>
    decreases |xs|
  {
    if |xs| == 0 then Some(Groups([], [], []))
    else
      var init := Grouped(xs[..|xs| - 1]);
      var key := ModuleKey(xs[|xs| - 1]);
      if init.None? || key.None? then None else Some(Add(init.value, GroupOf(key.value), xs[|xs| - 1]))
  }

  /** The grouping fails exactly when some line has fewer than two
      words. */
  lemma {:induction false} GroupedFailsIff(xs: seq<string>)
    ensures Grouped(xs).None? <==> exists k :: 0 <= k < |xs| && ModuleKey(xs[k]).None?
    decreases |xs|
  {
    if |xs| > 0 {
      var init := xs[..|xs| - 1];
      GroupedFailsIff(init);
      if exists k :: 0 <= k < |init| && ModuleKey(init[k]).None? {
        var k :| 0 <= k < |init| && ModuleKey(init[k]).None?;
        assert ModuleKey(xs[k]).None?;
      }
      if exists k :: 0 <= k < |xs| && ModuleKey(xs[k]).None? {
        var k :| 0 <= k < |xs| && ModuleKey(xs[k]).None?;
        if k < |xs| - 1 {
          assert ModuleKey(init[k]).None?;
        }
      }
    }
  }

  /** Each line that groups lands in exactly one group, the one its key
      selects. */
  predicate InGroup(line: string, g: Group) {
    ModuleKey(line).Some? && GroupOf(ModuleKey(line).value) == g
  }

  /** Grouping keeps every line exactly as often as it occurs. */
  lemma {:induction false} GroupedKeepsLines(xs: seq<string>)
    requires Grouped(xs).Some?
    ensures var gs := Grouped(xs).value;
      multiset(gs.stdlib) + multiset(gs.thirdParty) + multiset(gs.local) == multiset(xs)
    decreases |xs|
  {
    if |xs| > 0 {
      var init, x := xs[..|xs| - 1], xs[|xs| - 1];
      GroupedKeepsLines(init);
      assert xs == init + [x];
      var g := Grouped(init).value;
      var key := ModuleKey(x).value;
      assert Grouped(xs).value == Add(g, GroupOf(key), x);
      AddKeepsLines(g, GroupOf(key), x);
    }
  }

  lemma AddKeepsLines(gs: Groups, g: Group, x: string)
    ensures var r := Add(gs, g, x);
      multiset(r.stdlib) + multiset(r.thirdParty) + multiset(r.local) ==
      multiset(gs.stdlib) + multiset(gs.thirdParty) + multiset(gs.local) + multiset{x}
  {
  }

  /** Every line lands in the group its module key selects. */
  lemma {:induction false} GroupedByKey(xs: seq<string>)
    requires Grouped(xs).Some?
    ensures var gs := Grouped(xs).value;
      (forall k :: 0 <= k < |gs.stdlib| ==> InGroup(gs.stdlib[k], Stdlib)) &&
      (forall k :: 0 <= k < |gs.thirdParty| ==> InGroup(gs.thirdParty[k], ThirdParty)) &&
      (forall k :: 0 <= k < |gs.local| ==> InGroup(gs.local[k], Local))
    decreases |xs|
  {
    if |xs| > 0 {
      var init, x := xs[..|xs| - 1], xs[|xs| - 1];
      GroupedByKey(init);
      var g := Grouped(init).value;
      var key := ModuleKey(x).value;
      assert InGroup(x, GroupOf(key));
      assert Grouped(xs).value == Add(g, GroupOf(key), x);
    }
  }

  /** The classifying loop: each line appended to its group. */
  method GroupImports(xs: seq<string>) returns (r: Option<Groups>)
    ensures r == Grouped(xs)
  {
    var stdlib, thirdParty, local := [], [], [];
    for i := 0 to |xs|
      invariant Grouped(xs[..i]) == Some(Groups(stdlib, thirdParty, local))
    {
      assert xs[..i + 1][..i] == xs[..i];
      var key := ModuleKey(xs[i]);
      if key.None? {
        GroupedFailsIff(xs);
        return None;
      }
      var g := GroupOf(key.value);
      if g == Stdlib {
        stdlib := stdlib + [xs[i]];
      } else if g == Local {
        local := local + [xs[i]];
      } else {
        thirdParty := thirdParty + [xs[i]];
      }
    }
    assert xs[..|xs|] == xs;
    return Some(Groups(stdlib, thirdParty, local));
  }

  // ---------------------------------------------------------------------
  // Reassembly

  /** The block: the groups in the order standard library, third-party,
      local, with one empty line between two non-empty groups. */
  function Assemble(gs: Groups): seq<string> {
    var a, b, c := gs.stdlib, gs.thirdParty, gs.local;
    a + (if |a| > 0 && |b| > 0 then [""] else []) + b + (if |a| + |b| > 0 && |c| > 0 then [""] else []) + c
  }

  /** The reconstruction in `fix_imports_in_file`, appending group by
      group. */
  method AssembleBlock(gs: Groups) returns (block: seq<string>)
    ensures block == Assemble(gs)
  {
    block := [];
    if |gs.stdlib| > 0 {
      block := block + gs.stdlib;
    }
    if |gs.thirdParty| > 0 {
      if |block| > 0 {
        block := block + [""];
      }
      block := block + gs.thirdParty;
    }
    if |gs.local| > 0 {
      if |block| > 0 {
        block := block + [""];
      }
      block := block + gs.local;
    }
  }

  /** The lines that are not the empty string. */
  function NonEmpty(xs: seq<string>): seq<string> {
    if |xs| == 0 then [] else (if xs[0] == "" then [] else [xs[0]]) + NonEmpty(xs[1..])
  }

  lemma {:induction false} NonEmptyAppend(a: seq<string>, b: seq<string>)
    ensures NonEmpty(a + b) == NonEmpty(a) + NonEmpty(b)
    decreases |a|
  {
    if |a| > 0 {
      assert (a + b)[0] == a[0] && (a + b)[1..] == a[1..] + b;
      NonEmptyAppend(a[1..], b);
    } else {
      assert a + b == b;
    }
  }

  lemma {:induction false} NonEmptyKeeps(a: seq<string>)
    requires "" !in a
    ensures NonEmpty(a) == a
    decreases |a|
  {
    if |a| > 0 {
      NonEmptyKeeps(a[1..]);
    }
  }

  /** Without the separators the block is the three groups one after
      another. */
  lemma AssembleLines(gs: Groups)
    requires "" !in gs.stdlib && "" !in gs.thirdParty && "" !in gs.local
    ensures NonEmpty(Assemble(gs)) == gs.stdlib + gs.thirdParty + gs.local
  {
    var a, b, c := gs.stdlib, gs.thirdParty, gs.local;
    var s1: seq<string> := if |a| > 0 && |b| > 0 then [""] else [];
    var s2: seq<string> := if |a| + |b| > 0 && |c| > 0 then [""] else [];
    assert NonEmpty([""]) == [] && NonEmpty([]) == [];
    NonEmptyKeeps(a);
    NonEmptyKeeps(b);
    NonEmptyKeeps(c);
    NonEmptyAppend(a, s1);
    var as1 := a + s1;
    assert NonEmpty(as1) == a;
    NonEmptyAppend(as1, b);
    var ab := as1 + b;
    assert NonEmpty(ab) == a + b;
    NonEmptyAppend(ab, s2);
    var abs2 := ab + s2;
    assert NonEmpty(abs2) == a + b;
    NonEmptyAppend(abs2, c);
    assert Assemble(gs) == abs2 + c;
  }

  /** Every separator stands between two lines of code: never at either
      end and never twice in a row. */
  predicate Separated(r: seq<string>) {
    forall k :: 0 <= k < |r| && r[k] == "" ==> 0 < k < |r| - 1 && r[k - 1] != "" && r[k + 1] != ""
  }

  /** Two pieces with one separator between them when both are non-empty. */
  function JoinBlank(x: seq<string>, y: seq<string>): seq<string> {
    x + (if |x| > 0 && |y| > 0 then [""] else []) + y
  }

  /** Joining separated pieces that start and end with code keeps them
      separated and starting and ending with code. */
  lemma JoinBlankSeparated(x: seq<string>, y: seq<string>)
    requires Separated(x) && Separated(y)
    requires |x| > 0 ==> x[0] != "" && x[|x| - 1] != ""
    requires |y| > 0 ==> y[0] != "" && y[|y| - 1] != ""
    ensures var r := JoinBlank(x, y);
      Separated(r) && (|r| > 0 ==> r[0] != "" && r[|r| - 1] != "")
  {
    var r := JoinBlank(x, y);
    if |x| > 0 && |y| > 0 {
      assert r == x + [""] + y;
      forall k | 0 <= k < |r| && r[k] == "" ensures 0 < k < |r| - 1 && r[k - 1] != "" && r[k + 1] != "" {
        if k < |x| {
          assert r[k] == x[k];
          assert k < |x| - 1;
          assert r[k - 1] == x[k - 1] && r[k + 1] == x[k + 1];
        } else if k > |x| {
          assert r[k] == y[k - |x| - 1];
          assert k - |x| - 1 > 0;
          assert r[k - 1] == y[k - |x| - 2];
          if k + 1 < |r| {
            assert r[k + 1] == y[k - |x|];
          }
        } else {
          assert r[k - 1] == x[|x| - 1] && r[k + 1] == y[0];
        }
      }
    } else if |x| == 0 {
      assert r == y;
    } else {
      assert r == x;
    }
  }

  /** Code lines alone start and end with code and hold no separator. */
  lemma CodeSeparated(x: seq<string>)
    requires "" !in x
    ensures Separated(x) && (|x| > 0 ==> x[0] != "" && x[|x| - 1] != "")
  {
  }

  /** Every separator of the rebuilt block stands between two lines of
      code. */
  lemma AssembleSeparators(gs: Groups)
    requires "" !in gs.stdlib && "" !in gs.thirdParty && "" !in gs.local
    ensures Separated(Assemble(gs))
  {
    var a, b, c := gs.stdlib, gs.thirdParty, gs.local;
    CodeSeparated(a);
    CodeSeparated(b);
    CodeSeparated(c);
    JoinBlankSeparated(a, b);
    JoinBlankSeparated(JoinBlank(a, b), c);
    assert Assemble(gs) == JoinBlank(JoinBlank(a, b), c);
  }

  /** The rewritten block, or nothing when the classification raises. */
  function Rebuild(xs: seq<string>): (r: Option<seq<string>>)
    ensures r.None? <==> exists k :: 0 <= k < |xs| && ModuleKey(xs[k]).None?
  {
    GroupedFailsIff(xs);
    var g := Grouped(xs);
    if g.None? then None
    else Some(Assemble(Groups(SortStrings(g.value.stdlib), SortStrings(g.value.thirdParty), SortStrings(g.value.local))))
  }

  /** The rewritten block holds the collected lines and nothing else,
      each group sorted and holding only lines of its kind. */
  lemma RebuildContents(xs: seq<string>) returns (gs: Groups)
    requires Rebuild(xs).Some?
    ensures Rebuild(xs).value == Assemble(gs)
    ensures multiset(gs.stdlib) + multiset(gs.thirdParty) + multiset(gs.local) == multiset(xs)
    ensures SortedBy(gs.stdlib, LexLe) && SortedBy(gs.thirdParty, LexLe) && SortedBy(gs.local, LexLe)
    ensures forall k :: 0 <= k < |gs.stdlib| ==> InGroup(gs.stdlib[k], Stdlib)
    ensures forall k :: 0 <= k < |gs.thirdParty| ==> InGroup(gs.thirdParty[k], ThirdParty)
    ensures forall k :: 0 <= k < |gs.local| ==> InGroup(gs.local[k], Local)
  {
    var g := Grouped(xs).value;
    GroupedKeepsLines(xs);
    GroupedByKey(xs);
    gs := Groups(SortStrings(g.stdlib), SortStrings(g.thirdParty), SortStrings(g.local));
    forall k | 0 <= k < |gs.stdlib| ensures InGroup(gs.stdlib[k], Stdlib) {
      assert gs.stdlib[k] in multiset(g.stdlib);
    }
    forall k | 0 <= k < |gs.thirdParty| ensures InGroup(gs.thirdParty[k], ThirdParty) {
      assert gs.thirdParty[k] in multiset(g.thirdParty);
    }
    forall k | 0 <= k < |gs.local| ensures InGroup(gs.local[k], Local) {
      assert gs.local[k] in multiset(g.local);
    }
  }

  /** The sorting and reassembly of a collected block. */
  method RebuildBlock(xs: seq<string>) returns (r: Option<seq<string>>)
    ensures r == Rebuild(xs)
  {
    var g := GroupImports(xs);
    if g.None? {
      return None;
    }
    var stdlib := SortStrings(g.value.stdlib);
    var thirdParty := SortStrings(g.value.thirdParty);
    var local := SortStrings(g.value.local);
    var block := AssembleBlock(Groups(stdlib, thirdParty, local));
    return Some(block);
  }

  // ---------------------------------------------------------------------
  // The whole file

  /** What `fix_imports_in_file` does to the lines: nothing when there is
      no import block (it returns False); otherwise the first block, from
      its first import line up to the first line that is neither an import
      nor blank, is replaced by the rebuilt block and one empty line (it
      returns True) — unless a line of the block has no module key, which
      raises before anything is written. */
  datatype Outcome = NoImports | Raised | Rewritten(lines: seq<string>)

  function FixResult(lines: seq<string>): (r: Outcome)
    ensures !r.NoImports? ==> exists k :: 0 <= k < |lines| && IsImportLine(lines[k])
  {
    var s := Scan(lines, 0);
    if s.None? then NoImports
    else
      var e := BlockEnd(lines, s.value);
      var block := Rebuild(NonBlank(lines[s.value..e]));
      if block.None? then Raised else Rewritten(lines[..s.value] + block.value + [""] + lines[e..])
  }

  /** `fix_imports_in_file` on the lines of the file. */
  method FixImportsInFile(lines: seq<string>) returns (r: Outcome)
    ensures r == FixResult(lines)
  {
    var i: nat := 0;
    while i < |lines|
      invariant i <= |lines| + 1
      invariant Scan(lines, i) == Scan(lines, 0)
      decreases |lines| + 1 - i
    {
      if i == 0 && StartsWith(lines[i], "#!") {
        i := i + 1;
        continue;
      }
      if StartsWith(lines[i], TripleDouble) || StartsWith(lines[i], TripleSingle) {
        if Count(lines[i], TripleDouble) == 1 || Count(lines[i], TripleSingle) == 1 {
          i := i + 1;
          var quote := if Contains(lines[i - 1], TripleDouble) then TripleDouble else TripleSingle;
          i := FindClose(lines, i, quote);
        }
        i := i + 1;
        continue;
      }
      if IsImportLine(lines[i]) {
        var importStart := i;
        var end, importLines := CollectBlock(lines, i);
        var block := RebuildBlock(importLines);
        if block.None? {
          return Raised;
        }
        return Rewritten(lines[..importStart] + block.value + [""] + lines[end..]);
      }
      i := i + 1;
    }
    return NoImports;
  }

  // ---------------------------------------------------------------------
  // Properties of the whole rewrite

  /** Replacing lines `s` to `e` keeps what is before and after. */
  lemma SpliceKeeps(lines: seq<string>, s: nat, e: nat, block: seq<string>)
    requires s <= e <= |lines|
    ensures var out := lines[..s] + block + [""] + lines[e..];
      var n := |out| - (|lines| - e);
      s < n <= |out| && out[..s] == lines[..s] && out[n - 1] == "" && out[n..] == lines[e..]
  {
    var out := lines[..s] + block + [""] + lines[e..];
    assert out[..s] == lines[..s];
    assert out[s + |block| + 1..] == lines[e..];
  }

  /** Only the first block changes: the lines before it and every line
      from the first line after it on are kept, later import lines
      included; the block spans only import and blank lines, and its
      replacement ends with one empty line. */
  lemma RewriteKeepsTheRest(lines: seq<string>)
    requires FixResult(lines).Rewritten?
    ensures var s := Scan(lines, 0).value;
      var e := BlockEnd(lines, s);
      var out := FixResult(lines).lines;
      var n := |out| - (|lines| - e);
      IsImportLine(lines[s]) && (forall k :: s <= k < e ==> IsImportLine(lines[k]) || IsBlank(lines[k])) &&
      s < n <= |out| && out[..s] == lines[..s] && out[n - 1] == "" && out[n..] == lines[e..]
  {
    var s := Scan(lines, 0).value;
    var e := BlockEnd(lines, s);
    var block := Rebuild(NonBlank(lines[s..e])).value;
    SpliceKeeps(lines, s, e, block);
    BlockEndSpans(lines, s);
  }

  /** A file without any import line is left alone. */
  lemma {:induction false} NoImportLineNoChange(lines: seq<string>, i: nat)
    requires forall k :: 0 <= k < |lines| ==> !IsImportLine(lines[k])
    ensures Scan(lines, i) == None
    decreases |lines| + 1 - i
  {
    if i < |lines| {
      if i == 0 && StartsWith(lines[0], "#!") {
        NoImportLineNoChange(lines, 1);
      } else if OpensDocstring(lines[i]) {
        NoImportLineNoChange(lines, AfterDocstring(lines, i));
      } else {
        NoImportLineNoChange(lines, i + 1);
      }
    }
  }

  lemma NoImportsUnchanged(lines: seq<string>)
    requires forall k :: 0 <= k < |lines| ==> !IsImportLine(lines[k])
    ensures FixResult(lines) == NoImports
  {
    NoImportLineNoChange(lines, 0);
  }

  /** A shebang line is skipped: an import on the next line starts the
      block. */
  lemma ShebangSkipped(lines: seq<string>)
    requires |lines| >= 2 && StartsWith(lines[0], "#!") && IsImportLine(lines[1])
    ensures Scan(lines, 0) == Some(1)
  {
    assert !OpensDocstring(lines[1]) by {
      assert lines[1][..1] == "i" || lines[1][..1] == "f";
    }
  }

  /** Import lines inside a docstring opened by a line with a single
      triple double quote are not a block: the scan resumes after the
      closing line. */
  lemma DocstringSkipped(lines: seq<string>, close: nat)
    requires 0 < close < |lines| && Contains(lines[close], TripleDouble)
    requires StartsWith(lines[0], TripleDouble) && Count(lines[0], TripleDouble) == 1
    requires forall m :: 0 < m < close ==> !Contains(lines[m], TripleDouble)
    ensures Scan(lines, 0) == Scan(lines, close + 1)
  {
    assert !StartsWith(lines[0], "#!") by {
      assert lines[0][..3] == TripleDouble;
      assert lines[0][0] == '"';
    }
    assert Contains(lines[0], TripleDouble);
    assert CloseIndex(lines, 1, TripleDouble) == close by {
      CloseIndexFirst(lines, 1, TripleDouble, close);
    }
  }

  /** The closing index is the first line containing the quote. */
  lemma {:induction false} CloseIndexFirst(lines: seq<string>, j: nat, quote: string, close: nat)
    requires |quote| > 0 && j <= close < |lines| && Contains(lines[close], quote)
    requires forall m :: j <= m < close ==> !Contains(lines[m], quote)
    ensures CloseIndex(lines, j, quote) == close
    decreases close - j
  {
    if j < close {
      CloseIndexFirst(lines, j + 1, quote, close);
    }
  }
}
