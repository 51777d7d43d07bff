/** The minimal PO to MO compiler: a line state machine that collects
    (msgid, msgstr) pairs, and the layout of a GNU MO file as described in
    the GNU gettext manual, section "The Format of GNU MO Files": a header
    of seven 32-bit words, a table of (length, offset) pairs for the
    original strings, one for the translations, then the NUL-terminated
    strings in UTF-8. Bytes are integers in 0..255; the byte order of the
    words and the file write are not modelled. */
module PoToMo {
  import opened Common

  // ---------------------------------------------------------------------
  // UTF-8

  /** The UTF-8 bytes of one character. */
  function Utf8Char(c: char): (b: seq<int>)
    ensures 1 <= |b| <= 4 && forall k :: 0 <= k < |b| ==> 0 <= b[k] < 256
    ensures |b| == 1 <==> c as int < 0x80
    ensures |b| == 1 ==> b[0] == c as int
  {
    var n := c as int;
    if n < 0x80 then [n]
    else if n < 0x800 then [0xC0 + n / 64, 0x80 + n % 64]
    else if n < 0x10000 then [0xE0 + n / 4096, 0x80 + (n / 64) % 64, 0x80 + n % 64]
    else [0xF0 + n / 262144, 0x80 + (n / 4096) % 64, 0x80 + (n / 64) % 64, 0x80 + n % 64]
  }

  /** `s.encode('utf-8')`. */
  function Utf8(s: string): (b: seq<int>)
    ensures |b| >= |s|
    ensures forall k :: 0 <= k < |b| ==> 0 <= b[k] < 256
  {
    if |s| == 0 then [] else Utf8Char(s[0]) + Utf8(s[1..])
  }

  lemma {:induction false} Utf8Append(a: string, b: string)
    ensures Utf8(a + b) == Utf8(a) + Utf8(b)
    decreases |a|
  {
    if |a| > 0 {
      assert (a + b)[0] == a[0] && (a + b)[1..] == a[1..] + b;
      Utf8Append(a[1..], b);
      assert Utf8(a + b) == Utf8Char(a[0]) + Utf8(a[1..] + b);
    } else {
      assert a + b == b;
    }
  }

  /** Decoding bytes with `unicode_escape` when none of them is a
      backslash: each byte becomes the character with that code. */
  function Latin1(bytes: seq<int>): (s: string)
    requires forall k :: 0 <= k < |bytes| ==> 0 <= bytes[k] < 256
    ensures |s| == |bytes|
  {
    if |bytes| == 0 then "" else [bytes[0] as char] + Latin1(bytes[1..])
  }

  // ---------------------------------------------------------------------
  // _unquote

  /** The quote stripping of `_unquote`: one surrounding pair of double
      quotes goes. */
  function StripQuotes(s: string): string {
    if StartsWith(s, "\"") && EndsWith(s, "\"") then (if |s| >= 2 then s[1..|s| - 1] else "") else s
  }

  /** `_unquote` as written, for a string without a backslash: the quotes
      stripped, then the UTF-8 bytes decoded with `unicode_escape`, which
      reads every byte as one character. */
  function UnquoteAsWritten(s: string): (r: string)
    requires '\\' !in s
    ensures |r| >= |Unquote(s)|
  {
    Latin1(Utf8(StripQuotes(s)))
  }

  /** `_unquote` as evidently intended: the text between one pair of
      surrounding quotes, unchanged. Escape sequences are kept as they are
      written. */
  function Unquote(s: string): (r: string)
    ensures r == s || (|s| >= 2 && s == "\"" + r + "\"") || s == "\""
  {
    StripQuotes(s)
  }

  /** Exactly one surrounding pair of quotes is removed. */
  lemma UnquoteStripsOnePair(x: string)
    ensures Unquote("\"" + x + "\"") == x
  {
    var q := "\"" + x + "\"";
    assert q[1..|q| - 1] == x;
  }

  /** A doubly quoted string keeps its inner quotes. */
  lemma UnquoteKeepsInnerQuotes(x: string)
    ensures Unquote("\"\"" + x + "\"\"") == "\"" + x + "\""
  {
    var qq := "\"\"" + x + "\"\"";
    assert qq == "\"" + ("\"" + x + "\"") + "\"";
    UnquoteStripsOnePair("\"" + x + "\"");
  }


  /** On ASCII text the code as written and the intended reading agree. */
  lemma {:induction false} Latin1OfAscii(s: string)
    requires forall k :: 0 <= k < |s| ==> s[k] as int < 0x80
    ensures Latin1(Utf8(s)) == s
    decreases |s|
  {
    if |s| > 0 {
      Latin1OfAscii(s[1..]);
      assert Utf8(s) == [s[0] as int] + Utf8(s[1..]);
      assert Utf8(s)[1..] == Utf8(s[1..]);
    }
  }

  lemma AsWrittenAgreesOnAscii(s: string)
    requires '\\' !in s
    requires forall k :: 0 <= k < |s| ==> s[k] as int < 0x80
    ensures UnquoteAsWritten(s) == Unquote(s)
  {
    var t := StripQuotes(s);
    assert forall k :: 0 <= k < |t| ==> t[k] as int < 0x80 by {
      if StartsWith(s, "\"") && EndsWith(s, "\"") && |s| >= 2 {
        assert forall k :: 0 <= k < |t| ==> t[k] == s[k + 1];
      }
    }
    Latin1OfAscii(t);
  }

  /** A Chinese translation is garbled: "中" (U+4E2D) has the UTF-8 bytes
      E4 B8 AD, which come back as three Latin-1 characters. */
  lemma AsWrittenGarblesChinese()
    ensures UnquoteAsWritten("\"中\"") == "ä¸­"
    ensures Unquote("\"中\"") == "中"
  {
    var q := "\"中\"";
    assert q[1..|q| - 1] == "中";
    assert Utf8Char('中') == [0xE4, 0xB8, 0xAD];
    assert Utf8("中") == [0xE4, 0xB8, 0xAD];
  }


  // ---------------------------------------------------------------------
  // parse_po

  datatype Mode = Id | Str

  /** The parser's state: the entries so far, the pieces of the pending
      msgid and msgstr, and which of them a quoted line continues. */
  datatype Po = Po(entries: seq<(string, string)>, msgid: seq<string>, msgstr: seq<string>, mode: Option<Mode>)

  const Start: Po := Po([], [], [], None)

  /** `''.join(pieces)`. */
  function Concat(pieces: seq<string>): string {
    if |pieces| == 0 then "" else pieces[0] + Concat(pieces[1..])
  }

  /** The entries with the pending one appended, if it has any piece. */
  function Flush(st: Po): seq<(string, string)> {
    if |st.msgid| > 0 || |st.msgstr| > 0 then st.entries + [(Concat(st.msgid), Concat(st.msgstr))] else st.entries
  }

  /** `line.rstrip('\n')`. */
  function RStripNewlines(s: string): (r: string)
    ensures |r| <= |s| && r == s[..|r|]
    ensures |r| > 0 ==> r[|r| - 1] != '\n'
  {
    if |s| > 0 && s[|s| - 1] == '\n' then
      var r := RStripNewlines(s[..|s| - 1]);
      assert s[..|s| - 1][..|r|] == s[..|r|];
      r
    else s
  }

  /** Comment and blank lines. */
  predicate Skipped(line: string) {
    StartsWith(line, "#") || line == ""
  }

  /** What one line of the file is, tested in the order of `parse_po`:
      comments, blank lines, `msgctxt` and unknown directives are all
      ignored; the text of the others is unquoted. */
  datatype Line = Ignored | MsgidLine(text: string) | MsgstrLine(text: string) | Continuation(text: string)

  function Classify(raw: string): Line {
    var line := RStripNewlines(raw);
    if Skipped(line) then Ignored
    else if StartsWith(line, "msgid ") then MsgidLine(Unquote(Strip(line[5..])))
    else if StartsWith(line, "msgstr ") then MsgstrLine(Unquote(Strip(line[6..])))
    else if StartsWith(line, "msgctxt ") then Ignored
    else if StartsWith(line, "\"") then Continuation(Unquote(Strip(line)))
    else Ignored
  }

  /** One line of input: a msgid line flushes the pending entry and starts
      a new one, a msgstr line adds to the translation, a quoted line
      continues whichever of the two came last. */
  function Step(st: Po, raw: string): (r: Po)
    ensures st.entries <= r.entries && |r.entries| <= |st.entries| + 1
  {
    match Classify(raw)
    case Ignored => st
    case MsgidLine(t) => Po(Flush(st), [t], [], Some(Id))
    case MsgstrLine(t) => st.(msgstr := st.msgstr + [t], mode := Some(Str))
    case Continuation(t) =>
      if st.mode == Some(Id) then st.(msgid := st.msgid + [t])
      else if st.mode == Some(Str) then st.(msgstr := st.msgstr + [t])
      else st
  }

  /** The lines, one after another. */
  function Run(st: Po, lines: seq<string>): Po
    decreases |lines|
  {
    if |lines| == 0 then st else Run(Step(st, lines[0]), lines[1..])
  }

  /** What `parse_po` returns for the lines of a file. */
  function ParsePoResult(lines: seq<string>): seq<(string, string)> {
    Flush(Run(Start, lines))
  }

  /** `parse_po` over the lines of the file. */
  method ParsePo(lines: seq<string>) returns (entries: seq<(string, string)>)
    ensures entries == ParsePoResult(lines)
  {
    entries := [];
    var msgid: seq<string> := [];
    var msgstr: seq<string> := [];
    var state: Option<Mode> := None;
    for i := 0 to |lines|
      invariant Run(Po(entries, msgid, msgstr, state), lines[i..]) == Run(Start, lines)
    {
      assert lines[i..][0] == lines[i] && lines[i..][1..] == lines[i + 1..];
      ghost var before := Po(entries, msgid, msgstr, state);
      match Classify(lines[i]) {
        case Ignored =>
        case MsgidLine(t) =>
          if |msgid| > 0 || |msgstr| > 0 {
            entries := entries + [(Concat(msgid), Concat(msgstr))];
            msgid, msgstr := [], [];
          }
          state := Some(Id);
          msgid := msgid + [t];
        case MsgstrLine(t) =>
          state := Some(Str);
          msgstr := msgstr + [t];
        case Continuation(t) =>
          if state == Some(Id) {
            msgid := msgid + [t];
          } else if state == Some(Str) {
            msgstr := msgstr + [t];
          }
      }
      assert Po(entries, msgid, msgstr, state) == Step(before, lines[i]);
    }
    assert lines[|lines|..] == [];
    if |msgid| > 0 || |msgstr| > 0 {
      entries := entries + [(Concat(msgid), Concat(msgstr))];
    }
  }

  lemma {:induction false} RunAppend(st: Po, a: seq<string>, b: seq<string>)
    ensures Run(st, a + b) == Run(Run(st, a), b)
    decreases |a|
  {
    if |a| > 0 {
      assert (a + b)[0] == a[0] && (a + b)[1..] == a[1..] + b;
      RunAppend(Step(st, a[0]), a[1..], b);
    } else {
      assert a + b == b;
    }
  }

  /** Comment and blank lines never change the entries, wherever they
      stand. */
  lemma SkippedLineIgnored(a: seq<string>, line: string, b: seq<string>)
    requires Skipped(RStripNewlines(line))
    ensures ParsePoResult(a + [line] + b) == ParsePoResult(a + b)
  {
    RunAppend(Start, a + [line], b);
    RunAppend(Start, a, [line]);
    RunAppend(Start, a, b);
  }

  /** A string without surrounding white space keeps its text when
      strip() removes one space before it. */
  lemma StripSpaceThenTrimmed(q: string)
    requires |q| > 0 && Trimmed(q)
    ensures Strip(" " + q) == q
  {
    var s := " " + q;
    assert s[1..] == q;
    assert LStrip(s) == LStrip(q);
    StripOfTrimmed(q);
  }

  lemma QuotedTrimmed(x: string)
    ensures var q := "\"" + x + "\""; |q| > 0 && Trimmed(q) && Strip(q) == q && Unquote(q) == x
  {
    var q := "\"" + x + "\"";
    assert q[0] == '"' && q[|q| - 1] == '"';
    StripOfTrimmed(q);
    UnquoteStripsOnePair(x);
  }

  /** A line that does not end in a newline is kept by rstrip('\n'). */
  lemma NoNewlineKept(line: string)
    requires |line| > 0 && line[|line| - 1] != '\n'
    ensures RStripNewlines(line) == line
  {
  }

  /** A quoted line is a continuation carrying the text between the
      quotes. */
  lemma ClassifyQuoted(x: string)
    ensures Classify("\"" + x + "\"") == Continuation(x)
  {
    var line := "\"" + x + "\"";
    assert line[|line| - 1] == '"';
    NoNewlineKept(line);
    NotPrefixAt(line, "#", 0);
    NotPrefixAt(line, "msgid ", 0);
    NotPrefixAt(line, "msgstr ", 0);
    NotPrefixAt(line, "msgctxt ", 0);
    assert line == "\"" + (x + "\"");
    PrefixOf("\"", x + "\"");
    QuotedTrimmed(x);
  }

  lemma ClassifyMsgid(x: string)
    ensures Classify("msgid \"" + x + "\"") == MsgidLine(x)
  {
    var q := "\"" + x + "\"";
    var line := "msgid " + q;
    assert line == "msgid \"" + x + "\"";
    assert line[|line| - 1] == '"';
    NoNewlineKept(line);
    NotPrefixAt(line, "#", 0);
    PrefixOf("msgid ", q);
    assert line[5..] == " " + q;
    QuotedTrimmed(x);
    StripSpaceThenTrimmed(q);
  }

  lemma ClassifyMsgstr(x: string)
    ensures Classify("msgstr \"" + x + "\"") == MsgstrLine(x)
  {
    var q := "\"" + x + "\"";
    var line := "msgstr " + q;
    assert line == "msgstr \"" + x + "\"";
    assert line[|line| - 1] == '"';
    NoNewlineKept(line);
    NotPrefixAt(line, "#", 0);
    NotPrefixAt(line, "msgid ", 5);
    PrefixOf("msgstr ", q);
    assert line[6..] == " " + q;
    QuotedTrimmed(x);
    StripSpaceThenTrimmed(q);
  }

  /** A string starts with itself followed by anything. */
  lemma PrefixOf(p: string, t: string)
    ensures StartsWith(p + t, p)
  {
    assert (p + t)[..|p|] == p;
  }

  /** One differing character rules a prefix out. */
  lemma NotPrefixAt(s: string, p: string, k: nat)
    requires k < |s| && k < |p| && s[k] != p[k]
    ensures !StartsWith(s, p)
  {
    assert |p| <= |s| ==> s[..|p|][k] == s[k];
  }

  /** A quoted line continues the msgid or the msgstr, whichever came
      last, and does nothing before either. */
  lemma ContinuationLine(st: Po, x: string)
    ensures Step(st, "\"" + x + "\"") ==
      if st.mode == Some(Id) then st.(msgid := st.msgid + [x])
      else if st.mode == Some(Str) then st.(msgstr := st.msgstr + [x])
      else st
  {
    ClassifyQuoted(x);
  }

  /** The two lines a minimal writer emits for one entry. */
  function RenderEntry(e: (string, string)): seq<string> {
    ["msgid \"" + e.0 + "\"", "msgstr \"" + e.1 + "\""]
  }

  function Render(es: seq<(string, string)>): seq<string> {
    if |es| == 0 then [] else RenderEntry(es[0]) + Render(es[1..])
  }

  /** A msgid line flushes the pending entry and starts a new one. */
  lemma StepMsgid(st: Po, x: string)
    ensures Step(st, "msgid \"" + x + "\"") == Po(Flush(st), [x], [], Some(Id))
  {
    ClassifyMsgid(x);
  }

  /** A msgstr line adds to the pending translation. */
  lemma StepMsgstr(st: Po, x: string)
    ensures Step(st, "msgstr \"" + x + "\"") == st.(msgstr := st.msgstr + [x], mode := Some(Str))
  {
    ClassifyMsgstr(x);
  }

  lemma RunRenderEntry(st: Po, e: (string, string))
    ensures Run(st, RenderEntry(e)) == Po(Flush(st), [e.0], [e.1], Some(Str))
  {
    var l1, l2 := "msgid \"" + e.0 + "\"", "msgstr \"" + e.1 + "\"";
    StepMsgid(st, e.0);
    var st1 := Po(Flush(st), [e.0], [], Some(Id));
    StepMsgstr(st1, e.1);
    var st2 := Po(Flush(st), [e.0], [e.1], Some(Str));
    assert [l1, l2][1..] == [l2] && [l2][1..] == [];
    assert Run(st, [l1, l2]) == Run(st1, [l2]);
    assert Run(st1, [l2]) == Run(st2, []) == st2;
  }

  lemma {:induction false} RenderRoundTripFrom(st: Po, es: seq<(string, string)>)
    ensures Flush(Run(st, Render(es))) == Flush(st) + es
    decreases |es|
  {
    if |es| > 0 {
      RunAppend(st, RenderEntry(es[0]), Render(es[1..]));
      RunRenderEntry(st, es[0]);
      var st1 := Po(Flush(st), [es[0].0], [es[0].1], Some(Str));
      RenderRoundTripFrom(st1, es[1..]);
      assert Concat([es[0].0]) == es[0].0 && Concat([es[0].1]) == es[0].1;
      assert Flush(st1) == Flush(st) + [es[0]];
      assert es == [es[0]] + es[1..];
    }
  }

  /** `parse_po` reads back every list of entries written as one msgid
      line and one msgstr line each, in order and with nothing lost. */
  lemma ParseRendered(es: seq<(string, string)>)
    ensures ParsePoResult(Render(es)) == es
  {
    RenderRoundTripFrom(Start, es);
  }

  // ---------------------------------------------------------------------
  // write_mo

  /** Entries ordered by msgid. */
  predicate KeyLe(a: (string, string), b: (string, string)) {
    LexLe(a.0, b.0)
  }

  lemma KeyLeIsTotalPreorder()
    ensures TotalPreorder(KeyLe)
  {
    forall a: (string, string), b: (string, string) ensures KeyLe(a, b) || KeyLe(b, a) {
      LexLeTotal(a.0, b.0);
    }
    forall a: (string, string), b: (string, string), c: (string, string) | KeyLe(a, b) && KeyLe(b, c)
      ensures KeyLe(a, c)
    {
      LexLeTrans(a.0, b.0, c.0);
    }
  }

  /** `sorted(entries, key=lambda kv: kv[0])`: stable, by msgid. */
  function SortEntries(entries: seq<(string, string)>): (r: seq<(string, string)>)
    ensures |r| == |entries| && multiset(r) == multiset(entries)
    ensures SortedBy(r, KeyLe)
  {
    KeyLeIsTotalPreorder();
    SortBySorted(entries, KeyLe);
    SortBy(entries, KeyLe)
  }

  /** The entries with msgid `id`, in order. */
  function WithMsgid(es: seq<(string, string)>, id: string): seq<(string, string)> {
    if |es| == 0 then [] else (if es[0].0 == id then [es[0]] else []) + WithMsgid(es[1..], id)
  }

  /** Two entries rank level by msgid exactly when their msgids are equal. */
  lemma LevelIsSameMsgid(a: (string, string), b: (string, string))
    ensures KeyLe(a, b) && KeyLe(b, a) <==> a.0 == b.0
  {
    LexLeTotal(a.0, a.0);
    if KeyLe(a, b) && KeyLe(b, a) {
      LexLeAntisym(a.0, b.0);
    }
  }

  lemma {:induction false} LevelIsWithMsgid(es: seq<(string, string)>, p: (string, string))
    ensures Level(es, p, KeyLe) == WithMsgid(es, p.0)
  {
    if |es| > 0 {
      LevelIsSameMsgid(es[0], p);
      LevelIsWithMsgid(es[1..], p);
    }
  }

  /** `sorted` is stable: the entries sharing a msgid keep their order, so
      of duplicate msgids the table lists them as the file did. */
  lemma SortEntriesStable(entries: seq<(string, string)>, id: string)
    ensures WithMsgid(SortEntries(entries), id) == WithMsgid(entries, id)
  {
    var p := (id, "");
    KeyLeIsTotalPreorder();
    SortByStable(entries, p, KeyLe);
    LevelIsWithMsgid(entries, p);
    LevelIsWithMsgid(SortBy(entries, KeyLe), p);
  }

  /** The (length, offset) pairs of strings laid out one after another
      from `start`, each followed by a NUL byte. */
  function Table(strs: seq<seq<int>>, start: int): (t: seq<(int, int)>)
    ensures |t| == |strs|
    decreases |strs|
  {
    if |strs| == 0 then [] else [(|strs[0]|, start)] + Table(strs[1..], start + |strs[0]| + 1)
  }

  /** The offset just after the last string. */
  function TableEnd(strs: seq<seq<int>>, start: int): int
    decreases |strs|
  {
    if |strs| == 0 then start else TableEnd(strs[1..], start + |strs[0]| + 1)
  }

  /** The strings, each followed by a NUL byte. */
  function Blob(strs: seq<seq<int>>): seq<int> {
    if |strs| == 0 then [] else strs[0] + [0] + Blob(strs[1..])
  }

  /** The file's parts in the order they are written: the seven header
      words, the two tables of (length, offset) pairs and the string
      bytes. */
  datatype MoImage = MoImage(header: seq<int>, origTable: seq<(int, int)>, transTable: seq<(int, int)>, strings: seq<int>)

  const Magic: int := 0x950412de

  function Ids(sorted: seq<(string, string)>): (ids: seq<seq<int>>)
    ensures |ids| == |sorted| && forall k :: 0 <= k < |sorted| ==> ids[k] == Utf8(sorted[k].0)
  {
    seq(|sorted|, k requires 0 <= k < |sorted| => Utf8(sorted[k].0))
  }

  function Strs(sorted: seq<(string, string)>): (strs: seq<seq<int>>)
    ensures |strs| == |sorted| && forall k :: 0 <= k < |sorted| ==> strs[k] == Utf8(sorted[k].1)
  {
    seq(|sorted|, k requires 0 <= k < |sorted| => Utf8(sorted[k].1))
  }

  /** The image of `n` original strings `ids` and their translations
      `strs`, laid out in that order after the header and the tables. */
  function Image(ids: seq<seq<int>>, strs: seq<seq<int>>): MoImage {
    var n := |ids|;
    var base := 28 + 16 * n;
    MoImage([Magic, 0, n, 28, 28 + 8 * n, 0, 0],
            Table(ids, base), Table(strs, TableEnd(ids, base)),
            Blob(ids) + Blob(strs))
  }

  /** The image laid out for entries already in their final order. */
  function Layout(sorted: seq<(string, string)>): MoImage {
    Image(Ids(sorted), Strs(sorted))
  }

  /** One table of `write_mo`: a running offset advanced past each string
      and its NUL byte. */
  method BuildTable(strs: seq<seq<int>>, start: int) returns (table: seq<(int, int)>, off: int)
    ensures table == Table(strs, start) && off == TableEnd(strs, start)
  {
    table := [];
    off := start;
    for i := 0 to |strs|
      invariant Table(strs, start) == table + Table(strs[i..], off)
      invariant TableEnd(strs, start) == TableEnd(strs[i..], off)
    {
      assert strs[i..][0] == strs[i] && strs[i..][1..] == strs[i + 1..];
      table := table + [(|strs[i]|, off)];
      off := off + |strs[i]| + 1;
    }
    assert strs[|strs|..] == [];
  }

  /** `write_mo`: the entries sorted by msgid, the header, the two tables
      and the strings. */
  method WriteMo(entries: seq<(string, string)>) returns (image: MoImage)
    ensures image == Layout(SortEntries(entries))
  {
    var sorted := SortEntries(entries);
    var ids := Ids(sorted);
    var strs := Strs(sorted);
    var keystart := 7 * 4;
    var origTblOffset := keystart;
    var transTblOffset := origTblOffset + |ids| * 8;
    var origStrOffset := transTblOffset + |strs| * 8;
    var origTable, off := BuildTable(ids, origStrOffset);
    var transTable, _ := BuildTable(strs, off);
    image := MoImage([Magic, 0, |ids|, origTblOffset, transTblOffset, 0, 0], origTable, transTable,
                     Blob(ids) + Blob(strs));
  }

  /** The last string ends one NUL byte before the end offset. */
  lemma {:induction false} TableEndAfterLast(strs: seq<seq<int>>, start: int)
    requires |strs| > 0
    ensures TableEnd(strs, start) == Table(strs, start)[|strs| - 1].1 + |strs[|strs| - 1]| + 1
    decreases |strs|
  {
    if |strs| > 1 {
      TableEndAfterLast(strs[1..], start + |strs[0]| + 1);
    }
  }

  lemma {:induction false} TableEndIsLength(strs: seq<seq<int>>, start: int)
    ensures TableEnd(strs, start) == start + |Blob(strs)|
    decreases |strs|
  {
    if |strs| > 0 {
      TableEndIsLength(strs[1..], start + |strs[0]| + 1);
    }
  }

  /** Each offset is the previous offset plus its length and the NUL. */
  lemma {:induction false} TableConsecutive(strs: seq<seq<int>>, start: int, k: nat)
    requires k + 1 < |strs|
    ensures Table(strs, start)[k + 1].1 == Table(strs, start)[k].1 + Table(strs, start)[k].0 + 1
    decreases k
  {
    if k > 0 {
      TableConsecutive(strs[1..], start + |strs[0]| + 1, k - 1);
    }
  }

  /** Laying out two lists one after the other is laying out their
      concatenation. */
  lemma {:induction false} TableAppend(a: seq<seq<int>>, b: seq<seq<int>>, start: int)
    ensures Table(a + b, start) == Table(a, start) + Table(b, TableEnd(a, start))
    decreases |a|
  {
    if |a| > 0 {
      assert (a + b)[0] == a[0] && (a + b)[1..] == a[1..] + b;
      TableAppend(a[1..], b, start + |a[0]| + 1);
    } else {
      assert a + b == b;
    }
  }

  lemma {:induction false} BlobAppend(a: seq<seq<int>>, b: seq<seq<int>>)
    ensures Blob(a + b) == Blob(a) + Blob(b)
    decreases |a|
  {
    if |a| > 0 {
      assert (a + b)[0] == a[0] && (a + b)[1..] == a[1..] + b;
      BlobAppend(a[1..], b);
    } else {
      assert a + b == b;
    }
  }

  /** The k-th entry's offset is the start plus the bytes of the strings
      before it. */
  lemma TableOffset(strs: seq<seq<int>>, start: int, k: nat)
    requires k < |strs|
    ensures Table(strs, start)[k] == (|strs[k]|, start + |Blob(strs[..k])|)
  {
    assert strs == strs[..k] + strs[k..];
    TableAppend(strs[..k], strs[k..], start);
    TableEndIsLength(strs[..k], start);
    assert strs[k..][0] == strs[k];
  }

  /** A (length, offset) pair locates `str` in `bytes`, whose first byte
      sits at offset `base` of the file: the length is right, and the
      string followed by a NUL byte is found at that offset. */
  predicate Locates(bytes: seq<int>, base: int, entry: (int, int), str: seq<int>) {
    entry.0 == |str| && base <= entry.1 && entry.1 - base + |str| < |bytes| &&
    bytes[entry.1 - base..entry.1 - base + |str|] == str && bytes[entry.1 - base + |str|] == 0
  }

  lemma LocatesBeforeMore(x: seq<int>, y: seq<int>, base: int, entry: (int, int), str: seq<int>)
    requires Locates(x, base, entry, str)
    ensures Locates(x + y, base, entry, str)
  {
    var at := entry.1 - base;
    assert (x + y)[at..at + |str|] == x[at..at + |str|];
  }

  lemma LocatesAfterMore(x: seq<int>, y: seq<int>, base: int, entry: (int, int), str: seq<int>)
    requires Locates(y, base + |x|, entry, str)
    ensures Locates(x + y, base, entry, str)
  {
    var at := entry.1 - base - |x|;
    assert (x + y)[at + |x|..at + |x| + |str|] == y[at..at + |str|];
  }

  /** The bytes laid out for a list are those of the strings before the
      k-th, the k-th with its NUL byte, and those after it. */
  lemma BlobSplit(strs: seq<seq<int>>, k: nat)
    requires k < |strs|
    ensures Blob(strs) == Blob(strs[..k]) + (strs[k] + [0]) + Blob(strs[k + 1..])
  {
    var rest := strs[k..];
    assert strs == strs[..k] + rest;
    BlobAppend(strs[..k], rest);
    assert rest[0] == strs[k] && rest[1..] == strs[k + 1..];
  }

  /** A string placed after `pre` and followed by a NUL byte is located
      by its length and the offset just past `pre`. */
  lemma LocatesInMiddle(pre: seq<int>, str: seq<int>, post: seq<int>, base: int)
    ensures Locates(pre + (str + [0]) + post, base, (|str|, base + |pre|), str)
  {
    var bytes := pre + (str + [0]) + post;
    assert bytes[|pre|..|pre| + |str|] == str;
    assert bytes[|pre| + |str|] == 0;
  }

  /** Every table entry locates its string in the bytes laid out from
      `start`. */
  lemma TableLocates(strs: seq<seq<int>>, start: int, k: nat)
    requires k < |strs|
    ensures Locates(Blob(strs), start, Table(strs, start)[k], strs[k])
  {
    TableOffset(strs, start, k);
    BlobSplit(strs, k);
    LocatesInMiddle(Blob(strs[..k]), strs[k], Blob(strs[k + 1..]), start);
  }

  /** The header holds the magic number, revision 0, the number of
      strings, the table offsets 28 and 28 + 8n and an empty hash table;
      header and tables take exactly 28 + 16n bytes, where the original
      strings start, and the translations start right after the last
      original's NUL byte. */
  lemma ImageHeader(ids: seq<seq<int>>, strs: seq<seq<int>>)
    requires |ids| == |strs|
    ensures var m := Image(ids, strs);
      var n := |ids|;
      m.header == [Magic, 0, n, 28, 28 + 8 * n, 0, 0] &&
      |m.origTable| == n && |m.transTable| == n &&
      4 * |m.header| + 8 * |m.origTable| + 8 * |m.transTable| == 28 + 16 * n &&
      (n > 0 ==> m.origTable[0].1 == 28 + 16 * n) &&
      (n > 0 ==> m.transTable[0].1 == m.origTable[n - 1].1 + m.origTable[n - 1].0 + 1)
  {
    var n := |ids|;
    if n > 0 {
      TableEndAfterLast(ids, 28 + 16 * n);
      TableOffset(ids, 28 + 16 * n, n - 1);
      TableOffset(strs, TableEnd(ids, 28 + 16 * n), 0);
    }
  }

  /** Within each table, every string starts right after the previous
      one's NUL byte. */
  lemma ImageConsecutive(ids: seq<seq<int>>, strs: seq<seq<int>>, k: nat)
    requires k + 1 < |ids| == |strs|
    ensures var m := Image(ids, strs);
      m.origTable[k + 1].1 == m.origTable[k].1 + m.origTable[k].0 + 1 &&
      m.transTable[k + 1].1 == m.transTable[k].1 + m.transTable[k].0 + 1
  {
    var base := 28 + 16 * |ids|;
    TableConsecutive(ids, base, k);
    TableConsecutive(strs, TableEnd(ids, base), k);
  }

  /** The k-th original string is found through the first table, and the
      k-th translation through the second: its bytes, with their length
      and followed by a NUL byte, at the offset (counted from the start of
      the file) the table gives. `Layout(es)` is `Image(Ids(es),
      Strs(es))`, so in a written catalogue these are the k-th msgid and
      msgstr in UTF-8. */
  lemma ImageLocates(ids: seq<seq<int>>, strs: seq<seq<int>>, k: nat)
    requires k < |ids| == |strs|
    ensures var m := Image(ids, strs);
      Locates(m.strings, 28 + 16 * |ids|, m.origTable[k], ids[k]) &&
      Locates(m.strings, 28 + 16 * |ids|, m.transTable[k], strs[k])
  {
    var base := 28 + 16 * |ids|;
    var start := TableEnd(ids, base);
    TableLocates(ids, base, k);
    LocatesBeforeMore(Blob(ids), Blob(strs), base, Table(ids, base)[k], ids[k]);
    TableEndIsLength(ids, base);
    TableLocates(strs, start, k);
    LocatesAfterMore(Blob(ids), Blob(strs), base, Table(strs, start)[k], strs[k]);
  }

}
