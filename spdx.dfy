/** The pre-commit hook of `scripts/spdx_header_hook.py`: Python and JavaScript files
    without an SPDX identifier in their first five lines get a header, and the hook
    exits with 1 when it changed a file so that the commit is re-staged. A file system
    is a map from path to directory or file text. */
module SpdxHook {
  import opened PyStr

  const SPDX_TEXT := "SPDX-License-Identifier: GPL-3.0-only"
  /** The module docstring put at the top of a Python file that has none. */
  const PY_TEMPLATE := "\"\"\"" + SPDX_TEXT + "\n\n<module description>\n\"\"\"\n"
  /** The comment put above an existing Python docstring. */
  const PY_COMMENT := "# " + SPDX_TEXT + "\n"
  const JS_LINE := "/* " + SPDX_TEXT + " */\n"
  const SHEBANG := "#!/"
  /** How many leading lines are searched for the identifier. */
  const INSPECT_LINES := 5

  // ---------------------------------------------------------------------
  // reading

  /** `read_text`: in text mode `\r\n` and a lone `\r` are read as `\n`. */
  function ReadText(raw: string): (t: string)
    ensures '\r' !in t
    decreases |raw|
  {
    if raw == [] then []
    else if raw[0] == '\r' then
      "\n" + ReadText(if |raw| > 1 && raw[1] == '\n' then raw[2..] else raw[1..])
    else [raw[0]] + ReadText(raw[1..])
  }

  /** Text without a carriage return reads back as itself, so a written header is read
      back as written. */
  lemma {:induction false} ReadTextNoCr(t: string)
    requires '\r' !in t
    ensures ReadText(t) == t
    decreases |t|
  {
    if t != [] {
      assert t[0] in t;
      assert forall k :: 0 <= k < |t[1..]| ==> t[1..][k] == t[k + 1];
      ReadTextNoCr(t[1..]);
      assert [t[0]] + t[1..] == t;
    }
  }

  // ---------------------------------------------------------------------
  // has_spdx

  /** `has_spdx`: the identifier occurs in one of the first five lines. */
  predicate HasSpdx(lines: seq<string>) {
    HasSpdxFrom(lines, 0)
  }

  /** The scan of `has_spdx` from line `i` on. */
  predicate HasSpdxFrom(lines: seq<string>, i: nat)
    decreases INSPECT_LINES - i
  {
    i < |lines| && i < INSPECT_LINES && (Contains(lines[i], SPDX_TEXT) || HasSpdxFrom(lines, i + 1))
  }

  lemma {:induction false} HasSpdxFromSpec(lines: seq<string>, i: nat)
    ensures HasSpdxFrom(lines, i) <==>
      exists j :: i <= j < |lines| && j < INSPECT_LINES && Contains(lines[j], SPDX_TEXT)
    decreases INSPECT_LINES - i
  {
    if i < |lines| && i < INSPECT_LINES {
      HasSpdxFromSpec(lines, i + 1);
      if !Contains(lines[i], SPDX_TEXT) {
        forall j | i <= j < |lines| && j < INSPECT_LINES && Contains(lines[j], SPDX_TEXT)
          ensures i + 1 <= j
        {
        }
      }
    }
  }

  /** The identifier counts exactly when one of the first five lines holds it. */
  lemma HasSpdxSpec(lines: seq<string>)
    ensures HasSpdx(lines) <==>
      exists j :: 0 <= j < |lines| && j < INSPECT_LINES && Contains(lines[j], SPDX_TEXT)
  {
    HasSpdxFromSpec(lines, 0);
  }

  /** One of the first five lines holding the identifier is enough. */
  lemma HasSpdxAt(lines: seq<string>, i: nat)
    requires i < |lines| && i < INSPECT_LINES && Contains(lines[i], SPDX_TEXT)
    ensures HasSpdx(lines)
  {
    HasSpdxSpec(lines);
  }

  /** Only the first five lines are searched: what follows them does not matter. */
  lemma {:induction false} HasSpdxLooksAtFive(lines: seq<string>, more: seq<string>)
    requires |lines| >= INSPECT_LINES
    ensures HasSpdx(lines + more) <==> HasSpdx(lines)
  {
    HasSpdxSpec(lines);
    HasSpdxSpec(lines + more);
    if HasSpdx(lines + more) {
      var i :| 0 <= i < |lines + more| && i < INSPECT_LINES && Contains((lines + more)[i], SPDX_TEXT);
      assert (lines + more)[i] == lines[i];
    }
    if HasSpdx(lines) {
      var i :| 0 <= i < |lines| && i < INSPECT_LINES && Contains(lines[i], SPDX_TEXT);
      assert (lines + more)[i] == lines[i];
    }
  }

  // ---------------------------------------------------------------------
  // process_python

  /** `line.strip() == ""` */
  predicate Blank(line: string) { Strip(line) == [] }

  /** `line.lstrip()` starts with three single or three double quotes. */
  predicate OpensDocstring(line: string) {
    StartsWith(LStrip(line), "'''") || StartsWith(LStrip(line), "\"\"\"")
  }

  /** The first line that is not blank, from `idx` on, opens a triple-quoted string. */
  predicate DocstringFollows(original: seq<string>, idx: nat)
    decreases |original| - idx
  {
    idx < |original| &&
    if Blank(original[idx]) then DocstringFollows(original, idx + 1) else OpensDocstring(original[idx])
  }

  /** Where the header goes: after a `#!/` first line, else at the top. */
  function HeaderAt(original: seq<string>): (idx: nat)
    ensures idx <= |original| && idx <= 1
    ensures idx == 1 <==> original != [] && StartsWith(original[0], SHEBANG)
  {
    if original != [] && StartsWith(original[0], SHEBANG) then 1 else 0
  }

  /** The header chosen for a Python file. */
  function PythonHeader(original: seq<string>): (h: string)
    ensures h == PY_COMMENT || h == PY_TEMPLATE
    ensures h == PY_COMMENT <==> DocstringFollows(original, HeaderAt(original))
  {
    if DocstringFollows(original, HeaderAt(original)) then PY_COMMENT else PY_TEMPLATE
  }

  /** The lines written: the shebang line if any, the header, then every original line
      from the header position on; nothing is dropped or reordered. */
  function PythonLines(original: seq<string>): (newLines: seq<string>)
    ensures |newLines| == |original| + 1
    ensures newLines[..HeaderAt(original)] == original[..HeaderAt(original)]
    ensures newLines[HeaderAt(original)] == PythonHeader(original)
    ensures newLines[HeaderAt(original) + 1..] == original[HeaderAt(original)..]
  {
    var idx := HeaderAt(original);
    original[..idx] + [PythonHeader(original)] + original[idx..]
  }

  /** A blank line cannot open a docstring. */
  lemma BlankNotDocstring(line: string)
    requires Blank(line)
    ensures !OpensDocstring(line)
  {
    StripAllSpace(line);
    assert LStrip(line) == [];
  }

  /** The scan skips the blank lines and inspects the first other one: a docstring follows
      exactly when some line opens one and only blank lines come before it. */
  lemma {:induction false} DocstringFollowsSpec(original: seq<string>, idx: nat)
    ensures DocstringFollows(original, idx) <==>
      exists j :: idx <= j < |original| && OpensDocstring(original[j]) &&
        forall k :: idx <= k < j ==> Blank(original[k])
    decreases |original| - idx
  {
    if idx < |original| {
      DocstringFollowsSpec(original, idx + 1);
      if Blank(original[idx]) {
        BlankNotDocstring(original[idx]);
        if DocstringFollows(original, idx) {
          var j :| idx + 1 <= j < |original| && OpensDocstring(original[j]) &&
            forall k :: idx + 1 <= k < j ==> Blank(original[k]);
          assert forall k :: idx <= k < j ==> Blank(original[k]);
        } else {
          forall j | idx <= j < |original| && OpensDocstring(original[j])
            ensures !forall k :: idx <= k < j ==> Blank(original[k])
          {
            assert j > idx;
          }
        }
      } else if !OpensDocstring(original[idx]) {
        forall j | idx <= j < |original| && OpensDocstring(original[j])
          ensures !forall k :: idx <= k < j ==> Blank(original[k])
        {
          assert j != idx;
        }
      }
    }
  }

  /** The scan of `process_python` for the lines to write. */
  method NewPythonLines(original: seq<string>) returns (newLines: seq<string>)
    ensures newLines == PythonLines(original)
  {
    newLines := [];
    var idx := 0;
    if |original| > 0 && StartsWith(original[0], SHEBANG) {
      newLines := newLines + [original[0]];
      idx := 1;
    }
    assert idx == HeaderAt(original) && newLines == original[..idx];
    var j := idx;
    while j < |original| && Strip(original[j]) == []
      invariant idx <= j <= |original|
      invariant DocstringFollows(original, j) == DocstringFollows(original, idx)
    {
      j := j + 1;
    }
    if j < |original| && OpensDocstring(original[j]) {
      newLines := newLines + [PY_COMMENT];
    } else {
      newLines := newLines + [PY_TEMPLATE];
    }
    assert newLines == original[..idx] + [PythonHeader(original)];
    newLines := newLines + original[idx..];
  }

  /** The text `process_python` writes, or `None` when it leaves the file alone. */
  function ProcessPython(text: string): (r: Option<string>)
    ensures r.None? <==> HasSpdx(SplitLinesKeepEnds(text))
  {
    var original := SplitLinesKeepEnds(text);
    if HasSpdx(original) then None else Some(Join(PythonLines(original)))
  }

  /** `process_js`: the line comment above all the original lines. */
  function ProcessJs(text: string): (r: Option<string>)
    ensures r.None? <==> HasSpdx(SplitLinesKeepEnds(text))
  {
    var original := SplitLinesKeepEnds(text);
    if HasSpdx(original) then None else Some(Join([JS_LINE] + original))
  }

  // ---------------------------------------------------------------------
  // what is written

  /** Length of the shebang line the header follows, 0 when there is none. */
  function HeaderOffset(text: string): (p: nat)
    ensures p <= |text|
  {
    if text != [] && StartsWith(SplitLinesKeepEnds(text)[0], SHEBANG) then LineLen(text) else 0
  }

  /** The JavaScript header is put in front of the text, which is otherwise unchanged. */
  lemma JsPrepends(text: string)
    requires !HasSpdx(SplitLinesKeepEnds(text))
    ensures ProcessJs(text) == Some(JS_LINE + text)
  {
    JoinSplitLinesKeepEnds(text);
  }

  /** The Python header is inserted at the end of the shebang line (or at the top), and
      the original text surrounds it unchanged. */
  lemma PythonInserts(text: string)
    requires !HasSpdx(SplitLinesKeepEnds(text))
    ensures var p := HeaderOffset(text);
      ProcessPython(text) == Some(text[..p] + PythonHeader(SplitLinesKeepEnds(text)) + text[p..])
  {
    var original := SplitLinesKeepEnds(text);
    var idx := HeaderAt(original);
    var h := PythonHeader(original);
    var p := HeaderOffset(text);
    JoinAppend(original[..idx] + [h], original[idx..]);
    JoinAppend(original[..idx], [h]);
    assert Join([h]) == h;
    if idx == 1 {
      assert Join(original[..1]) == text[..p];
      JoinSplitLinesKeepEnds(text[LineLen(text)..]);
      assert original[1..] == SplitLinesKeepEnds(text[LineLen(text)..]);
    } else {
      JoinSplitLinesKeepEnds(text);
      assert original[..0] == [] && original[0..] == original;
    }
    assert original[..idx] + [h] + original[idx..] == PythonLines(original);
  }

  // ---------------------------------------------------------------------
  // idempotence

  lemma SpdxBreakFree()
    ensures BreakFree(SPDX_TEXT)
  {
  }

  /** None of the headers holds a carriage return. */
  lemma HeadersNoCr()
    ensures '\r' !in PY_COMMENT && '\r' !in PY_TEMPLATE && '\r' !in JS_LINE
  {
    SpdxBreakFree();
    assert '\r' !in SPDX_TEXT by {
      forall k | 0 <= k < |SPDX_TEXT| ensures SPDX_TEXT[k] != '\r' { assert !IsLineBreak(SPDX_TEXT[k]); }
    }
  }

  /** When `pre + key` holds no line break, the first line of `pre + key + post` holds `key`. */
  lemma FirstLineContains(pre: string, key: string, post: string)
    requires key != [] && BreakFree(pre + key)
    ensures SplitLinesKeepEnds(pre + key + post) != []
    ensures Contains(SplitLinesKeepEnds(pre + key + post)[0], key)
  {
    var s := pre + key + post;
    var m := |pre + key|;
    forall k | 0 <= k < m ensures !IsLineBreak(s[k]) { assert s[k] == (pre + key)[k]; }
    NextBreakFrom(s, m);
    var line := s[..LineLen(s)];
    assert line[|pre|..|pre| + |key|] == key;
    assert InfixAt(line, key, |pre|);
    ContainsAt(line, key);
  }

  /** Without carriage returns, a text's first line, when it ends in a break, stays the
      first line whatever is put after it. */
  lemma FirstLineKept(text: string, y: string)
    requires text != [] && NextBreak(text, 0) < |text| && '\r' !in text
    ensures SplitLinesKeepEnds(text[..LineLen(text)] + y) == [text[..LineLen(text)]] + SplitLinesKeepEnds(y)
  {
    var i := NextBreak(text, 0);
    assert text[i] in text;
    var line := text[..LineLen(text)];
    assert LineLen(text) == i + 1;
    var s := line + y;
    forall k | 0 <= k < i ensures !IsLineBreak(s[k]) { assert s[k] == text[k]; }
    assert s[i] == text[i];
    NextBreakIs(s, 0, i);
    assert LineLen(s) == i + 1;
    assert s[..i + 1] == line && s[i + 1..] == y;
  }

  /** The first line of `before + (pre + key + tail) + rest` holds `key` when nothing
      before the end of `key` is a line break. */
  lemma FirstLineHolds(before: string, pre: string, key: string, tail: string, rest: string)
    requires key != [] && BreakFree(before + (pre + key))
    ensures SplitLinesKeepEnds(before + (pre + key + tail) + rest) != []
    ensures Contains(SplitLinesKeepEnds(before + (pre + key + tail) + rest)[0], key)
  {
    assert before + (pre + key) == (before + pre) + key;
    assert before + (pre + key + tail) + rest == (before + pre) + key + (tail + rest);
    FirstLineContains(before + pre, key, tail + rest);
  }

  /** The part of a header in front of the identifier, and the part after it. */
  function HeaderPre(h: string): string {
    if h == PY_COMMENT then "# " else if h == PY_TEMPLATE then "\"\"\"" else "/* "
  }

  function HeaderTail(h: string): string {
    if h == PY_COMMENT then "\n"
    else if h == PY_TEMPLATE then "\n\n<module description>\n\"\"\"\n"
    else " */\n"
  }

  /** Each header is the identifier framed by a break-free front part and a tail. */
  lemma HeaderSplit(h: string)
    requires h == PY_COMMENT || h == PY_TEMPLATE || h == JS_LINE
    ensures h == HeaderPre(h) + SPDX_TEXT + HeaderTail(h)
    ensures BreakFree(HeaderPre(h) + SPDX_TEXT)
  {
    SpdxBreakFree();
    assert BreakFree(HeaderPre(h));
    BreakFreeConcat(HeaderPre(h), SPDX_TEXT);
  }

  /** Text that is break-free up to and including a header's identifier has the
      identifier on its first line. */
  lemma HeadedFirstLine(before: string, h: string, rest: string)
    requires h == PY_COMMENT || h == PY_TEMPLATE || h == JS_LINE
    requires BreakFree(before)
    ensures SplitLinesKeepEnds(before + h + rest) != []
    ensures Contains(SplitLinesKeepEnds(before + h + rest)[0], SPDX_TEXT)
  {
    HeaderSplit(h);
    SpdxBreakFree();
    HeadedFirstLineOf(before, HeaderPre(h), HeaderTail(h), rest);
  }

  lemma HeadedFirstLineOf(before: string, pre: string, tail: string, rest: string)
    requires BreakFree(before) && BreakFree(pre + SPDX_TEXT) && SPDX_TEXT != []
    ensures SplitLinesKeepEnds(before + (pre + SPDX_TEXT + tail) + rest) != []
    ensures Contains(SplitLinesKeepEnds(before + (pre + SPDX_TEXT + tail) + rest)[0], SPDX_TEXT)
  {
    BreakFreeConcat(before, pre + SPDX_TEXT);
    FirstLineHolds(before, pre, SPDX_TEXT, tail, rest);
  }

  /** A JavaScript file the hook has changed has the identifier: the hook leaves it alone
      afterwards. */
  lemma JsIdempotent(raw: string)
    requires ProcessJs(ReadText(raw)).Some?
    ensures ProcessJs(ReadText(ProcessJs(ReadText(raw)).value)) == None
  {
    var t := ReadText(raw);
    JsPrepends(t);
    var out := JS_LINE + t;
    HeadersNoCr();
    ReadTextNoCr(out);
    assert [] + JS_LINE + t == out;
    HeadedFirstLine([], JS_LINE, t);
    HasSpdxAt(SplitLinesKeepEnds(out), 0);
  }

  /** A framed identifier at the top is on the first line. */
  lemma HeaderOnTop(pre: string, tail: string, rest: string)
    requires BreakFree(pre + SPDX_TEXT) && SPDX_TEXT != []
    ensures HasSpdx(SplitLinesKeepEnds((pre + SPDX_TEXT + tail) + rest))
  {
    assert (pre + SPDX_TEXT + tail) + rest == [] + (pre + SPDX_TEXT + tail) + rest;
    assert BreakFree([]);
    HeadedFirstLineOf([], pre, tail, rest);
    HasSpdxAt(SplitLinesKeepEnds((pre + SPDX_TEXT + tail) + rest), 0);
  }

  /** After a complete first line it is on the second line. */
  lemma HeaderOnSecond(t: string, pre: string, tail: string, rest: string)
    requires BreakFree(pre + SPDX_TEXT) && SPDX_TEXT != []
    requires t != [] && NextBreak(t, 0) < |t| && '\r' !in t
    ensures HasSpdx(SplitLinesKeepEnds(t[..LineLen(t)] + (pre + SPDX_TEXT + tail) + rest))
  {
    var line := t[..LineLen(t)];
    var h := pre + SPDX_TEXT + tail;
    assert line + h + rest == line + (h + rest);
    FirstLineKept(t, h + rest);
    assert h + rest == [] + h + rest;
    assert BreakFree([]);
    HeadedFirstLineOf([], pre, tail, rest);
    assert SplitLinesKeepEnds(line + h + rest)[1] == SplitLinesKeepEnds(h + rest)[0];
    HasSpdxAt(SplitLinesKeepEnds(line + h + rest), 1);
  }

  /** After an unterminated only line it joins that line, which then holds it. */
  lemma HeaderOnSameLine(t: string, pre: string, tail: string)
    requires BreakFree(pre + SPDX_TEXT) && SPDX_TEXT != []
    requires BreakFree(t)
    ensures HasSpdx(SplitLinesKeepEnds(t + (pre + SPDX_TEXT + tail)))
  {
    var h := pre + SPDX_TEXT + tail;
    assert t + h == t + h + [];
    HeadedFirstLineOf(t, pre, tail, []);
    HasSpdxAt(SplitLinesKeepEnds(t + h), 0);
  }

  /** Wherever a framed identifier is inserted, the first lines of the new text hold it. */
  lemma FramedOutputHasSpdx(t: string, pre: string, tail: string)
    requires '\r' !in t && BreakFree(pre + SPDX_TEXT) && SPDX_TEXT != []
    ensures var p := HeaderOffset(t);
      HasSpdx(SplitLinesKeepEnds(t[..p] + (pre + SPDX_TEXT + tail) + t[p..]))
  {
    var p := HeaderOffset(t);
    var h := pre + SPDX_TEXT + tail;
    if p == 0 {
      assert t[..p] + h + t[p..] == h + t;
      HeaderOnTop(pre, tail, t);
    } else if NextBreak(t, 0) < |t| {
      HeaderOnSecond(t, pre, tail, t[p..]);
    } else {
      assert t[..p] == t && t[p..] == [];
      assert t[..p] + h + t[p..] == t + h;
      HeaderOnSameLine(t, pre, tail);
    }
  }

  /** Where the Python header lands, the first lines of the new text hold the identifier. */
  lemma PythonOutputHasSpdx(t: string)
    requires '\r' !in t
    ensures var p := HeaderOffset(t);
      HasSpdx(SplitLinesKeepEnds(t[..p] + PythonHeader(SplitLinesKeepEnds(t)) + t[p..]))
  {
    var h := PythonHeader(SplitLinesKeepEnds(t));
    HeaderSplit(h);
    SpdxBreakFree();
    FramedOutputHasSpdx(t, HeaderPre(h), HeaderTail(h));
  }

  /** The same for Python: the header lands on the first or the second line. */
  lemma PythonIdempotent(raw: string)
    requires ProcessPython(ReadText(raw)).Some?
    ensures ProcessPython(ReadText(ProcessPython(ReadText(raw)).value)) == None
  {
    var t := ReadText(raw);
    PythonInserts(t);
    var p := HeaderOffset(t);
    var h := PythonHeader(SplitLinesKeepEnds(t));
    var out := t[..p] + h + t[p..];
    HeadersNoCr();
    assert '\r' !in out by {
      assert forall k :: 0 <= k < |t[..p]| ==> t[..p][k] in t;
      assert forall k :: 0 <= k < |t[p..]| ==> t[p..][k] in t;
    }
    ReadTextNoCr(out);
    PythonOutputHasSpdx(t);
  }

  // ---------------------------------------------------------------------
  // iter_targets and main

  /** `Path(path).name`: what follows the last `/`. */
  function NameOf(path: string): (name: string)
    ensures |name| <= |path| && name == path[|path| - |name|..]
    ensures forall k :: 0 <= k < |name| ==> name[k] != '/'
  {
    match LastIndexBefore(path, '/', |path|)
    case None => path
    case Some(i) => path[i + 1..]
  }

  /** `Path(path).suffix`: the name from its last `.` on, when that dot is neither the
      first nor the last character of the name; otherwise empty. */
  function Suffix(path: string): string {
    var name := NameOf(path);
    match LastIndexBefore(name, '.', |name|)
    case None => []
    case Some(i) => if 0 < i < |name| - 1 then name[i..] else []
  }

  /** A suffix is empty, or a tail of the path that starts with a dot and has at least
      one character after it. */
  lemma SuffixShape(path: string)
    ensures var ext := Suffix(path);
      ext == [] || (2 <= |ext| <= |path| && ext[0] == '.' && ext == path[|path| - |ext|..])
  {
  }

  /** The name of a path below a directory is what follows the directory. */
  lemma NameOfPath(dir: string, name: string)
    requires dir == [] || dir[|dir| - 1] == '/'
    requires '/' !in name
    ensures NameOf(dir + name) == name
  {
    var path := dir + name;
    forall k | |dir| <= k < |path| ensures path[k] != '/' {
      assert path[k] == name[k - |dir|];
    }
    if dir == [] {
      assert path == name;
    } else {
      LastIndexIs(path, '/', |dir| - 1, |path|);
      assert path[|dir|..] == name;
    }
  }

  /** The suffix starts at the name's last dot when that dot is inside the name. */
  lemma SuffixAt(path: string, i: nat)
    requires var name := NameOf(path);
      0 < i < |name| - 1 && name[i] == '.' && forall k :: i < k < |name| ==> name[k] != '.'
    ensures Suffix(path) == NameOf(path)[i..]
  {
    var name := NameOf(path);
    LastIndexIs(name, '.', i, |name|);
  }

  /** The last dot of `stem.ext` is the one before a dot-free extension. */
  lemma LastDotOf(stem: string, ext: string)
    requires '.' !in ext
    ensures LastIndexBefore(stem + ("." + ext), '.', |stem + ("." + ext)|) == Some(|stem|)
  {
    var name := stem + ("." + ext);
    forall k | |stem| < k < |name| ensures name[k] != '.' {
      assert name[k] == ext[k - |stem| - 1];
    }
    LastIndexIs(name, '.', |stem|, |name|);
  }

  /** A name with a non-empty stem and a dot-free extension has that extension as suffix. */
  lemma SuffixOfName(dir: string, stem: string, ext: string)
    requires dir == [] || dir[|dir| - 1] == '/'
    requires stem != [] && ext != [] && '/' !in stem && '/' !in ext && '.' !in ext
    ensures Suffix(dir + (stem + ("." + ext))) == "." + ext
  {
    var name := stem + ("." + ext);
    assert '/' !in name;
    NameOfPath(dir, name);
    SuffixOfNamed(dir + name, stem, ext);
  }

  lemma SuffixOfNamed(path: string, stem: string, ext: string)
    requires stem != [] && ext != [] && '.' !in ext
    requires NameOf(path) == stem + ("." + ext)
    ensures Suffix(path) == "." + ext
  {
    var name := stem + ("." + ext);
    LastDotOf(stem, ext);
    assert name[|stem|..] == "." + ext;
  }

  /** A hidden file such as `.py` has no suffix, so the hook does not touch it. */
  lemma HiddenNameHasNoSuffix(dir: string, ext: string)
    requires dir == [] || dir[|dir| - 1] == '/'
    requires '/' !in ext && '.' !in ext
    ensures Suffix(dir + ("." + ext)) == []
  {
    var name := "." + ext;
    assert '/' !in name;
    NameOfPath(dir, name);
    forall k | 0 < k < |name| ensures name[k] != '.' { assert name[k] == ext[k - 1]; }
    LastIndexIs(name, '.', 0, |name|);
  }

  /** What a path names: a directory or a file with its stored text. */
  datatype Entry = Dir | File(raw: string)

  datatype Kind = Python | JavaScript

  /** `iter_targets` for one path: missing paths, directories and other suffixes are
      skipped. */
  function TargetKind(entries: map<string, Entry>, path: string): (k: Option<Kind>)
    ensures k.Some? ==> path in entries && entries[path].File?
  {
    if path !in entries || entries[path].Dir? then None
    else if Suffix(path) == ".py" then Some(Python)
    else if Suffix(path) == ".js" then Some(JavaScript)
    else None
  }

  /** Only existing files are targets: Python files exactly by the suffix `.py` and
      JavaScript files exactly by `.js`. */
  lemma TargetKindSpec(entries: map<string, Entry>, path: string)
    ensures TargetKind(entries, path) == Some(Python) <==>
      path in entries && entries[path].File? && Suffix(path) == ".py"
    ensures TargetKind(entries, path) == Some(JavaScript) <==>
      path in entries && entries[path].File? && Suffix(path) == ".js"
    ensures TargetKind(entries, path) == None <==>
      path !in entries || entries[path].Dir? || (Suffix(path) != ".py" && Suffix(path) != ".js")
  {
  }

  /** The text the processor of `kind` writes for a file, `None` when it writes nothing. */
  function Processed(kind: Kind, raw: string): Option<string> {
    match kind
    case Python => ProcessPython(ReadText(raw))
    case JavaScript => ProcessJs(ReadText(raw))
  }

  /** A file a processor has written is left alone by it afterwards. */
  lemma ProcessedIdempotent(kind: Kind, raw: string)
    requires Processed(kind, raw).Some?
    ensures Processed(kind, Processed(kind, raw).value) == None
  {
    match kind {
      case Python => PythonIdempotent(raw);
      case JavaScript => JsIdempotent(raw);
    }
  }

  /** What a processor call or one argument of `main` leaves: the file system and
      whether a file was rewritten. */
  datatype StepResult = StepResult(files: map<string, Entry>, changed: bool)

  /** What a run of `main` leaves: the file system and how many files were rewritten. */
  datatype RunResult = RunResult(files: map<string, Entry>, count: nat)

  /** One processor call: the new file system and whether it returned True. */
  function Apply(entries: map<string, Entry>, path: string, kind: Kind): (r: StepResult)
    requires path in entries && entries[path].File?
    ensures r.changed <==> Processed(kind, entries[path].raw).Some?
    ensures r.files == if r.changed then entries[path := File(Processed(kind, entries[path].raw).value)] else entries
  {
    match Processed(kind, entries[path].raw)
    case None => StepResult(entries, false)
    case Some(out) => StepResult(entries[path := File(out)], true)
  }

  /** One argument of `main`. */
  function Step(entries: map<string, Entry>, path: string): (r: StepResult)
    ensures !r.changed ==> r.files == entries
  {
    match TargetKind(entries, path)
    case None => StepResult(entries, false)
    case Some(kind) => Apply(entries, path, kind)
  }

  /** A step writes at most the file it was given. */
  lemma StepFrame(entries: map<string, Entry>, path: string)
    ensures Step(entries, path).files.Keys == entries.Keys
    ensures forall q :: q in entries && q != path ==> Step(entries, path).files[q] == entries[q]
    ensures path in entries && entries[path].Dir? ==> Step(entries, path).files == entries
  {
  }

  /** `main` over the first `i` arguments after the program name: the file system then
      and how many files changed. */
  function Run(entries: map<string, Entry>, paths: seq<string>, i: nat): (r: RunResult)
    requires i <= |paths|
    ensures r.count <= i
  {
    if i == 0 then RunResult(entries, 0)
    else
      var before := Run(entries, paths, i - 1);
      var after := Step(before.files, paths[i - 1]);
      RunResult(after.files, if after.changed then before.count + 1 else before.count)
  }

  /** One more argument is one more step. */
  lemma RunNext(entries: map<string, Entry>, paths: seq<string>, i: nat)
    requires i < |paths|
    ensures var s := Step(Run(entries, paths, i).files, paths[i]);
      Run(entries, paths, i + 1).files == s.files &&
      Run(entries, paths, i + 1).count == if s.changed then Run(entries, paths, i).count + 1 else Run(entries, paths, i).count
  {
  }

  /** `main` over all the arguments. */
  function RunAll(entries: map<string, Entry>, paths: seq<string>): (r: RunResult)
    ensures r.count <= |paths|
  {
    Run(entries, paths, |paths|)
  }

  /** `argv[1:]` */
  function Args(argv: seq<string>): (paths: seq<string>)
    ensures argv != [] ==> argv == argv[..1] + paths
    ensures argv == [] ==> paths == []
  {
    if argv == [] then [] else argv[1..]
  }

  /** `1 if changed else 0` */
  function ExitCode(changed: nat): (code: int)
    ensures code == 0 || code == 1
    ensures code == 1 <==> changed > 0
  {
    if changed > 0 then 1 else 0
  }

  /** The path whose processing would change nothing. */
  predicate Settled(entries: map<string, Entry>, path: string) {
    !Step(entries, path).changed
  }

  /** After its processing a path is settled. */
  lemma StepSettles(entries: map<string, Entry>, path: string)
    ensures Settled(Step(entries, path).files, path)
  {
    var after := Step(entries, path);
    if after.changed {
      var kind := TargetKind(entries, path).value;
      ProcessedIdempotent(kind, entries[path].raw);
      assert TargetKind(after.files, path) == Some(kind);
    }
  }

  /** Processing one path does not unsettle another. */
  lemma StepKeepsSettled(entries: map<string, Entry>, path: string, other: string)
    requires Settled(entries, other)
    ensures Settled(Step(entries, path).files, other)
  {
    var after := Step(entries, path).files;
    if other != path {
      StepFrame(entries, path);
      assert TargetKind(after, other) == TargetKind(entries, other);
    }
  }

  /** `main` over the first `i` arguments with any per-path step in place of `Step`. */
  function RunWith(step: (map<string, Entry>, string) -> StepResult, entries: map<string, Entry>,
                   paths: seq<string>, i: nat): (r: RunResult)
    requires i <= |paths|
    ensures r.count <= i
  {
    if i == 0 then RunResult(entries, 0)
    else
      var before := RunWith(step, entries, paths, i - 1);
      var after := step(before.files, paths[i - 1]);
      RunResult(after.files, if after.changed then before.count + 1 else before.count)
  }

  /** `Run` is `RunWith` of `Step`. */
  lemma {:induction false} RunIsRunWith(entries: map<string, Entry>, paths: seq<string>, i: nat)
    requires i <= |paths|
    ensures Run(entries, paths, i) == RunWith(Step, entries, paths, i)
  {
    if i > 0 {
      RunIsRunWith(entries, paths, i - 1);
    }
  }

  /** For any step that settles the path it processes and unsettles no other, the `k`-th
      path of a run is settled afterwards. */
  lemma {:induction false} RunWithSettlesAt(step: (map<string, Entry>, string) -> StepResult,
                                            settled: (map<string, Entry>, string) -> bool,
                                            entries: map<string, Entry>, paths: seq<string>, i: nat, k: nat)
    requires k < i <= |paths|
    requires forall e, p :: settled(step(e, p).files, p)
    requires forall e, p, q :: settled(e, q) ==> settled(step(e, p).files, q)
    ensures settled(RunWith(step, entries, paths, i).files, paths[k])
  {
    var before := RunWith(step, entries, paths, i - 1).files;
    if k < i - 1 {
      RunWithSettlesAt(step, settled, entries, paths, i - 1, k);
      assert settled(before, paths[k]);
    }
  }

  /** After a run, the `k`-th path it was given is settled. */
  lemma RunSettlesAt(entries: map<string, Entry>, paths: seq<string>, i: nat, k: nat)
    requires k < i <= |paths|
    ensures Settled(Run(entries, paths, i).files, paths[k])
  {
    forall e, p ensures Settled(Step(e, p).files, p) {
      StepSettles(e, p);
    }
    forall e, p, q | Settled(e, q) ensures Settled(Step(e, p).files, q) {
      StepKeepsSettled(e, p, q);
    }
    RunIsRunWith(entries, paths, i);
    RunWithSettlesAt(Step, Settled, entries, paths, i, k);
  }

  /** After a run, every path it was given is settled. */
  lemma RunSettles(entries: map<string, Entry>, paths: seq<string>, i: nat)
    requires i <= |paths|
    ensures forall k :: 0 <= k < i ==> Settled(Run(entries, paths, i).files, paths[k])
  {
    forall k | 0 <= k < i ensures Settled(Run(entries, paths, i).files, paths[k]) {
      RunSettlesAt(entries, paths, i, k);
    }
  }

  /** A run over settled paths changes nothing and counts nothing. */
  lemma {:induction false} RunOverSettled(entries: map<string, Entry>, paths: seq<string>, i: nat)
    requires i <= |paths|
    requires forall k :: 0 <= k < i ==> Settled(entries, paths[k])
    ensures Run(entries, paths, i) == RunResult(entries, 0)
  {
    if i > 0 {
      RunOverSettled(entries, paths, i - 1);
    }
  }

  /** The hook's promise: a second run with the same arguments changes no file and
      exits with 0, so the commit goes through once the changes are staged. */
  lemma RunIdempotent(entries: map<string, Entry>, argv: seq<string>)
    ensures var first := RunAll(entries, Args(argv)).files;
      RunAll(first, Args(argv)) == RunResult(first, 0) && ExitCode(RunAll(first, Args(argv)).count) == 0
  {
    var paths := Args(argv);
    RunSettles(entries, paths, |paths|);
    RunOverSettled(RunAll(entries, paths).files, paths, |paths|);
  }

  /** A run touches only the files it was given, keeps every path, and exits with 0
      only when it changed nothing. */
  lemma {:induction false} RunFrame(entries: map<string, Entry>, paths: seq<string>, i: nat)
    requires i <= |paths|
    ensures Run(entries, paths, i).files.Keys == entries.Keys
    ensures forall q :: q in entries && (forall k :: 0 <= k < i ==> paths[k] != q) ==>
              Run(entries, paths, i).files[q] == entries[q]
    ensures Run(entries, paths, i).count == 0 ==> Run(entries, paths, i).files == entries
  {
    if i > 0 {
      RunFrame(entries, paths, i - 1);
      StepFrame(Run(entries, paths, i - 1).files, paths[i - 1]);
    }
  }

  /** The files seen by one run of the hook. */
  class Hook {
    var entries: map<string, Entry>

    constructor(entries0: map<string, Entry>)
      ensures entries == entries0
    {
      entries := entries0;
    }

    /** `process_python` */
    method ProcessPythonFile(path: string) returns (changed: bool)
      requires path in entries && entries[path].File?
      modifies this
      ensures entries == Apply(old(entries), path, Python).files
      ensures changed == Apply(old(entries), path, Python).changed
    {
      var text := ReadText(entries[path].raw);
      var original := SplitLinesKeepEnds(text);
      if HasSpdx(original) {
        return false;
      }
      var newLines := NewPythonLines(original);
      entries := entries[path := File(Join(newLines))];
      changed := true;
    }

    /** `process_js` */
    method ProcessJsFile(path: string) returns (changed: bool)
      requires path in entries && entries[path].File?
      modifies this
      ensures entries == Apply(old(entries), path, JavaScript).files
      ensures changed == Apply(old(entries), path, JavaScript).changed
    {
      var text := ReadText(entries[path].raw);
      var original := SplitLinesKeepEnds(text);
      if HasSpdx(original) {
        return false;
      }
      entries := entries[path := File(Join([JS_LINE] + original))];
      changed := true;
    }

    /** One path of `iter_targets` and the processor it is given. */
    method ProcessTarget(path: string) returns (changed: bool)
      modifies this
      ensures entries == Step(old(entries), path).files
      ensures changed == Step(old(entries), path).changed
    {
      changed := false;
      if path in entries && entries[path].File? {
        var suffix := Suffix(path);
        if suffix == ".py" {
          changed := ProcessPythonFile(path);
        } else if suffix == ".js" {
          changed := ProcessJsFile(path);
        }
      }
    }

    /** `main`: processes every target among the arguments after the program name. */
    method RunHook(argv: seq<string>) returns (code: int)
      modifies this
      ensures entries == RunAll(old(entries), Args(argv)).files
      ensures code == ExitCode(RunAll(old(entries), Args(argv)).count)
    {
      var paths := Args(argv);
      var changed: nat := 0;
      var i := 0;
      while i < |paths|
        invariant 0 <= i <= |paths|
        invariant entries == Run(old(entries), paths, i).files
        invariant changed == Run(old(entries), paths, i).count
      {
        var c := ProcessTarget(paths[i]);
        RunNext(old(entries), paths, i);
        if c {
          changed := changed + 1;
        }
        i := i + 1;
      }
      code := if changed > 0 then 1 else 0;
    }
  }
}
