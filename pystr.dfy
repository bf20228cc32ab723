/** Python `str` operations the modelled code relies on, stated once and shared
    by every other module: whitespace, ASCII character classes, `strip`,
    `startswith`, `in`, `splitlines`, `split`, `int()` and `str()` of an int, and
    `os.environ.get` over an environment given as a map. */
module PyStr {

  datatype Option<+T> = None | Some(value: T)

  /** `os.environ.get(name, default)` */
  function EnvGet(env: map<string, string>, name: string, default: string): string {
    if name in env then env[name] else default
  }

  // ---------------------------------------------------------------------
  // Character classes

  /** `c.isspace()`: the characters Python treats as whitespace. */
  predicate IsSpace(c: char) {
    var n := c as int;
    n == 32 || (9 <= n <= 13) || (0x1c <= n <= 0x1f) || n == 0x85 || n == 0xa0 ||
    n == 0x1680 || (0x2000 <= n <= 0x200a) || n == 0x2028 || n == 0x2029 ||
    n == 0x202f || n == 0x205f || n == 0x3000
  }

  /** A line boundary for `str.splitlines` (`\r\n` is handled as one boundary by the splitters). */
  predicate IsLineBreak(c: char) {
    var n := c as int;
    (10 <= n <= 13) || (0x1c <= n <= 0x1e) || n == 0x85 || n == 0x2028 || n == 0x2029
  }

  predicate IsUpper(c: char) { 'A' <= c <= 'Z' }
  predicate IsLower(c: char) { 'a' <= c <= 'z' }
  predicate IsDigit(c: char) { '0' <= c <= '9' }
  predicate IsAlnum(c: char) { IsUpper(c) || IsLower(c) || IsDigit(c) }

  function UpperChar(c: char): char { if IsLower(c) then (c as int - 32) as char else c }
  function LowerChar(c: char): char { if IsUpper(c) then (c as int + 32) as char else c }

  /** `s.upper()` */
  function Upper(s: string): (r: string)
    ensures |r| == |s| && forall i :: 0 <= i < |s| ==> r[i] == UpperChar(s[i])
  {
    seq(|s|, i requires 0 <= i < |s| => UpperChar(s[i]))
  }

  /** `s.lower()` */
  function Lower(s: string): (r: string)
    ensures |r| == |s| && forall i :: 0 <= i < |s| ==> r[i] == LowerChar(s[i])
  {
    seq(|s|, i requires 0 <= i < |s| => LowerChar(s[i]))
  }

  // ---------------------------------------------------------------------
  // Prefixes, containment

  /** `s.startswith(p)` */
  predicate StartsWith(s: string, p: string) {
    |p| <= |s| && s[..|p|] == p
  }

  /** `r` occurs in `s` at offset `k`. */
  predicate InfixAt(s: string, r: string, k: int) {
    0 <= k <= |s| - |r| && s[k..k + |r|] == r
  }

  /** `t in s` for strings, written as a scan from the left. */
  predicate Contains(s: string, t: string)
    decreases |s|
  {
    StartsWith(s, t) || (s != [] && Contains(s[1..], t))
  }

  /** The scan finds exactly the occurrences of `t` at some offset of `s`. */
  lemma {:induction false} ContainsAt(s: string, t: string)
    ensures Contains(s, t) <==> exists i :: InfixAt(s, t, i)
    decreases |s|
  {
    if StartsWith(s, t) {
      assert InfixAt(s, t, 0);
    } else if s != [] {
      ContainsAt(s[1..], t);
      if Contains(s[1..], t) {
        var i :| InfixAt(s[1..], t, i);
        assert InfixAt(s, t, i + 1);
      }
      forall i | InfixAt(s, t, i)
        ensures Contains(s[1..], t)
      {
        assert i != 0;
        assert InfixAt(s[1..], t, i - 1);
      }
    }
  }

  /** An occurrence inside a part of a concatenation is an occurrence in the whole. */
  lemma ContainsInConcat(a: string, b: string, t: string)
    requires Contains(a, t) || Contains(b, t)
    ensures Contains(a + b, t)
  {
    ContainsAt(a, t);
    ContainsAt(b, t);
    ContainsAt(a + b, t);
    if Contains(a, t) {
      var i :| InfixAt(a, t, i);
      assert InfixAt(a + b, t, i) by { assert (a + b)[i..i + |t|] == a[i..i + |t|]; }
    } else {
      var i :| InfixAt(b, t, i);
      assert InfixAt(a + b, t, |a| + i) by { assert (a + b)[|a| + i..|a| + i + |t|] == b[i..i + |t|]; }
    }
  }

  // ---------------------------------------------------------------------
  // strip

  /** The end of the run of whitespace that starts at `i`. */
  function SpaceRunEnd(s: string, i: nat): (n: nat)
    requires i <= |s|
    ensures i <= n <= |s| && (n == |s| || !IsSpace(s[n]))
    ensures forall k :: i <= k < n ==> IsSpace(s[k])
    decreases |s| - i
  {
    if i < |s| && IsSpace(s[i]) then SpaceRunEnd(s, i + 1) else i
  }

  /** The start of the run of whitespace that ends at `j`, looking no further left than `lo`. */
  function SpaceRunStart(s: string, lo: nat, j: nat): (n: nat)
    requires lo <= j <= |s|
    ensures lo <= n <= j && (n == lo || !IsSpace(s[n - 1]))
    ensures forall k :: n <= k < j ==> IsSpace(s[k])
    decreases j
  {
    if lo < j && IsSpace(s[j - 1]) then SpaceRunStart(s, lo, j - 1) else j
  }

  /** `s.lstrip()` */
  function LStrip(s: string): (r: string)
    ensures r == s[SpaceRunEnd(s, 0)..]
    ensures r == [] || !IsSpace(r[0])
  {
    s[SpaceRunEnd(s, 0)..]
  }

  /** `s.rstrip()` */
  function RStrip(s: string): (r: string)
    ensures r == s[..SpaceRunStart(s, 0, |s|)]
    ensures r == [] || !IsSpace(r[|r| - 1])
  {
    s[..SpaceRunStart(s, 0, |s|)]
  }

  /** `r` is `s` with only whitespace cut off before offset `k` and after `r`. */
  predicate SpaceTrimmed(s: string, r: string, k: int) {
    InfixAt(s, r, k) &&
    (forall i :: 0 <= i < k ==> IsSpace(s[i])) &&
    (forall i :: k + |r| <= i < |s| ==> IsSpace(s[i]))
  }

  /** `s.strip()`: the longest infix that neither starts nor ends with whitespace. */
  function Strip(s: string): (r: string)
    ensures |r| <= |s|
    ensures r == [] || (!IsSpace(r[0]) && !IsSpace(r[|r| - 1]))
  {
    var a := SpaceRunEnd(s, 0);
    s[a..SpaceRunStart(s, a, |s|)]
  }

  /** `strip()` removes nothing but whitespace. */
  lemma StripTrimmed(s: string)
    ensures SpaceTrimmed(s, Strip(s), SpaceRunEnd(s, 0))
  {
  }

  /** `strip()` yields the empty string exactly when there is nothing but whitespace. */
  lemma StripAllSpace(s: string)
    ensures (forall i :: 0 <= i < |s| ==> IsSpace(s[i])) <==> Strip(s) == []
  {
    var a := SpaceRunEnd(s, 0);
    if Strip(s) == [] {
      assert SpaceRunStart(s, a, |s|) == a;
    } else {
      assert !IsSpace(s[a]);
    }
  }

  /** `strip()` is `rstrip()` after `lstrip()`. */
  lemma StripIsBothSides(s: string)
    ensures Strip(s) == RStrip(LStrip(s))
  {
    var a := SpaceRunEnd(s, 0);
    var l := s[a..];
    var b := SpaceRunStart(s, a, |s|);
    var c := SpaceRunStart(l, 0, |l|);
    SpaceRunStartShift(s, a, |s|);
  }

  /** The run search does not depend on what lies before its lower bound. */
  lemma {:induction false} SpaceRunStartShift(s: string, a: nat, j: nat)
    requires a <= j <= |s|
    ensures SpaceRunStart(s, a, j) == a + SpaceRunStart(s[a..], 0, j - a)
    decreases j
  {
    if a < j && IsSpace(s[j - 1]) {
      assert s[a..][j - a - 1] == s[j - 1];
      SpaceRunStartShift(s, a, j - 1);
    } else if a < j {
      assert s[a..][j - a - 1] == s[j - 1];
    }
  }

  /** Stripping a string with no whitespace at either end changes nothing. */
  lemma StripNoEdgeSpace(s: string)
    requires s == [] || (!IsSpace(s[0]) && !IsSpace(s[|s| - 1]))
    ensures Strip(s) == s
  {
  }

  /** Whitespace padding around a text with non-space ends is exactly what `strip()` removes. */
  lemma StripPadded(a: string, c: string, b: string)
    requires forall k :: 0 <= k < |a| ==> IsSpace(a[k])
    requires forall k :: 0 <= k < |b| ==> IsSpace(b[k])
    requires c != [] && !IsSpace(c[0]) && !IsSpace(c[|c| - 1])
    ensures Strip(a + c + b) == c
  {
    var s := a + c + b;
    assert s[|a|] == c[0] && s[|a| + |c| - 1] == c[|c| - 1];
    assert SpaceRunEnd(s, 0) == |a|;
    assert SpaceRunStart(s, |a|, |s|) == |a| + |c|;
    assert s[|a|..|a| + |c|] == c;
  }

  /** `r` is `s` with only copies of `c` cut off before offset `k` and after `r`. */
  predicate CharTrimmed(s: string, r: string, k: int, c: char) {
    InfixAt(s, r, k) &&
    (forall i :: 0 <= i < k ==> s[i] == c) &&
    (forall i :: k + |r| <= i < |s| ==> s[i] == c)
  }

  /** The end of the run of `c` that starts at `i`. */
  function CharRunEnd(s: string, i: nat, c: char): (n: nat)
    requires i <= |s|
    ensures i <= n <= |s| && (n == |s| || s[n] != c)
    ensures forall k :: i <= k < n ==> s[k] == c
    decreases |s| - i
  {
    if i < |s| && s[i] == c then CharRunEnd(s, i + 1, c) else i
  }

  /** The start of the run of `c` that ends at `j`, looking no further left than `lo`. */
  function CharRunStart(s: string, lo: nat, j: nat, c: char): (n: nat)
    requires lo <= j <= |s|
    ensures lo <= n <= j && (n == lo || s[n - 1] != c)
    ensures forall k :: n <= k < j ==> s[k] == c
    decreases j
  {
    if lo < j && s[j - 1] == c then CharRunStart(s, lo, j - 1, c) else j
  }

  /** `s.lstrip(c)` for a single character `c`. */
  function LStripChar(s: string, c: char): (r: string)
    ensures r == s[CharRunEnd(s, 0, c)..]
    ensures r == [] || r[0] != c
  {
    s[CharRunEnd(s, 0, c)..]
  }

  /** `s.rstrip(c)` for a single character `c`. */
  function RStripChar(s: string, c: char): (r: string)
    ensures r == s[..CharRunStart(s, 0, |s|, c)]
    ensures r == [] || r[|r| - 1] != c
  {
    s[..CharRunStart(s, 0, |s|, c)]
  }

  /** `s.strip(c)` for a single character `c`. */
  function StripChar(s: string, c: char): (r: string)
    ensures |r| <= |s|
    ensures r == [] || (r[0] != c && r[|r| - 1] != c)
  {
    var a := CharRunEnd(s, 0, c);
    s[a..CharRunStart(s, a, |s|, c)]
  }

  /** `strip(c)` removes nothing but copies of `c`. */
  lemma StripCharTrimmed(s: string, c: char)
    ensures CharTrimmed(s, StripChar(s, c), CharRunEnd(s, 0, c), c)
  {
  }

  // ---------------------------------------------------------------------
  // The alphanumeric characters of a string

  /** `"".join(c for c in s if c.isalnum())` */
  function Alnums(s: string): (r: string)
    ensures |r| <= |s|
    ensures forall i :: 0 <= i < |r| ==> IsAlnum(r[i])
    decreases |s|
  {
    if s == [] then [] else (if IsAlnum(s[0]) then [s[0]] else []) + Alnums(s[1..])
  }

  lemma {:induction false} AlnumsConcat(a: string, b: string)
    ensures Alnums(a + b) == Alnums(a) + Alnums(b)
    decreases |a|
  {
    if a == [] {
      assert a + b == b;
    } else {
      assert (a + b)[1..] == a[1..] + b;
      AlnumsConcat(a[1..], b);
    }
  }

  /** A string has no alphanumeric character exactly when its filter is empty. */
  lemma {:induction false} AlnumsEmpty(s: string)
    ensures Alnums(s) == [] <==> forall i :: 0 <= i < |s| ==> !IsAlnum(s[i])
    decreases |s|
  {
    if s != [] {
      AlnumsEmpty(s[1..]);
      assert forall i :: 1 <= i < |s| ==> s[i] == s[1..][i - 1];
    }
  }

  /** Cutting off characters that are not alphanumeric keeps the filter. */
  lemma AlnumsTrim(s: string, r: string, k: int)
    requires InfixAt(s, r, k)
    requires forall i :: 0 <= i < k ==> !IsAlnum(s[i])
    requires forall i :: k + |r| <= i < |s| ==> !IsAlnum(s[i])
    ensures Alnums(r) == Alnums(s)
  {
    var head, tail := s[..k], s[k + |r|..];
    assert s == head + r + tail;
    forall i | 0 <= i < |head| ensures !IsAlnum(head[i]) {
      assert head[i] == s[i];
    }
    forall i | 0 <= i < |tail| ensures !IsAlnum(tail[i]) {
      assert tail[i] == s[k + |r| + i];
    }
    AlnumsEmpty(head);
    AlnumsEmpty(tail);
    AlnumsConcat(head + r, tail);
    AlnumsConcat(head, r);
  }

  /** `strip()` only removes whitespace, so no alphanumeric character is lost. */
  lemma AlnumsStrip(s: string)
    ensures Alnums(Strip(s)) == Alnums(s)
  {
    StripTrimmed(s);
    AlnumsTrim(s, Strip(s), SpaceRunEnd(s, 0));
  }

  /** `strip(c)` of a character that is not alphanumeric keeps every alphanumeric character. */
  lemma AlnumsStripChar(s: string, c: char)
    requires !IsAlnum(c)
    ensures Alnums(StripChar(s, c)) == Alnums(s)
  {
    StripCharTrimmed(s, c);
    AlnumsTrim(s, StripChar(s, c), CharRunEnd(s, 0, c));
  }

  /** `s.replace(c, "")` */
  function RemoveChar(s: string, c: char): (r: string)
    ensures c !in r
    ensures forall x :: x in r ==> x in s
    ensures c !in s ==> r == s
    decreases |s|
  {
    if s == [] then [] else (if s[0] == c then [] else [s[0]]) + RemoveChar(s[1..], c)
  }

  /** Index of the last `c` in `s[..j]`, if any: what `rfind` and `rsplit` look for. */
  function LastIndexBefore(s: string, c: char, j: nat): (r: Option<nat>)
    requires j <= |s|
    ensures r.Some? ==> r.value < j && s[r.value] == c &&
                        forall k :: r.value < k < j ==> s[k] != c
    ensures r.None? ==> forall k :: 0 <= k < j ==> s[k] != c
    decreases j
  {
    if j == 0 then None
    else if s[j - 1] == c then Some(j - 1)
    else LastIndexBefore(s, c, j - 1)
  }

  /** `LastIndexBefore` finds the last `c`, wherever it is. */
  lemma {:induction false} LastIndexIs(s: string, c: char, i: nat, j: nat)
    requires i < j <= |s| && s[i] == c
    requires forall k :: i < k < j ==> s[k] != c
    ensures LastIndexBefore(s, c, j) == Some(i)
    decreases j
  {
    if j - 1 != i {
      LastIndexIs(s, c, i, j - 1);
    }
  }

  // ---------------------------------------------------------------------
  // splitlines

  /** Index of the first line break at or after `i`, or `|s|` when there is none. */
  function NextBreak(s: string, i: nat): (j: nat)
    requires i <= |s|
    ensures i <= j <= |s|
    ensures j < |s| ==> IsLineBreak(s[j])
    ensures forall k :: i <= k < j ==> !IsLineBreak(s[k])
    decreases |s| - i
  {
    if i == |s| || IsLineBreak(s[i]) then i else NextBreak(s, i + 1)
  }

  /** Length of the first line of a non-empty `s`, its terminator included. */
  function LineLen(s: string): (n: nat)
    requires s != []
    ensures NextBreak(s, 0) < n <= |s| || NextBreak(s, 0) == n == |s|
  {
    var i := NextBreak(s, 0);
    if i == |s| then |s|
    else if s[i] == '\r' && i + 1 < |s| && s[i + 1] == '\n' then i + 2
    else i + 1
  }

  /** `s.splitlines(keepends=True)` */
  function SplitLinesKeepEnds(s: string): (lines: seq<string>)
    ensures forall k :: 0 <= k < |lines| ==> lines[k] != []
    decreases |s|
  {
    if s == [] then [] else [s[..LineLen(s)]] + SplitLinesKeepEnds(s[LineLen(s)..])
  }

  /** `s.splitlines()` */
  function SplitLines(s: string): (lines: seq<string>)
    ensures |lines| == |SplitLinesKeepEnds(s)|
    ensures forall k, j :: 0 <= k < |lines| && 0 <= j < |lines[k]| ==> !IsLineBreak(lines[k][j])
    decreases |s|
  {
    if s == [] then [] else [s[..NextBreak(s, 0)]] + SplitLines(s[LineLen(s)..])
  }

  /** `s` holds no line boundary. */
  predicate BreakFree(s: string) {
    forall k :: 0 <= k < |s| ==> !IsLineBreak(s[k])
  }

  lemma BreakFreeConcat(a: string, b: string)
    requires BreakFree(a) && BreakFree(b)
    ensures BreakFree(a + b)
  {
    forall k | 0 <= k < |a + b| ensures !IsLineBreak((a + b)[k]) {
      if k < |a| { assert (a + b)[k] == a[k]; } else { assert (a + b)[k] == b[k - |a|]; }
    }
  }

  /** A break-free line ended by `\n` is the first line, and the rest splits on its own. */
  lemma SplitLinesCons(line: string, rest: string)
    requires BreakFree(line)
    ensures SplitLines(line + "\n" + rest) == [line] + SplitLines(rest)
  {
    var s := line + "\n" + rest;
    assert s[|line|] == '\n';
    forall k | 0 <= k < |line| ensures !IsLineBreak(s[k]) { assert s[k] == line[k]; }
    NextBreakIs(s, 0, |line|);
    assert LineLen(s) == |line| + 1;
    assert s[..|line|] == line && s[|line| + 1..] == rest;
  }

  /** A non-empty break-free text is one line. */
  lemma SplitLinesSingle(line: string)
    requires line != [] && BreakFree(line)
    ensures SplitLines(line) == [line]
  {
    NextBreakFrom(line, |line|);
    assert LineLen(line) == |line|;
    assert line[|line|..] == [] && line[..|line|] == line;
  }

  /** `"".join(lines)` */
  function Join(lines: seq<string>): string {
    if lines == [] then [] else lines[0] + Join(lines[1..])
  }

  lemma {:induction false} JoinAppend(a: seq<string>, b: seq<string>)
    ensures Join(a + b) == Join(a) + Join(b)
  {
    if a != [] {
      assert (a + b)[0] == a[0];
      assert (a + b)[1..] == a[1..] + b;
      JoinAppend(a[1..], b);
    } else {
      assert a + b == b;
    }
  }

  /** Joining the lines kept with their terminators gives back the text. */
  lemma {:induction false} JoinSplitLinesKeepEnds(s: string)
    ensures Join(SplitLinesKeepEnds(s)) == s
    decreases |s|
  {
    if s != [] {
      JoinSplitLinesKeepEnds(s[LineLen(s)..]);
      assert s == s[..LineLen(s)] + s[LineLen(s)..];
    }
  }

  /** A text that starts with a line ending in `\n` (and holding no other break)
      splits into that line followed by the lines of the rest. */
  lemma FirstLineSplit(x: string, y: string)
    requires |x| > 0 && x[|x| - 1] == '\n'
    requires forall k :: 0 <= k < |x| - 1 ==> !IsLineBreak(x[k])
    ensures SplitLinesKeepEnds(x + y) == [x] + SplitLinesKeepEnds(y)
  {
    var s := x + y;
    assert s[|x| - 1] == '\n';
    assert NextBreak(s, 0) == |x| - 1 by {
      forall k | 0 <= k < |x| - 1 ensures !IsLineBreak(s[k]) { assert s[k] == x[k]; }
      NextBreakIs(s, 0, |x| - 1);
    }
    assert LineLen(s) == |x|;
    assert s[..|x|] == x && s[|x|..] == y;
  }

  /** When a line break sits at `j` and none before it (from `i`), `NextBreak` finds `j`. */
  lemma {:induction false} NextBreakIs(s: string, i: nat, j: nat)
    requires i <= j < |s| && IsLineBreak(s[j])
    requires forall k :: i <= k < j ==> !IsLineBreak(s[k])
    ensures NextBreak(s, i) == j
    decreases j - i
  {
    if i < j { NextBreakIs(s, i + 1, j); }
  }

  /** The first line of a text prefixed by a break-free part `x` begins with `x`,
      whatever follows it. */
  lemma FirstLineExtends(x: string, y: string)
    requires x != []
    requires forall k :: 0 <= k < |x| ==> !IsLineBreak(x[k])
    ensures SplitLinesKeepEnds(x + y) != []
    ensures StartsWith(SplitLinesKeepEnds(x + y)[0], x)
  {
    var s := x + y;
    NextBreakFrom(s, |x|);
    assert NextBreak(s, 0) >= |x|;
    assert s[..LineLen(s)][..|x|] == x;
  }

  /** `NextBreak(s, 0)` is at least `m` when `s[..m]` holds no break. */
  lemma NextBreakFrom(s: string, m: nat)
    requires m <= |s|
    requires forall k :: 0 <= k < m ==> !IsLineBreak(s[k])
    ensures NextBreak(s, 0) >= m
  {
  }

  // ---------------------------------------------------------------------
  // split

  /** Index of the first `sep` at or after `i`, or `|s|`. */
  function IndexFrom(s: string, sep: char, i: nat): (j: nat)
    requires i <= |s|
    ensures i <= j <= |s| && (j < |s| ==> s[j] == sep)
    ensures forall k :: i <= k < j ==> s[k] != sep
    decreases |s| - i
  {
    if i == |s| || s[i] == sep then i else IndexFrom(s, sep, i + 1)
  }

  /** The first `sep` of `a + b` is the one that starts `b` when `a` has none. */
  lemma IndexFromAt(a: string, b: string, sep: char)
    requires sep !in a && b != [] && b[0] == sep
    ensures IndexFrom(a + b, sep, 0) == |a|
    ensures (a + b)[..|a|] == a && (a + b)[|a|..] == b
  {
    var s := a + b;
    assert s[|a|] == sep;
    forall k | 0 <= k < |a| ensures s[k] != sep { assert s[k] == a[k]; }
  }

  /** `s.split(sep)` for a one-character separator: always at least one piece. */
  function Split(s: string, sep: char): (parts: seq<string>)
    ensures |parts| >= 1
    ensures forall k, j :: 0 <= k < |parts| && 0 <= j < |parts[k]| ==> parts[k][j] != sep
    decreases |s|
  {
    var i := IndexFrom(s, sep, 0);
    if i == |s| then [s] else [s[..i]] + Split(s[i + 1..], sep)
  }

  /** Index of the first whitespace at or after `i`, or `|s|`. */
  function SpaceFrom(s: string, i: nat): (j: nat)
    requires i <= |s|
    ensures i <= j <= |s| && (j < |s| ==> IsSpace(s[j]))
    ensures forall k :: i <= k < j ==> !IsSpace(s[k])
    decreases |s| - i
  {
    if i == |s| || IsSpace(s[i]) then i else SpaceFrom(s, i + 1)
  }

  /** Splitting before a separator-free part keeps that part as the first piece. */
  lemma SplitAtSep(a: string, b: string, sep: char)
    requires sep !in a
    ensures Split(a + [sep] + b, sep) == [a] + Split(b, sep)
  {
    var s := a + [sep] + b;
    assert s[|a|] == sep;
    forall k | 0 <= k < |a| ensures s[k] != sep { assert s[k] == a[k]; }
    assert IndexFrom(s, sep, 0) == |a|;
    assert s[..|a|] == a && s[|a| + 1..] == b;
  }

  /** A text without the separator is a single piece. */
  lemma SplitNoSep(a: string, sep: char)
    requires sep !in a
    ensures Split(a, sep) == [a]
  {
    assert IndexFrom(a, sep, 0) == |a|;
  }

  /** `s.split()`: the maximal runs of non-whitespace, in order. */
  function SplitWs(s: string): (parts: seq<string>)
    decreases |s|
  {
    var a := SpaceRunEnd(s, 0);
    if a == |s| then []
    else
      var i := SpaceFrom(s, a);
      [s[a..i]] + SplitWs(s[i..])
  }

  /** Leading whitespace is skipped, and a word followed by whitespace or the end is a piece. */
  lemma SplitWsWord(sp: string, w: string, rest: string)
    requires forall k :: 0 <= k < |sp| ==> IsSpace(sp[k])
    requires w != [] && forall k :: 0 <= k < |w| ==> !IsSpace(w[k])
    requires rest == [] || IsSpace(rest[0])
    ensures SplitWs(sp + w + rest) == [w] + SplitWs(rest)
  {
    var s := sp + w + rest;
    assert s[|sp|] == w[0];
    assert SpaceRunEnd(s, 0) == |sp|;
    forall k | |sp| <= k < |sp| + |w| ensures !IsSpace(s[k]) { assert s[k] == w[k - |sp|]; }
    assert SpaceFrom(s, |sp|) == |sp| + |w| by {
      if |sp| + |w| < |s| { assert s[|sp| + |w|] == rest[0]; }
    }
    assert s[|sp|..|sp| + |w|] == w && s[|sp| + |w|..] == rest;
  }

  /** A word at the very start, followed by whitespace or the end, is the first piece. */
  lemma SplitWsHead(w: string, rest: string)
    requires w != [] && forall k :: 0 <= k < |w| ==> !IsSpace(w[k])
    requires rest == [] || IsSpace(rest[0])
    ensures SplitWs(w + rest) == [w] + SplitWs(rest)
  {
    assert [] + w + rest == w + rest;
    SplitWsWord([], w, rest);
  }

  // ---------------------------------------------------------------------
  // int() and str() of integers

  function DigitChar(d: nat): char
    requires d < 10
  {
    ('0' as int + d) as char
  }

  /** `str(n)` for a natural number. */
  function NatToStr(n: nat): (s: string)
    ensures s != [] && forall k :: 0 <= k < |s| ==> IsDigit(s[k])
    decreases n
  {
    if n < 10 then [DigitChar(n)] else NatToStr(n / 10) + [DigitChar(n % 10)]
  }

  /** `str(n)` */
  function IntToStr(n: int): string {
    if n < 0 then "-" + NatToStr(-n) else NatToStr(n)
  }

  /** `str(n)` is made of ASCII digits and possibly a leading `-`. */
  lemma IntToStrChars(n: int)
    ensures IntToStr(n) != []
    ensures forall k :: 0 <= k < |IntToStr(n)| ==> IsDigit(IntToStr(n)[k]) || IntToStr(n)[k] == '-'
  {
  }

  /** The digit body accepted by `int()`: ASCII digits, single `_` only between digits. */
  predicate DigitBody(t: string) {
    t != [] && IsDigit(t[0]) && DigitsFrom(t, 1)
  }

  /** From offset `i` on, `t` is a run of digits, each `_` followed by a digit. */
  predicate DigitsFrom(t: string, i: nat)
    requires i <= |t|
    decreases |t| - i
  {
    i == |t| ||
    (IsDigit(t[i]) && DigitsFrom(t, i + 1)) ||
    (t[i] == '_' && i + 1 < |t| && IsDigit(t[i + 1]) && DigitsFrom(t, i + 2))
  }

  /** `DigitsFrom` after a digit says: only digits and `_`, the last a digit, no `__`. */
  lemma {:induction false} DigitsFromSpec(t: string, i: nat)
    requires 0 < i <= |t| && IsDigit(t[i - 1])
    ensures DigitsFrom(t, i) <==>
      IsDigit(t[|t| - 1]) &&
      (forall k :: i <= k < |t| ==> IsDigit(t[k]) || t[k] == '_') &&
      (forall k :: i - 1 <= k < |t| - 1 ==> !(t[k] == '_' && t[k + 1] == '_'))
    decreases |t| - i
  {
    if i < |t| {
      if IsDigit(t[i]) {
        DigitsFromSpec(t, i + 1);
      } else if t[i] == '_' && i + 1 < |t| && IsDigit(t[i + 1]) {
        DigitsFromSpec(t, i + 2);
      }
    }
  }

  /** The digit body, element by element: digits and `_`, a digit at each end, no `__`. */
  lemma DigitBodySpec(t: string)
    ensures DigitBody(t) <==>
      t != [] && IsDigit(t[0]) && IsDigit(t[|t| - 1]) &&
      (forall k :: 0 <= k < |t| ==> IsDigit(t[k]) || t[k] == '_') &&
      (forall k :: 0 <= k < |t| - 1 ==> !(t[k] == '_' && t[k + 1] == '_'))
  {
    if t != [] && IsDigit(t[0]) {
      DigitsFromSpec(t, 1);
    }
  }

  // ---------------------------------------------------------------------
  // The whitespace int() and float() strip

  /** CPython first maps every non-ASCII `isspace()` character to a space and then strips
      only the ASCII whitespace ` \t\n\v\f\r`; the four ASCII separators `\x1c`-`\x1f`,
      which `isspace()` accepts, stay in place. */
  predicate NumSpace(c: char) {
    IsSpace(c) && !(0x1c <= c as int <= 0x1f)
  }

  /** The end of the run of number whitespace that starts at `i`. */
  function NumSpaceRunEnd(s: string, i: nat): (n: nat)
    requires i <= |s|
    ensures i <= n <= |s| && (n == |s| || !NumSpace(s[n]))
    ensures forall k :: i <= k < n ==> NumSpace(s[k])
    decreases |s| - i
  {
    if i < |s| && NumSpace(s[i]) then NumSpaceRunEnd(s, i + 1) else i
  }

  /** The start of the run of number whitespace that ends at `j`, no further left than `lo`. */
  function NumSpaceRunStart(s: string, lo: nat, j: nat): (n: nat)
    requires lo <= j <= |s|
    ensures lo <= n <= j && (n == lo || !NumSpace(s[n - 1]))
    ensures forall k :: n <= k < j ==> NumSpace(s[k])
    decreases j
  {
    if lo < j && NumSpace(s[j - 1]) then NumSpaceRunStart(s, lo, j - 1) else j
  }

  /** The text `int()` and `float()` parse: `s` without the number whitespace at its ends. */
  function NumStrip(s: string): (r: string)
    ensures |r| <= |s|
    ensures r == [] || (!NumSpace(r[0]) && !NumSpace(r[|r| - 1]))
  {
    var a := NumSpaceRunEnd(s, 0);
    s[a..NumSpaceRunStart(s, a, |s|)]
  }

  /** Only number whitespace is cut off, and all of it at both ends. */
  lemma NumStripTrimmed(s: string)
    ensures var a := NumSpaceRunEnd(s, 0);
      var r := NumStrip(s);
      && InfixAt(s, r, a)
      && (forall i :: 0 <= i < a ==> NumSpace(s[i]))
      && (forall i :: a + |r| <= i < |s| ==> NumSpace(s[i]))
  {
  }

  /** A text with no number whitespace at either end is parsed as it is. */
  lemma NumStripNoEdgeSpace(s: string)
    requires s == [] || (!IsSpace(s[0]) && !IsSpace(s[|s| - 1]))
    ensures NumStrip(s) == s
  {
  }

  /** `int()` does not strip the `\x1c` file separator that `strip()` removes, but it does
      strip a no-break space. */
  lemma ParseIntWhitespace()
    ensures Strip("\U{1c}5") == "5" && ParseInt("\U{1c}5").None?
    ensures ParseInt(" \U{a0}5\n") == Some(5)
  {
    assert SpaceRunEnd("\U{1c}5", 0) == 1;
    assert NumSpaceRunEnd(" \U{a0}5\n", 0) == 2;
    assert NumSpaceRunStart(" \U{a0}5\n", 2, 4) == 3;
  }

  /** The value of a digit body, underscores ignored. */
  function DigitsValue(t: string): nat
    decreases |t|
  {
    if t == [] then 0
    else if IsDigit(t[|t| - 1]) then 10 * DigitsValue(t[..|t| - 1]) + (t[|t| - 1] as int - '0' as int)
    else DigitsValue(t[..|t| - 1])
  }

  /** `int(s)` in base 10: surrounding number whitespace, an optional sign, a digit body.
      `None` stands for the `ValueError` Python raises. */
  function ParseInt(s: string): (r: Option<int>)
    ensures r.Some? ==> NumStrip(s) != []
  {
    var t := NumStrip(s);
    if t != [] && (t[0] == '+' || t[0] == '-') then
      if DigitBody(t[1..]) then
        Some(if t[0] == '-' then -(DigitsValue(t[1..]) as int) else DigitsValue(t[1..]))
      else None
    else if DigitBody(t) then Some(DigitsValue(t))
    else None
  }

  lemma {:induction false} NatToStrValue(n: nat)
    ensures DigitsValue(NatToStr(n)) == n
    decreases n
  {
    if n >= 10 {
      NatToStrValue(n / 10);
      var s := NatToStr(n);
      assert s[..|s| - 1] == NatToStr(n / 10);
    }
  }

  /** `str(n)` is a digit body. */
  lemma DigitBodyOfNat(n: nat)
    ensures DigitBody(NatToStr(n))
  {
    var t := NatToStr(n);
    DigitBodySpec(t);
    forall k | 0 <= k < |t| - 1 ensures !(t[k] == '_' && t[k + 1] == '_') {
      assert IsDigit(t[k]);
    }
  }

  /** `str(n)` has no whitespace to strip. */
  lemma IntToStrStripped(n: int)
    ensures NumStrip(IntToStr(n)) == IntToStr(n)
  {
    var s := IntToStr(n);
    var digits := NatToStr(if n < 0 then -n else n);
    assert !IsSpace(digits[0]) && !IsSpace(digits[|digits| - 1]);
    if n < 0 {
      assert s[0] == '-' && s[|s| - 1] == digits[|digits| - 1];
    }
    NumStripNoEdgeSpace(s);
  }

  /** `int(str(n)) == n` */
  lemma ParseIntToStr(n: int)
    ensures ParseInt(IntToStr(n)) == Some(n)
  {
    var m: nat := if n < 0 then -n else n;
    var digits := NatToStr(m);
    NatToStrValue(m);
    DigitBodyOfNat(m);
    IntToStrStripped(n);
    if n < 0 {
      assert IntToStr(n)[1..] == digits;
    }
  }

  // ---------------------------------------------------------------------
  // The syntax float() accepts

  /** `s` with one leading `+` or `-` removed. */
  function Unsigned(t: string): (u: string)
    ensures |u| <= |t|
  {
    if t != [] && (t[0] == '+' || t[0] == '-') then t[1..] else t
  }

  /** Index of the first exponent marker `e` or `E`, or `|u|`. */
  function ExponentIndex(u: string): (e: nat)
    ensures e <= |u| && (e < |u| ==> u[e] == 'e' || u[e] == 'E')
    ensures forall k :: 0 <= k < e ==> u[k] != 'e' && u[k] != 'E'
  {
    var a := IndexFrom(u, 'e', 0);
    var b := IndexFrom(u, 'E', 0);
    if a <= b then a else b
  }

  /** The part before the exponent: digits with an optional `.`, a digit on at least one
      side of it. */
  predicate MantissaText(m: string) {
    var d := IndexFrom(m, '.', 0);
    if d == |m| then DigitBody(m)
    else
      var a := m[..d];
      var b := m[d + 1..];
      (a != [] || b != []) && (a == [] || DigitBody(a)) && (b == [] || DigitBody(b))
  }

  /** A decimal literal: a mantissa, then optionally `e` or `E`, a sign and digits. */
  predicate DecimalText(u: string) {
    var e := ExponentIndex(u);
    MantissaText(u[..e]) && (e == |u| || DigitBody(Unsigned(u[e + 1..])))
  }

  /** The text `float(s)` accepts: number whitespace around an optional sign and a decimal
      literal, or `inf`, `infinity`, `nan` in any case. */
  predicate FloatText(s: string) {
    var u := Unsigned(NumStrip(s));
    var l := Lower(u);
    l == "inf" || l == "infinity" || l == "nan" || DecimalText(u)
  }

  /** Every text `int()` accepts, `float()` accepts too. */
  lemma IntTextIsFloatText(s: string)
    requires ParseInt(s).Some?
    ensures FloatText(s)
  {
    var u := Unsigned(NumStrip(s));
    assert DigitBody(u);
    DigitBodySpec(u);
    assert u[..|u|] == u;
  }

  /** A digit run, a `.` and a digit run, like `0.85`, is a float text. */
  lemma FractionIsFloatText(a: string, b: string)
    requires DigitBody(a) && DigitBody(b)
    ensures FloatText(a + "." + b)
  {
    var s := a + "." + b;
    FractionEdges(a, b);
    FractionMarkers(a, b);
    assert s[..|s|] == s;
    assert s[..|a|] == a && s[|a| + 1..] == b;
  }

  /** `a.b` with digit runs `a` and `b` has no whitespace and no sign to remove. */
  lemma FractionEdges(a: string, b: string)
    requires DigitBody(a) && DigitBody(b)
    ensures NumStrip(a + "." + b) == a + "." + b
    ensures Unsigned(a + "." + b) == a + "." + b
  {
    var s := a + "." + b;
    DigitBodySpec(b);
    assert s[0] == a[0] && s[|s| - 1] == b[|b| - 1];
    NumStripNoEdgeSpace(s);
  }

  /** In `a.b` with digit runs `a` and `b`, the only `.` follows `a` and there is no exponent. */
  lemma FractionMarkers(a: string, b: string)
    requires DigitBody(a) && DigitBody(b)
    ensures ExponentIndex(a + "." + b) == |a + "." + b|
    ensures IndexFrom(a + "." + b, '.', 0) == |a|
  {
    var s := a + "." + b;
    DigitBodySpec(a);
    DigitBodySpec(b);
    forall k | 0 <= k < |s| ensures s[k] != 'e' && s[k] != 'E' {
      if k < |a| { assert s[k] == a[k]; }
      else if k > |a| { assert s[k] == b[k - |a| - 1]; }
    }
    assert s == a + ("." + b);
    forall k | 0 <= k < |a| ensures a[k] != '.' {
      assert IsDigit(a[k]) || a[k] == '_';
    }
    IndexFromAt(a, "." + b, '.');
  }
}
