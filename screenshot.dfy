/** Capture file names of `capture/screenshot.py`: the sanitised window title,
    the `YYYY-MM-DD_HH-MM-SS` timestamp and the time-zone preferences read from
    the environment. Times are whole seconds since 1970-01-01T00:00:00Z. */
module Screenshot {
  import opened PyStr

  // ---------------------------------------------------------------------
  // Window title

  const TITLE_LIMIT := 80
  const FALLBACK_TITLE := "window"

  /** A character the sanitised title may hold: `[A-Za-z0-9_]`. */
  predicate TitleChar(c: char) { IsAlnum(c) || c == '_' }

  predicate AllTitleChars(s: string) { forall i :: 0 <= i < |s| ==> TitleChar(s[i]) }

  /** `s[i:i + 2] == "__"` */
  predicate DoubleAt(s: string, i: int)
    requires 0 <= i < |s| - 1
  {
    s[i] == '_' && s[i + 1] == '_'
  }

  predicate NoDoubleUnderscore(s: string) {
    forall i :: 0 <= i < |s| - 1 ==> !DoubleAt(s, i)
  }

  /** Drops the leading run of characters outside `[A-Za-z0-9]`. */
  function DropNonAlnum(s: string): (r: string)
    ensures |r| <= |s| && r == s[|s| - |r|..]
    ensures r == [] || IsAlnum(r[0])
    ensures forall i :: 0 <= i < |s| - |r| ==> !IsAlnum(s[i])
    decreases |s|
  {
    if s != [] && !IsAlnum(s[0]) then
      var r := DropNonAlnum(s[1..]);
      assert forall i :: 1 <= i < |s| - |r| ==> s[i] == s[1..][i - 1];
      r
    else s
  }

  /** Putting `c` in front keeps a string free of `__` unless it makes a new pair. */
  lemma ConsNoDouble(c: char, rest: string)
    requires NoDoubleUnderscore(rest)
    requires rest == [] || c != '_' || rest[0] != '_'
    ensures NoDoubleUnderscore([c] + rest)
  {
    var r := [c] + rest;
    forall i | 0 <= i < |r| - 1 ensures !DoubleAt(r, i) {
      if i > 0 { assert r[i] == rest[i - 1] && r[i + 1] == rest[i] && !DoubleAt(rest, i - 1); }
    }
  }

  /** `re.sub(r"[^A-Za-z0-9]+", "_", s)`: each maximal run of other characters becomes one `_`. */
  function CollapseRuns(s: string): (r: string)
    ensures |r| <= |s|
    ensures s != [] ==> r != [] && r[0] == (if IsAlnum(s[0]) then s[0] else '_')
    decreases |s|
  {
    if s == [] then []
    else if IsAlnum(s[0]) then [s[0]] + CollapseRuns(s[1..])
    else "_" + CollapseRuns(DropNonAlnum(s[1..]))
  }

  /** Putting a title character in front keeps a string of title characters. */
  lemma ConsTitleChars(c: char, rest: string)
    requires TitleChar(c) && AllTitleChars(rest)
    ensures AllTitleChars([c] + rest)
  {
    var r := [c] + rest;
    forall i | 0 <= i < |r| ensures TitleChar(r[i]) {
      if i > 0 { assert r[i] == rest[i - 1]; }
    }
  }

  /** After the substitution only `[A-Za-z0-9_]` is left. */
  lemma {:induction false} CollapseChars(s: string)
    ensures AllTitleChars(CollapseRuns(s))
    decreases |s|
  {
    if s != [] {
      var tail := if IsAlnum(s[0]) then s[1..] else DropNonAlnum(s[1..]);
      var c := if IsAlnum(s[0]) then s[0] else '_';
      CollapseChars(tail);
      assert CollapseRuns(s) == [c] + CollapseRuns(tail);
      ConsTitleChars(c, CollapseRuns(tail));
    }
  }

  /** After the substitution no `__` is left. */
  lemma {:induction false} CollapseNoDouble(s: string)
    ensures NoDoubleUnderscore(CollapseRuns(s))
    decreases |s|
  {
    if s != [] {
      if IsAlnum(s[0]) {
        CollapseNoDouble(s[1..]);
        ConsNoDouble(s[0], CollapseRuns(s[1..]));
      } else {
        var tail := DropNonAlnum(s[1..]);
        CollapseNoDouble(tail);
        ConsNoDouble('_', CollapseRuns(tail));
      }
    }
  }

  /** The substitution keeps every letter and digit, in order. */
  lemma {:induction false} CollapseAlnums(s: string)
    ensures Alnums(CollapseRuns(s)) == Alnums(s)
    decreases |s|
  {
    if s != [] {
      if IsAlnum(s[0]) {
        CollapseAlnums(s[1..]);
        assert ([s[0]] + CollapseRuns(s[1..]))[1..] == CollapseRuns(s[1..]);
      } else {
        var tail := DropNonAlnum(s[1..]);
        CollapseAlnums(tail);
        assert ("_" + CollapseRuns(tail))[1..] == CollapseRuns(tail);
        AlnumsTrim(s[1..], tail, |s[1..]| - |tail|);
      }
    }
  }

  /** `re.sub(r"_+", "_", s)` */
  function SqueezeUnderscores(s: string): (r: string)
    ensures |r| <= |s|
    ensures s != [] ==> r != [] && r[0] == s[0]
    decreases |s|
  {
    if s == [] then []
    else if s[0] == '_' then "_" + SqueezeUnderscores(LStripChar(s[1..], '_'))
    else [s[0]] + SqueezeUnderscores(s[1..])
  }

  /** After the second substitution there is no `__`. */
  lemma {:induction false} SqueezeNoDouble(s: string)
    ensures NoDoubleUnderscore(SqueezeUnderscores(s))
    decreases |s|
  {
    if s != [] {
      var tail := if s[0] == '_' then LStripChar(s[1..], '_') else s[1..];
      SqueezeNoDouble(tail);
      var r := SqueezeUnderscores(s);
      assert r == [s[0]] + SqueezeUnderscores(tail);
      ConsNoDouble(s[0], SqueezeUnderscores(tail));
    }
  }

  /** Once runs are collapsed there are no `__` left, so the second substitution changes nothing. */
  lemma {:induction false} SqueezeNoOp(s: string)
    requires NoDoubleUnderscore(s)
    ensures SqueezeUnderscores(s) == s
    decreases |s|
  {
    if s != [] {
      assert NoDoubleUnderscore(s[1..]) by {
        forall i | 0 <= i < |s[1..]| - 1 ensures !DoubleAt(s[1..], i) {
          assert !DoubleAt(s, i + 1);
        }
      }
      SqueezeNoOp(s[1..]);
      if s[0] == '_' {
        assert s[1..] == [] || s[1..][0] != '_' by {
          if |s| > 1 { assert !DoubleAt(s, 0); }
        }
        assert LStripChar(s[1..], '_') == s[1..];
      }
    }
  }

  /** An infix keeps the character class and the absence of `__`. */
  lemma InfixKeepsShape(s: string, r: string, k: int)
    requires InfixAt(s, r, k) && AllTitleChars(s) && NoDoubleUnderscore(s)
    ensures AllTitleChars(r) && NoDoubleUnderscore(r)
  {
    forall i | 0 <= i < |r| ensures TitleChar(r[i]) { assert r[i] == s[k + i]; }
    forall i | 0 <= i < |r| - 1 ensures !DoubleAt(r, i) {
      assert !DoubleAt(s, k + i);
    }
  }

  /** The title after substitution and `strip("_")`, before the fallback and the cut. */
  function CleanTitle(title: string): (r: string)
    ensures |r| <= |title|
  {
    StripChar(SqueezeUnderscores(CollapseRuns(Strip(title))), '_')
  }

  /** The cleaned title is `[A-Za-z0-9_]` without `__` and starts with a letter or digit. */
  lemma CleanTitleShape(title: string)
    ensures var r := CleanTitle(title);
      AllTitleChars(r) && NoDoubleUnderscore(r) && (r == [] || IsAlnum(r[0]))
  {
    var cleaned := CollapseRuns(Strip(title));
    CollapseChars(Strip(title));
    CollapseNoDouble(Strip(title));
    SqueezeNoOp(cleaned);
    StripCharTrimmed(cleaned, '_');
    InfixKeepsShape(cleaned, CleanTitle(title), CharRunEnd(cleaned, 0, '_'));
  }

  /** The cleaned title has exactly the letters and digits of the title. */
  lemma CleanTitleAlnums(title: string)
    ensures Alnums(CleanTitle(title)) == Alnums(title)
  {
    var cleaned := CollapseRuns(Strip(title));
    CollapseNoDouble(Strip(title));
    CollapseAlnums(Strip(title));
    SqueezeNoOp(cleaned);
    AlnumsStrip(title);
    AlnumsStripChar(cleaned, '_');
  }

  /** The fallback for an empty cleaned title, then the cut to 80 characters. */
  function FitTitle(stripped: string): (r: string)
    ensures 1 <= |r| <= TITLE_LIMIT
  {
    var named := if stripped == [] then FALLBACK_TITLE else stripped;
    if |named| <= TITLE_LIMIT then named else named[..TITLE_LIMIT]
  }

  /** The title part of `generate_filename`. */
  function SanitizeTitle(title: string): (r: string)
    ensures 1 <= |r| <= TITLE_LIMIT
  {
    FitTitle(CleanTitle(title))
  }

  /** The fallback title `window` is itself a clean title. */
  lemma FallbackShape()
    ensures AllTitleChars(FALLBACK_TITLE) && NoDoubleUnderscore(FALLBACK_TITLE) && IsAlnum(FALLBACK_TITLE[0])
  {
    var w := FALLBACK_TITLE;
    forall i | 0 <= i < |w| ensures IsLower(w[i]) {
    }
  }

  /** The fallback and the cut keep a clean title clean. */
  lemma FitTitleShape(stripped: string)
    requires AllTitleChars(stripped) && NoDoubleUnderscore(stripped) && (stripped == [] || IsAlnum(stripped[0]))
    ensures var r := FitTitle(stripped);
      AllTitleChars(r) && NoDoubleUnderscore(r) && IsAlnum(r[0])
  {
    if stripped == [] {
      FallbackShape();
    } else if |stripped| > TITLE_LIMIT {
      InfixKeepsShape(stripped, stripped[..TITLE_LIMIT], 0);
    }
  }

  /** The sanitised title is `[A-Za-z0-9_]` with no `__` and no leading `_`. */
  lemma SanitizeTitleShape(title: string)
    ensures var r := SanitizeTitle(title);
      AllTitleChars(r) && NoDoubleUnderscore(r) && IsAlnum(r[0])
  {
    CleanTitleShape(title);
    FitTitleShape(CleanTitle(title));
  }

  /** A title without any letter or digit becomes `window`. */
  lemma SanitizeFallback(title: string)
    requires Alnums(title) == []
    ensures SanitizeTitle(title) == FALLBACK_TITLE
  {
    CleanTitleShape(title);
    CleanTitleAlnums(title);
    AlnumsEmpty(CleanTitle(title));
  }

  /** Cutting a string that starts with a letter or digit keeps a non-empty prefix of its letters and digits. */
  lemma CutKeepsAlnums(x: string, n: int)
    requires 0 < n <= |x| && IsAlnum(x[0])
    ensures Alnums(x[..n]) != [] && Alnums(x[..n]) <= Alnums(x)
  {
    var r := x[..n];
    assert x == r + x[n..];
    AlnumsConcat(r, x[n..]);
    assert Alnums(r)[0] == r[0] by { assert IsAlnum(r[0]); }
  }

  /** The fallback and the cut keep a non-empty prefix of the letters and digits of a
      cleaned title, all of them when it fits in 80 characters. */
  lemma FitKeepsAlnums(stripped: string)
    requires stripped != [] && IsAlnum(stripped[0])
    ensures Alnums(FitTitle(stripped)) != [] && Alnums(FitTitle(stripped)) <= Alnums(stripped)
    ensures |stripped| <= TITLE_LIMIT ==> FitTitle(stripped) == stripped
  {
    if |stripped| <= TITLE_LIMIT {
      CutKeepsAlnums(stripped, |stripped|);
      assert stripped[..|stripped|] == stripped;
    } else {
      CutKeepsAlnums(stripped, TITLE_LIMIT);
    }
  }

  /** A title with a letter or digit keeps a non-empty prefix of its letters and digits,
      and all of them when it fits in 80 characters. */
  lemma SanitizeKeepsAlnums(title: string)
    requires Alnums(title) != []
    ensures var r := SanitizeTitle(title);
      Alnums(r) != [] && Alnums(r) <= Alnums(title) &&
      (|title| <= TITLE_LIMIT ==> Alnums(r) == Alnums(title))
  {
    CleanTitleShape(title);
    CleanTitleAlnums(title);
    FitKeepsAlnums(CleanTitle(title));
  }

  /** `s.strip(c)` changes nothing when `s` neither starts nor ends with `c`. */
  lemma StripCharNoEdge(s: string, c: char)
    requires s == [] || (s[0] != c && s[|s| - 1] != c)
    ensures StripChar(s, c) == s
  {
  }

  /** The substitution keeps a string of letters and digits as it is. */
  lemma {:induction false} CollapseKeepsAlnum(s: string)
    requires forall i :: 0 <= i < |s| ==> IsAlnum(s[i])
    ensures CollapseRuns(s) == s
    decreases |s|
  {
    if s != [] {
      CollapseKeepsAlnum(s[1..]);
    }
  }

  /** A title that is already clean (letters and digits only, at most 80) is kept as it is. */
  lemma CleanTitleKept(title: string)
    requires 1 <= |title| <= TITLE_LIMIT
    requires forall i :: 0 <= i < |title| ==> IsAlnum(title[i])
    ensures SanitizeTitle(title) == title
  {
    StripNoEdgeSpace(title);
    CollapseKeepsAlnum(title);
    assert NoDoubleUnderscore(title);
    SqueezeNoOp(title);
    StripCharNoEdge(title, '_');
    assert CleanTitle(title) == title;
  }

  // ---------------------------------------------------------------------
  // Timestamp text

  datatype DateTime = DateTime(year: int, month: int, day: int, hour: int, minute: int, second: int)

  /** The fields a Python `datetime` can hold: a year from 1 to 9999, a real day of the
      month in the proleptic Gregorian calendar, and a time of day. */
  predicate FieldsInRange(d: DateTime) {
    1 <= d.year <= 9999 && 1 <= d.month <= 12 && 1 <= d.day <= DaysInMonth(d.year, d.month) &&
    0 <= d.hour < 24 && 0 <= d.minute < 60 && 0 <= d.second < 60
  }

  function Zeros(n: nat): (z: string)
    ensures |z| == n
  {
    if n == 0 then [] else "0" + Zeros(n - 1)
  }

  /** A leading `0` does not change the value of a digit string. */
  lemma {:induction false} LeadingZero(t: string)
    ensures DigitsValue("0" + t) == DigitsValue(t)
    decreases |t|
  {
    if t == [] {
      assert DigitsValue("0") == 10 * DigitsValue([]) + 0 by { assert "0"[..0] == []; }
    } else {
      assert ("0" + t)[..|t|] == "0" + t[..|t| - 1];
      LeadingZero(t[..|t| - 1]);
    }
  }

  lemma {:induction false} LeadingZeros(n: nat, t: string)
    ensures DigitsValue(Zeros(n) + t) == DigitsValue(t)
    decreases n
  {
    if n == 0 {
      assert Zeros(n) + t == t;
    } else {
      assert Zeros(n) + t == "0" + (Zeros(n - 1) + t);
      LeadingZero(Zeros(n - 1) + t);
      LeadingZeros(n - 1, t);
    }
  }

  lemma {:induction false} ZerosDigits(n: nat)
    ensures forall i :: 0 <= i < n ==> Zeros(n)[i] == '0'
    decreases n
  {
    if n > 0 {
      ZerosDigits(n - 1);
      assert forall i :: 1 <= i < n ==> Zeros(n)[i] == Zeros(n - 1)[i - 1];
    }
  }

  /** How many decimal digits `str(n)` has for the small numbers of a timestamp. */
  lemma {:induction false} NatToStrShort(n: nat)
    ensures n < 10 ==> |NatToStr(n)| == 1
    ensures n < 100 ==> |NatToStr(n)| <= 2
    ensures n < 1000 ==> |NatToStr(n)| <= 3
    ensures n < 10000 ==> |NatToStr(n)| <= 4
    decreases n
  {
    if n >= 10 { NatToStrShort(n / 10); }
  }

  /** `n` printed in decimal, zero-padded on the left to `w` digits (`%0wd`). */
  function ZeroPad(n: nat, w: nat): (s: string)
    ensures |s| == if |NatToStr(n)| < w then w else |NatToStr(n)|
  {
    var digits := NatToStr(n);
    Zeros(if |digits| < w then w - |digits| else 0) + digits
  }

  /** A concatenation of digit strings is a digit string. */
  lemma DigitsConcat(a: string, b: string)
    requires DigitsIn(a, 0, |a|) && DigitsIn(b, 0, |b|)
    ensures DigitsIn(a + b, 0, |a + b|)
  {
    var s := a + b;
    forall i | 0 <= i < |s| ensures IsDigit(s[i]) {
      if i < |a| { assert s[i] == a[i]; } else { assert s[i] == b[i - |a|]; }
    }
  }

  /** The padded text is all digits and reads back as `n`. */
  lemma ZeroPadValue(n: nat, w: nat)
    ensures DigitsIn(ZeroPad(n, w), 0, |ZeroPad(n, w)|)
    ensures DigitsValue(ZeroPad(n, w)) == n
  {
    var digits := NatToStr(n);
    var pad := if |digits| < w then w - |digits| else 0;
    assert ZeroPad(n, w) == Zeros(pad) + digits;
    LeadingZeros(pad, digits);
    NatToStrValue(n);
    ZerosDigits(pad);
    DigitsConcat(Zeros(pad), digits);
  }

  /** Three fields printed as `%0wd-%02d-%02d`, the shape of both halves of the timestamp. */
  function Dashed(x: nat, y: nat, z: nat, w: nat): string {
    ZeroPad(x, w) + "-" + ZeroPad(y, 2) + "-" + ZeroPad(z, 2)
  }

  /** `ts.strftime('%Y-%m-%d_%H-%M-%S')` */
  function FormatTimestamp(d: DateTime): (s: string)
    requires FieldsInRange(d)
  {
    Dashed(d.year, d.month, d.day, 4) + "_" + Dashed(d.hour, d.minute, d.second, 2)
  }

  predicate DigitsIn(s: string, lo: int, hi: int)
    requires 0 <= lo <= hi <= |s|
  {
    forall i :: lo <= i < hi ==> IsDigit(s[i])
  }

  /** Reads `%0wd-%02d-%02d` back. */
  function ParseDashed(s: string, w: nat): Option<(int, int, int)> {
    if |s| == w + 6 && s[w] == '-' && s[w + 3] == '-' &&
       DigitsIn(s, 0, w) && DigitsIn(s, w + 1, w + 3) && DigitsIn(s, w + 4, w + 6)
    then Some((DigitsValue(s[..w]), DigitsValue(s[w + 1..w + 3]), DigitsValue(s[w + 4..])))
    else None
  }

  /** Reads a `YYYY-MM-DD_HH-MM-SS` text back. */
  function ParseTimestamp(s: string): Option<DateTime> {
    if |s| == 19 && s[10] == '_' then
      var date := ParseDashed(s[..10], 4);
      var time := ParseDashed(s[11..], 2);
      if date.Some? && time.Some? then
        Some(DateTime(date.value.0, date.value.1, date.value.2, time.value.0, time.value.1, time.value.2))
      else None
    else None
  }

  /** A slice of a digit string is a digit string. */
  lemma DigitsInSlice(s: string, lo: int, hi: int, t: string, k: int)
    requires 0 <= k && k + |t| <= |s| && s[k..k + |t|] == t
    requires 0 <= lo <= hi <= |t| && DigitsIn(t, lo, hi)
    ensures DigitsIn(s, k + lo, k + hi)
  {
    forall i | k + lo <= i < k + hi ensures IsDigit(s[i]) { assert s[i] == t[i - k]; }
  }

  /** Three digit strings of widths `w`, 2 and 2 joined by `-` read back as their values. */
  lemma DashedParts(a: string, b: string, c: string, w: nat)
    requires |a| == w && |b| == 2 && |c| == 2
    requires DigitsIn(a, 0, w) && DigitsIn(b, 0, 2) && DigitsIn(c, 0, 2)
    ensures ParseDashed(a + "-" + b + "-" + c, w) == Some((DigitsValue(a), DigitsValue(b), DigitsValue(c)))
  {
    var s := a + "-" + b + "-" + c;
    assert s[..w] == a;
    assert s[w + 1..w + 3] == b;
    assert s[w + 4..] == c;
    DigitsInSlice(s, 0, w, a, 0);
    DigitsInSlice(s, 0, 2, b, w + 1);
    DigitsInSlice(s, 0, 2, c, w + 4);
  }

  /** `%0wd-%02d-%02d` reads back as the three fields when each fits its width. */
  lemma DashedRoundTrip(x: nat, y: nat, z: nat, w: nat)
    requires |NatToStr(x)| <= w && |NatToStr(y)| <= 2 && |NatToStr(z)| <= 2
    ensures |Dashed(x, y, z, w)| == w + 6
    ensures ParseDashed(Dashed(x, y, z, w), w) == Some((x, y, z))
  {
    ZeroPadValue(x, w);
    ZeroPadValue(y, 2);
    ZeroPadValue(z, 2);
    DashedParts(ZeroPad(x, w), ZeroPad(y, 2), ZeroPad(z, 2), w);
  }

  /** The timestamp text is 19 characters and determines the time: reading it back gives
      the fields printed. */
  lemma FormatRoundTrip(d: DateTime)
    requires FieldsInRange(d)
    ensures |FormatTimestamp(d)| == 19
    ensures ParseTimestamp(FormatTimestamp(d)) == Some(d)
  {
    NatToStrShort(d.year);
    NatToStrShort(d.month);
    NatToStrShort(d.day);
    NatToStrShort(d.hour);
    NatToStrShort(d.minute);
    NatToStrShort(d.second);
    DashedRoundTrip(d.year, d.month, d.day, 4);
    DashedRoundTrip(d.hour, d.minute, d.second, 2);
    var date, time := Dashed(d.year, d.month, d.day, 4), Dashed(d.hour, d.minute, d.second, 2);
    var s := FormatTimestamp(d);
    assert s[..10] == date;
    assert s[11..] == time;
  }

  /** Every character of the timestamp is a digit, `-` or `_`. */
  lemma TimestampChars(d: DateTime)
    requires FieldsInRange(d)
    ensures forall i :: 0 <= i < |FormatTimestamp(d)| ==>
      IsDigit(FormatTimestamp(d)[i]) || FormatTimestamp(d)[i] == '-' || FormatTimestamp(d)[i] == '_'
  {
    FormatRoundTrip(d);
    var s := FormatTimestamp(d);
    var date, time := s[..10], s[11..];
    assert ParseDashed(date, 4).Some? && ParseDashed(time, 2).Some?;
    forall i | 0 <= i < |s| ensures IsDigit(s[i]) || s[i] == '-' || s[i] == '_' {
      if i < 10 { assert s[i] == date[i]; }
      else if i > 10 { assert s[i] == time[i - 11]; }
    }
  }

  // ---------------------------------------------------------------------
  // Civil time from epoch seconds: the proleptic Gregorian calendar of `datetime`

  const DAYS_BEFORE_MONTH: seq<int> := [-1, 0, 31, 59, 90, 120, 151, 181, 212, 243, 273, 304, 334]
  const DAYS_IN_MONTH: seq<int> := [-1, 31, 28, 31, 30, 31, 30, 31, 31, 30, 31, 30, 31]

  predicate IsLeap(year: int) {
    year % 4 == 0 && (year % 100 != 0 || year % 400 == 0)
  }

  function DaysInMonth(year: int, month: int): int
    requires 1 <= month <= 12
  {
    if month == 2 && IsLeap(year) then 29 else DAYS_IN_MONTH[month]
  }

  /** A calendar date, and the month and day within a year. */
  datatype CivilDate = CivilDate(year: int, month: int, day: int)
  datatype MonthAndDay = MonthAndDay(month: int, day: int)

  /** The month and day of the `rest`-th day (from 0) of `year`, as `_ord2ymd` finds them:
      an estimate of the month from `(rest + 50) >> 5`, corrected by one when it overshoots. */
  function MonthDay(year: int, rest: int, leap: bool): (r: MonthAndDay)
    requires 0 <= rest < 365
    ensures 1 <= r.month <= 12 && 1 <= r.day <= 31
  {
    var month := (rest + 50) / 32;
    var preceding := DAYS_BEFORE_MONTH[month] + (if month > 2 && leap then 1 else 0);
    if preceding > rest then MonthAndDay(month - 1, rest - (preceding - DaysInMonth(year, month - 1)) + 1)
    else MonthAndDay(month, rest - preceding + 1)
  }

  /** `_ord2ymd`: year, month and day of the proleptic Gregorian ordinal `n` (1 is 0001-01-01),
      through the 400-, 100-, 4- and 1-year cycles. */
  function OrdinalToDate(n: int): (r: CivilDate)
    ensures 1 <= r.month <= 12 && 1 <= r.day <= 31
  {
    var n0 := n - 1;
    var n400 := n0 / 146097;
    var n1 := n0 % 146097;
    var n100 := n1 / 36524;
    var n2 := n1 % 36524;
    var n4 := n2 / 1461;
    var n3 := n2 % 1461;
    var y1 := n3 / 365;
    var year := n400 * 400 + 1 + n100 * 100 + n4 * 4 + y1;
    if y1 == 4 || n100 == 4 then CivilDate(year - 1, 12, 31)
    else
      var md := MonthDay(year, n3 % 365, y1 == 3 && (n4 != 24 || n100 == 3));
      CivilDate(year, md.month, md.day)
  }

  /** The ordinal of 1970-01-01. */
  const EPOCH_ORDINAL := 719163

  /** The calendar fields of an instant. */
  function FromEpoch(t: int): (d: DateTime)
    ensures 1 <= d.month <= 12 && 1 <= d.day <= 31
    ensures 0 <= d.hour < 24 && 0 <= d.minute < 60 && 0 <= d.second < 60
  {
    var date := OrdinalToDate(t / 86400 + EPOCH_ORDINAL);
    var secs := t % 86400;
    DateTime(date.year, date.month, date.day, secs / 3600, secs % 3600 / 60, secs % 60)
  }

  /** The days of `year` before the first of `month`, month by month. */
  function DaysBeforeMonth(year: int, month: int): int
    requires 1 <= month <= 12
  {
    if month == 1 then 0 else DaysBeforeMonth(year, month - 1) + DaysInMonth(year, month - 1)
  }

  /** `_days_before_year`: the days from 0001-01-01 to the first of `year`. */
  function DaysBeforeYear(year: int): int {
    var y := year - 1;
    y * 365 + y / 4 - y / 100 + y / 400
  }

  /** `_ymd2ord`: the proleptic Gregorian ordinal of a date, counted forwards. */
  function Ordinal(year: int, month: int, day: int): int
    requires 1 <= month <= 12
  {
    DaysBeforeYear(year) + DaysBeforeMonth(year, month) + day
  }

  /** The month sums agree with the table `MonthDay` reads. */
  lemma DaysBeforeMonthTable(year: int, month: int)
    requires 1 <= month <= 12
    ensures DaysBeforeMonth(year, month) == DAYS_BEFORE_MONTH[month] + if month > 2 && IsLeap(year) then 1 else 0
  {
    if month > 1 {
      DaysBeforeMonthTable(year, month - 1);
    }
  }

  /** `MonthDay` finds the month holding day `rest` of the year and the day within it. */
  lemma MonthDaySpec(year: int, rest: int)
    requires 0 <= rest < 365
    ensures var md := MonthDay(year, rest, IsLeap(year));
      1 <= md.day <= DaysInMonth(year, md.month) && DaysBeforeMonth(year, md.month) + md.day - 1 == rest
  {
    var md := MonthDay(year, rest, IsLeap(year));
    var month := (rest + 50) / 32;
    DaysBeforeMonthTable(year, month);
    if month > 1 {
      DaysBeforeMonthTable(year, month - 1);
    }
    DaysBeforeMonthTable(year, md.month);
  }

  /** The days before year `400a + 100b + 4c + e + 1`, cycle by cycle. */
  lemma DaysBeforeYearCycles(a: int, b: int, c: int, e: int)
    requires 0 <= b <= 3 && 0 <= c <= 24 && 0 <= e <= 3
    ensures DaysBeforeYear(400 * a + 100 * b + 4 * c + e + 1) == 146097 * a + 36524 * b + 1461 * c + 365 * e
  {
    var y := 400 * a + 100 * b + 4 * c + e;
    assert y / 4 == 100 * a + 25 * b + c;
    assert y / 100 == 4 * a + b;
    assert y / 400 == a;
  }

  /** Which years of the cycles are leap years. */
  lemma LeapCycles(a: int, b: int, c: int, e: int)
    requires 0 <= b <= 3 && 0 <= c <= 24 && 0 <= e <= 3
    ensures IsLeap(400 * a + 100 * b + 4 * c + e + 1) <==> e == 3 && (c != 24 || b == 3)
  {
    var year := 400 * a + 100 * b + 4 * c + e + 1;
    assert year == 4 * (100 * a + 25 * b + c) + e + 1;
    assert year == 100 * (4 * a + b) + 4 * c + e + 1;
    assert year == 400 * a + 100 * b + 4 * c + e + 1;
  }

  /** `_ord2ymd` inverts `_ymd2ord`: every ordinal names a valid date whose ordinal it is. */
  lemma OrdinalToDateSpec(n: int)
    ensures ValidOrdinalDate(OrdinalToDate(n), n)
  {
    if (n - 1) % 146097 / 36524 == 4 {
      OrdinalCycleEnd(n);
    } else if (n - 1) % 146097 % 36524 % 1461 / 365 == 4 {
      OrdinalQuadEnd(n);
    } else {
      OrdinalInYear(n);
    }
  }

  /** The ordinal of the last day of a 400-year cycle. */
  lemma OrdinalCycleEnd(n: int)
    requires (n - 1) % 146097 / 36524 == 4
    ensures ValidOrdinalDate(OrdinalToDate(n), n)
  {
    var a := (n - 1) / 146097;
    assert n - 1 == 146097 * a + 146096;
    assert OrdinalToDate(n) == CivilDate(400 * a + 400, 12, 31);
    CycleEnd(a, n);
  }

  /** The ordinal of the last day of a 4-year cycle that does not end a 400-year cycle. */
  lemma OrdinalQuadEnd(n: int)
    requires (n - 1) % 146097 / 36524 != 4
    requires (n - 1) % 146097 % 36524 % 1461 / 365 == 4
    ensures ValidOrdinalDate(OrdinalToDate(n), n)
  {
    var n0 := n - 1;
    var a, n1 := n0 / 146097, n0 % 146097;
    var b, n2 := n1 / 36524, n1 % 36524;
    var c, n3 := n2 / 1461, n2 % 1461;
    assert n3 == 1460 && c <= 23;
    assert n0 == 146097 * a + 36524 * b + 1461 * c + 1460;
    assert OrdinalToDate(n) == CivilDate(400 * a + 100 * b + 4 * c + 4, 12, 31);
    QuadEnd(a, b, c, n);
  }

  /** Any other ordinal falls on day `rest` of a year that it does not leave. */
  lemma OrdinalInYear(n: int)
    requires (n - 1) % 146097 / 36524 != 4
    requires (n - 1) % 146097 % 36524 % 1461 / 365 != 4
    ensures ValidOrdinalDate(OrdinalToDate(n), n)
  {
    var n0 := n - 1;
    var a, n1 := n0 / 146097, n0 % 146097;
    var b, n2 := n1 / 36524, n1 % 36524;
    var c, n3 := n2 / 1461, n2 % 1461;
    var e, rest := n3 / 365, n3 % 365;
    assert n0 == 146097 * a + 36524 * b + 1461 * c + 365 * e + rest;
    var year := 400 * a + 100 * b + 4 * c + e + 1;
    LeapCycles(a, b, c, e);
    var md := MonthDay(year, rest, IsLeap(year));
    assert OrdinalToDate(n) == CivilDate(year, md.month, md.day);
    YearDay(a, b, c, e, rest, n);
  }

  /** `r` is a valid date and `n` its ordinal. */
  predicate ValidOrdinalDate(r: CivilDate, n: int) {
    1 <= r.month <= 12 && 1 <= r.day <= DaysInMonth(r.year, r.month) && Ordinal(r.year, r.month, r.day) == n
  }

  /** Day `rest` of year `400a + 100b + 4c + e + 1` is a valid date with the ordinal that
      counts those cycles and days. */
  lemma YearDay(a: int, b: int, c: int, e: int, rest: int, n: int)
    requires 0 <= b <= 3 && 0 <= c <= 24 && 0 <= e <= 3 && 0 <= rest < 365
    requires n == 146097 * a + 36524 * b + 1461 * c + 365 * e + rest + 1
    ensures var year := 400 * a + 100 * b + 4 * c + e + 1;
      var md := MonthDay(year, rest, IsLeap(year));
      ValidOrdinalDate(CivilDate(year, md.month, md.day), n)
  {
    var year := 400 * a + 100 * b + 4 * c + e + 1;
    DaysBeforeYearCycles(a, b, c, e);
    MonthDaySpec(year, rest);
  }

  /** The last day of a 400-year cycle is December 31 of a leap year. */
  lemma CycleEnd(a: int, n: int)
    requires n == 146097 * a + 146097
    ensures ValidOrdinalDate(CivilDate(400 * a + 400, 12, 31), n)
  {
    DaysBeforeYearCycles(a, 3, 24, 3);
    LeapCycles(a, 3, 24, 3);
    DaysBeforeMonthTable(400 * a + 400, 12);
  }

  /** The last day of a 4-year cycle that is not the end of a century is December 31 of a
      leap year. */
  lemma QuadEnd(a: int, b: int, c: int, n: int)
    requires 0 <= b <= 3 && 0 <= c <= 23 && n == 146097 * a + 36524 * b + 1461 * c + 1461
    ensures ValidOrdinalDate(CivilDate(400 * a + 100 * b + 4 * c + 4, 12, 31), n)
  {
    DaysBeforeYearCycles(a, b, c, 3);
    LeapCycles(a, b, c, 3);
    DaysBeforeMonthTable(400 * a + 100 * b + 4 * c + 4, 12);
  }

  /** A second of the day is its hours, minutes and seconds. */
  lemma DaySeconds(secs: int)
    requires 0 <= secs < 86400
    ensures secs / 3600 * 3600 + secs % 3600 / 60 * 60 + secs % 60 == secs
  {
    var h, r := secs / 3600, secs % 3600;
    assert secs == h * 3600 + r;
    assert r == r / 60 * 60 + r % 60;
  }

  /** The ordinal of the epoch date. */
  lemma EpochOrdinal()
    ensures Ordinal(1970, 1, 1) == EPOCH_ORDINAL
  {
  }

  /** `utcfromtimestamp` inverted: the fields name a valid date, and counting its days and
      seconds from 1970-01-01 00:00:00 gives back the instant. */
  lemma FromEpochSpec(t: int)
    ensures var d := FromEpoch(t);
      && 1 <= d.day <= DaysInMonth(d.year, d.month)
      && (Ordinal(d.year, d.month, d.day) - Ordinal(1970, 1, 1)) * 86400
         + d.hour * 3600 + d.minute * 60 + d.second == t
  {
    var q, secs := t / 86400, t % 86400;
    assert t == q * 86400 + secs;
    var r := OrdinalToDate(q + EPOCH_ORDINAL);
    var d := FromEpoch(t);
    assert d == DateTime(r.year, r.month, r.day, secs / 3600, secs % 3600 / 60, secs % 60);
    OrdinalToDateSpec(q + EPOCH_ORDINAL);
    EpochOrdinal();
    DaySeconds(secs);
    assert Ordinal(d.year, d.month, d.day) - Ordinal(1970, 1, 1) == q;
  }

  /** The epoch itself is 1970-01-01 00:00:00. */
  lemma FromEpochAtEpoch()
    ensures FromEpoch(0) == DateTime(1970, 1, 1, 0, 0, 0)
  {
    assert 719162 / 146097 == 4 && 719162 % 146097 == 134774;
    assert 134774 / 36524 == 3 && 134774 % 36524 == 25202;
    assert 25202 / 1461 == 17 && 25202 % 1461 == 365;
    assert 365 / 365 == 1 && 365 % 365 == 0;
    assert MonthDay(1970, 0, false) == MonthAndDay(1, 1);
  }

  /** 2024 is a leap year: its day 60 is February 29. */
  lemma FromEpochLeapDay()
    ensures FromEpoch(1709164800) == DateTime(2024, 2, 29, 0, 0, 0)
  {
    assert 1709164800 / 86400 == 19782 && 1709164800 % 86400 == 0;
    assert 738944 / 146097 == 5 && 738944 % 146097 == 8459;
    assert 8459 / 36524 == 0 && 8459 % 36524 == 8459;
    assert 8459 / 1461 == 5 && 8459 % 1461 == 1154;
    assert 1154 / 365 == 3 && 1154 % 365 == 59;
    assert MonthDay(2024, 59, true) == MonthAndDay(2, 29);
  }

  /** The last second of 2025. */
  lemma FromEpochYearEnd()
    ensures FromEpoch(1767225599) == DateTime(2025, 12, 31, 23, 59, 59)
  {
    assert 1767225599 / 86400 == 20453 && 1767225599 % 86400 == 86399;
    assert 739615 / 146097 == 5 && 739615 % 146097 == 9130;
    assert 9130 / 36524 == 0 && 9130 % 36524 == 9130;
    assert 9130 / 1461 == 6 && 9130 % 1461 == 364;
    assert 364 / 365 == 0 && 364 % 365 == 364;
    assert MonthDay(2025, 364, false) == MonthAndDay(12, 31);
  }

  // ---------------------------------------------------------------------
  // Time-zone preferences

  const TZ_VAR := "HINDSIGHT_TZ_SPEC"
  const DST_VAR := "HINDSIGHT_DST_ADJUST"

  /** `os.environ.get("HINDSIGHT_TZ_SPEC", "UTC").strip().upper()` */
  function TzSpec(env: map<string, string>): string {
    Upper(Strip(EnvGet(env, TZ_VAR, "UTC")))
  }

  /** `os.environ.get("HINDSIGHT_DST_ADJUST", "0") in {"1", "TRUE", "YES", "Y"}`: case-sensitive. */
  predicate DstAdjust(env: map<string, string>) {
    EnvGet(env, DST_VAR, "0") in {"1", "TRUE", "YES", "Y"}
  }

  /** `re.match(r"^[+-]\d{4}$", spec)` over ASCII digits. */
  predicate IsFixedOffset(spec: string) {
    |spec| == 5 && (spec[0] == '+' || spec[0] == '-') && DigitsIn(spec, 1, 5)
  }

  /** Minutes east of UTC for a `±HHMM` spec, one hour more under DST. */
  function OffsetMinutes(spec: string, dst: bool): int
    requires IsFixedOffset(spec)
  {
    var sign := if spec[0] == '-' then -1 else 1;
    var total := sign * (DigitsValue(spec[1..3]) * 60 + DigitsValue(spec[3..5]));
    if dst then total + 60 else total
  }

  /** `_current_time_with_prefs` once the spec and the DST flag are read: the wall-clock
      instant; `localWall` is what the system zone makes of the current instant. */
  function WallClockFor(spec: string, dst: bool, nowUtc: int, localWall: int): int {
    var dstHour := if dst then 3600 else 0;
    if spec == "UTC" then nowUtc + dstHour
    else if spec == "LOCAL" then localWall + dstHour
    else if IsFixedOffset(spec) then nowUtc + 60 * OffsetMinutes(spec, dst)
    else nowUtc + dstHour
  }

  /** `_current_time_with_prefs` */
  function WallClock(env: map<string, string>, nowUtc: int, localWall: int): int {
    WallClockFor(TzSpec(env), DstAdjust(env), nowUtc, localWall)
  }

  /** `UTC`, any spec that is neither `LOCAL` nor `±HHMM`, and `+0000` all mean UTC
      (plus one hour under DST). */
  lemma UtcFallback(spec: string, dst: bool, nowUtc: int, localWall: int)
    requires spec != "LOCAL" && (!IsFixedOffset(spec) || spec == "+0000")
    ensures WallClockFor(spec, dst, nowUtc, localWall) == nowUtc + (if dst then 3600 else 0)
  {
    if spec == "+0000" {
      assert spec[1..3] == "00" && spec[3..5] == "00";
      assert DigitsValue("00") == 0 by { assert "00"[..1] == "0"; assert "0"[..0] == []; }
    }
  }

  /** `LOCAL` follows the system zone and ignores the UTC instant. */
  lemma LocalFollowsSystem(dst: bool, now1: int, now2: int, localWall: int)
    ensures WallClockFor("LOCAL", dst, now1, localWall) == WallClockFor("LOCAL", dst, now2, localWall)
    ensures WallClockFor("LOCAL", dst, now1, localWall) == localWall + (if dst then 3600 else 0)
  {
  }

  /** A fixed offset is `sign * (HH * 60 + MM)` minutes, so `-HHMM` mirrors `+HHMM`,
      and DST moves the wall clock one hour further east. */
  lemma OffsetLaws(digits: string)
    requires |digits| == 4 && DigitsIn(digits, 0, 4)
    ensures IsFixedOffset("+" + digits) && IsFixedOffset("-" + digits)
    ensures OffsetMinutes("+" + digits, false) == DigitsValue(digits[0..2]) * 60 + DigitsValue(digits[2..4])
    ensures OffsetMinutes("-" + digits, false) == -OffsetMinutes("+" + digits, false)
    ensures OffsetMinutes("+" + digits, true) == OffsetMinutes("+" + digits, false) + 60
    ensures OffsetMinutes("-" + digits, true) == OffsetMinutes("-" + digits, false) + 60
  {
    assert ("+" + digits)[1..3] == digits[0..2] && ("+" + digits)[3..5] == digits[2..4];
    assert ("-" + digits)[1..3] == digits[0..2] && ("-" + digits)[3..5] == digits[2..4];
  }

  /** Upper-casing leaves no lower-case letter and keeps whitespace at the edges as it is. */
  lemma UpperShape(t: string)
    ensures forall i :: 0 <= i < |Upper(t)| ==> !IsLower(Upper(t)[i])
    ensures t != [] ==> (IsSpace(Upper(t)[0]) <==> IsSpace(t[0])) &&
                        (IsSpace(Upper(t)[|t| - 1]) <==> IsSpace(t[|t| - 1]))
  {
  }

  /** `+0200` at 12:00Z reads 14:00, and 15:00 under DST. */
  lemma OffsetExample(noon: int)
    ensures WallClockFor("+0200", false, noon, 0) == noon + 2 * 3600
    ensures WallClockFor("+0200", true, noon, 0) == noon + 3 * 3600
  {
    OffsetLaws("0200");
    assert "+" + "0200" == "+0200";
    assert "0200"[0..2] == "02" && "0200"[2..4] == "00";
    assert DigitsValue("02") == 2 by { assert "02"[..1] == "0"; assert "0"[..0] == []; }
    assert DigitsValue("00") == 0 by { assert "00"[..1] == "0"; assert "0"[..0] == []; }
  }

  /** The DST flag is case-sensitive: `true` does not turn it on, `TRUE` does. */
  lemma DstCaseSensitive(env: map<string, string>)
    ensures DstAdjust(env[DST_VAR := "TRUE"]) && DstAdjust(env[DST_VAR := "Y"])
    ensures !DstAdjust(env[DST_VAR := "true"]) && !DstAdjust(env[DST_VAR := "on"])
    ensures DST_VAR !in env ==> !DstAdjust(env)
  {
  }

  /** The spec is read trimmed and upper-cased, so it never has surrounding whitespace
      or a lower-case letter. */
  lemma SpecNormalised(env: map<string, string>)
    ensures var spec := TzSpec(env);
      forall i :: 0 <= i < |spec| ==> !IsLower(spec[i])
    ensures var spec := TzSpec(env);
      spec == [] || (!IsSpace(spec[0]) && !IsSpace(spec[|spec| - 1]))
  {
    UpperShape(Strip(EnvGet(env, TZ_VAR, "UTC")));
  }

  // ---------------------------------------------------------------------
  // File name

  /** The name before the `\n`/`\r` removal. */
  function RawFilename(title: string, d: DateTime): string
    requires FieldsInRange(d)
  {
    SanitizeTitle(title) + "_" + FormatTimestamp(d) + ".png"
  }

  /** The instant a file name is stamped with: the given one, else the preferred wall clock. */
  function StampOf(ts: Option<DateTime>, env: map<string, string>, nowUtc: int, localWall: int): DateTime {
    if ts.Some? then ts.value else FromEpoch(WallClock(env, nowUtc, localWall))
  }

  /** `.replace("\n", "").replace("\r", "")` */
  function DropLineBreaks(name: string): (r: string)
    ensures '\n' !in r && '\r' !in r
    ensures '\n' !in name && '\r' !in name ==> r == name
  {
    RemoveChar(RemoveChar(name, '\n'), '\r')
  }

  /** `generate_filename(window_title, ts)`; the clock and the environment are parameters.
      `None` stands for the `OverflowError` of a wall clock outside the years 1 to 9999. */
  function GenerateFilename(title: string, ts: Option<DateTime>, env: map<string, string>,
                            nowUtc: int, localWall: int): (r: Option<string>)
    ensures r.Some? <==> FieldsInRange(StampOf(ts, env, nowUtc, localWall))
    ensures r.Some? ==> '\n' !in r.value && '\r' !in r.value
  {
    var d := StampOf(ts, env, nowUtc, localWall);
    if FieldsInRange(d) then Some(DropLineBreaks(RawFilename(title, d))) else None
  }

  /** The wall clock's fields are always a valid date and time, so only a year outside 1 to
      9999 (the `OverflowError`) leaves the clock path without a name. */
  lemma ClockStampInRange(t: int)
    ensures FieldsInRange(FromEpoch(t)) <==> 1 <= FromEpoch(t).year <= 9999
  {
    FromEpochSpec(t);
  }

  /** A title, `_` and a timestamp make a stem of title characters and `-`, without a line break. */
  lemma StemCharsOf(t: string, f: string)
    requires AllTitleChars(t)
    requires forall i :: 0 <= i < |f| ==> IsDigit(f[i]) || f[i] == '-' || f[i] == '_'
    ensures var stem := t + "_" + f;
      (forall i :: 0 <= i < |stem| ==> TitleChar(stem[i]) || stem[i] == '-') &&
      '\n' !in stem + ".png" && '\r' !in stem + ".png"
  {
    var stem := t + "_" + f;
    forall i | 0 <= i < |stem| ensures TitleChar(stem[i]) || stem[i] == '-' {
      if i < |t| { assert stem[i] == t[i]; }
      else if i == |t| { assert stem[i] == '_'; }
      else { assert stem[i] == f[i - |t| - 1]; }
    }
    assert '\n' !in stem && '\r' !in stem by {
      forall i | 0 <= i < |stem| ensures stem[i] != '\n' && stem[i] != '\r' {
        assert TitleChar(stem[i]) || stem[i] == '-';
      }
    }
  }

  /** The stem of a file name holds only title characters and the timestamp's `-` and `_`,
      in particular no `.`, so `.png` is the only extension. */
  lemma StemChars(title: string, d: DateTime)
    requires FieldsInRange(d)
    ensures var stem := SanitizeTitle(title) + "_" + FormatTimestamp(d);
      RawFilename(title, d) == stem + ".png" &&
      forall i :: 0 <= i < |stem| ==> TitleChar(stem[i]) || stem[i] == '-'
  {
    SanitizeTitleShape(title);
    TimestampChars(d);
    StemCharsOf(SanitizeTitle(title), FormatTimestamp(d));
  }

  /** The raw name holds no line break, so the removal in `generate_filename` changes nothing. */
  lemma RemovalIsNoOp(title: string, d: DateTime)
    requires FieldsInRange(d)
    ensures '\n' !in RawFilename(title, d) && '\r' !in RawFilename(title, d)
  {
    SanitizeTitleShape(title);
    TimestampChars(d);
    StemCharsOf(SanitizeTitle(title), FormatTimestamp(d));
  }

  /** Every file name has the shape `<title>_<YYYY-MM-DD_HH-MM-SS>.png`: the sanitised title
      (`[A-Za-z0-9_]`, no `__`, no leading `_`, at most 80 long), then the stamp. */
  lemma FilenameShape(title: string, ts: Option<DateTime>, env: map<string, string>, nowUtc: int, localWall: int)
    requires GenerateFilename(title, ts, env, nowUtc, localWall).Some?
    ensures var d := StampOf(ts, env, nowUtc, localWall);
      FieldsInRange(d) &&
      GenerateFilename(title, ts, env, nowUtc, localWall).value == SanitizeTitle(title) + "_" + FormatTimestamp(d) + ".png"
  {
    RemovalIsNoOp(title, StampOf(ts, env, nowUtc, localWall));
  }

  /** An explicit timestamp wins over the environment and the clock. */
  lemma ExplicitTimestampWins(title: string, d: DateTime, env1: map<string, string>, env2: map<string, string>,
                              now1: int, now2: int, local1: int, local2: int)
    requires FieldsInRange(d)
    ensures GenerateFilename(title, Some(d), env1, now1, local1) == GenerateFilename(title, Some(d), env2, now2, local2)
    ensures GenerateFilename(title, Some(d), env1, now1, local1).Some?
  {
  }
}
