/** The active-window helpers of `capture/active_window.py`: the parser of
    `xdotool getwindowgeometry` output, the window-detection fallbacks, the backend chosen
    at module load, and the capture retry loop whose failure counter and one-way switch
    from `mss` to `imagegrab` are the module's state. The display, the subprocesses and the
    image libraries are not modelled: what they answer is passed in. */
module ActiveWindow {
  import opened PyStr

  /** `(left, top, width, height)` */
  datatype Rect = Rect(left: int, top: int, width: int, height: int)

  // ---------------------------------------------------------------------
  // Geometry parsing

  /** The four variables `left`, `top`, `width`, `height` while the lines are read;
      `None` until a line assigns them. */
  datatype Fields = Fields(left: Option<int>, top: Option<int>, width: Option<int>, height: Option<int>)

  const UNSET := Fields(None, None, None, None)

  /** Where reading the lines stands: the variables so far, or the exception that ended
      it. `ValueError` is caught by the function; `IndexError` is not. */
  datatype Reading = Reading(fields: Fields) | ValueFailed | IndexFailed

  /** The `Position: x,y` branch, given the words of the stripped line. */
  function ReadPosition(f: Fields, words: seq<string>): (r: Reading)
    ensures r.Reading? ==> r.fields.width == f.width && r.fields.height == f.height &&
                           r.fields.left.Some? && r.fields.top.Some?
  {
    if |words| < 2 then IndexFailed
    else
      var xy := Split(words[1], ',');
      match ParseInt(xy[0])
      case None => ValueFailed
      case Some(x) =>
        if |xy| < 2 then IndexFailed
        else
          match ParseInt(xy[1])
          case None => ValueFailed
          case Some(y) => Reading(f.(left := Some(x), top := Some(y)))
  }

  /** The `Geometry: WxH` branch: unpacking `split("x")` into two names needs exactly two parts. */
  function ReadSize(f: Fields, words: seq<string>): (r: Reading)
    ensures r.Reading? ==> r.fields.left == f.left && r.fields.top == f.top &&
                           r.fields.width.Some? && r.fields.height.Some?
  {
    if |words| < 2 then IndexFailed
    else
      var wh := Split(words[1], 'x');
      if |wh| != 2 then ValueFailed
      else
        match ParseInt(wh[0])
        case None => ValueFailed
        case Some(w) =>
          match ParseInt(wh[1])
          case None => ValueFailed
          case Some(h) => Reading(f.(width := Some(w), height := Some(h)))
  }

  const POSITION_KEY := "Position:"
  const GEOMETRY_KEY := "Geometry:"

  /** One pass of the loop body over a raw line. */
  function ReadLine(f: Fields, line: string): (r: Reading)
    ensures r.Reading? && !StartsWith(Strip(line), POSITION_KEY) && !StartsWith(Strip(line), GEOMETRY_KEY)
            ==> r.fields == f
  {
    var l := Strip(line);
    if StartsWith(l, POSITION_KEY) then ReadPosition(f, SplitWs(l))
    else if StartsWith(l, GEOMETRY_KEY) then ReadSize(f, SplitWs(l))
    else Reading(f)
  }

  /** The loop over `splitlines()`, from the unset variables, stopping at the first exception. */
  function ReadLines(lines: seq<string>): (r: Reading)
    decreases |lines|
  {
    if lines == [] then Reading(UNSET)
    else
      match ReadLines(lines[..|lines| - 1])
      case Reading(f) => ReadLine(f, lines[|lines| - 1])
      case ValueFailed => ValueFailed
      case IndexFailed => IndexFailed
  }

  /** What the parse gives: a rectangle, `None` (a field missing or a `ValueError`), or an
      `IndexError` that escapes the function. */
  datatype Geometry = Found(rect: Rect) | Missing | Raises

  /** The parse of `getwindowgeometry` output as a function of the text. */
  function GeometryOf(geomRaw: string): Geometry {
    match ReadLines(SplitLines(geomRaw))
    case Reading(f) =>
      if f.left.Some? && f.top.Some? && f.width.Some? && f.height.Some? then
        Found(Rect(f.left.value, f.top.value, f.width.value, f.height.value))
      else Missing
    case ValueFailed => Missing
    case IndexFailed => Raises
  }

  /** Once reading has failed on a prefix, the whole loop ends with that exception. */
  lemma {:induction false} FailureSticks(lines: seq<string>, i: nat)
    requires i <= |lines| && !ReadLines(lines[..i]).Reading?
    ensures ReadLines(lines) == ReadLines(lines[..i])
    decreases |lines| - i
  {
    if i < |lines| {
      assert lines[..i + 1][..i] == lines[..i];
      FailureSticks(lines, i + 1);
    } else {
      assert lines[..i] == lines;
    }
  }

  /** The `Position:` branch of the loop body, over the words of the stripped line. */
  method PositionLine(f: Fields, words: seq<string>) returns (r: Reading)
    ensures r == ReadPosition(f, words)
  {
    if |words| < 2 { return IndexFailed; }
    var xy := Split(words[1], ',');
    var x := ParseInt(xy[0]);
    if x.None? { return ValueFailed; }
    if |xy| < 2 { return IndexFailed; }
    var y := ParseInt(xy[1]);
    if y.None? { return ValueFailed; }
    return Reading(f.(left := x, top := y));
  }

  /** The `Geometry:` branch of the loop body. */
  method SizeLine(f: Fields, words: seq<string>) returns (r: Reading)
    ensures r == ReadSize(f, words)
  {
    if |words| < 2 { return IndexFailed; }
    var wh := Split(words[1], 'x');
    if |wh| != 2 { return ValueFailed; }
    var w := ParseInt(wh[0]);
    if w.None? { return ValueFailed; }
    var h := ParseInt(wh[1]);
    if h.None? { return ValueFailed; }
    return Reading(f.(width := w, height := h));
  }

  /** The loop body: strip the line, then the `Position:` or `Geometry:` branch. */
  method LineStep(f: Fields, rawLine: string) returns (r: Reading)
    ensures r == ReadLine(f, rawLine)
  {
    var line := Strip(rawLine);
    r := Reading(f);
    if StartsWith(line, POSITION_KEY) {
      r := PositionLine(f, SplitWs(line));
    } else if StartsWith(line, GEOMETRY_KEY) {
      r := SizeLine(f, SplitWs(line));
    }
  }

  /** One more line read after a prefix that raised nothing. */
  lemma ReadLinesStep(lines: seq<string>, i: nat, f: Fields)
    requires i < |lines| && ReadLines(lines[..i]) == Reading(f)
    ensures ReadLines(lines[..i + 1]) == ReadLine(f, lines[i])
  {
    assert lines[..i + 1][..i] == lines[..i];
  }

  /** The loop of `_linux_active_window` over the lines of the geometry text: each line
      assigns some of the four variables, and an exception ends the loop. */
  method ReadAll(lines: seq<string>) returns (r: Reading)
    ensures r == ReadLines(lines)
  {
    var f := UNSET;
    var i := 0;
    while i < |lines|
      invariant i <= |lines|
      invariant ReadLines(lines[..i]) == Reading(f)
    {
      r := LineStep(f, lines[i]);
      ReadLinesStep(lines, i, f);
      if !r.Reading? {
        FailureSticks(lines, i + 1);
        return;
      }
      f := r.fields;
      i := i + 1;
    }
    assert lines[..i] == lines;
    return Reading(f);
  }

  /** The geometry parse inside `_linux_active_window`: the loop over `splitlines()`,
      then the check that none of the four variables is missing. */
  method ParseGeometry(geomRaw: string) returns (g: Geometry)
    ensures g == GeometryOf(geomRaw)
  {
    var r := ReadAll(SplitLines(geomRaw));
    match r
    case ValueFailed => return Missing;
    case IndexFailed => return Raises;
    case Reading(f) =>
      if f.left.None? || f.top.None? || f.width.None? || f.height.None? {
        return Missing;
      }
      return Found(Rect(f.left.value, f.top.value, f.width.value, f.height.value));
  }

  // ---------------------------------------------------------------------
  // What the parser accepts

  /** The text `xdotool getwindowgeometry` prints for a window: a header line, then the
      indented position and size lines. */
  function XdotoolText(id: nat, r: Rect): string {
    HeaderText(id) + "\n" + PositionText(r.left, r.top) + "\n" + SizeText(r.width, r.height) + "\n"
  }

  function HeaderText(id: nat): string {
    "Window " + NatToStr(id)
  }

  function PositionText(x: int, y: int): string {
    "  " + POSITION_KEY + " " + (IntToStr(x) + "," + IntToStr(y)) + " (screen: 0)"
  }

  function SizeText(w: int, h: int): string {
    "  " + GEOMETRY_KEY + " " + (IntToStr(w) + "x" + IntToStr(h))
  }

  /** The two keys hold no whitespace, and neither is a prefix of a line with the other. */
  lemma KeysShape()
    ensures forall k :: 0 <= k < |POSITION_KEY| ==> !IsSpace(POSITION_KEY[k])
    ensures forall k :: 0 <= k < |GEOMETRY_KEY| ==> !IsSpace(GEOMETRY_KEY[k])
    ensures POSITION_KEY[0] == 'P' && GEOMETRY_KEY[0] == 'G'
    ensures POSITION_KEY[|POSITION_KEY| - 1] == ':' && GEOMETRY_KEY[|GEOMETRY_KEY| - 1] == ':'
  {
  }

  /** `str(a) + sep + str(b)` splits at `sep` into the two numbers, for a separator that
      is neither a digit nor `-`. */
  lemma SplitNumbers(a: int, b: int, sep: char)
    requires !IsDigit(sep) && sep != '-'
    ensures Split(IntToStr(a) + [sep] + IntToStr(b), sep) == [IntToStr(a), IntToStr(b)]
  {
    IntToStrChars(a);
    IntToStrChars(b);
    SplitAtSep(IntToStr(a), IntToStr(b), sep);
    SplitNoSep(IntToStr(b), sep);
  }

  /** The two numbers joined by a non-space separator form one word. */
  lemma NumbersNoSpace(a: int, b: int, sep: char)
    requires !IsSpace(sep)
    ensures var t := IntToStr(a) + [sep] + IntToStr(b);
      t != [] && !IsSpace(t[|t| - 1]) && forall k :: 0 <= k < |t| ==> !IsSpace(t[k])
  {
    IntToStrChars(a);
    IntToStrChars(b);
  }

  /** A keyed line `"  " + key + " " + word + tail` strips to `key + " " + word + tail`. */
  lemma KeyedStrip(key: string, word: string, tail: string)
    requires key != [] && !IsSpace(key[0])
    requires word != [] && !IsSpace(word[|word| - 1])
    requires tail == [] || !IsSpace(tail[|tail| - 1])
    ensures Strip("  " + key + " " + word + tail) == key + " " + word + tail
  {
    var core := key + " " + word + tail;
    assert core[0] == key[0];
    assert core[|core| - 1] == if tail == [] then word[|word| - 1] else tail[|tail| - 1];
    assert "  " + key + " " + word + tail == "  " + core + "";
    StripPadded("  ", core, "");
  }

  /** The words of `key + " " + word + tail` begin with `key` and `word`. */
  lemma KeyedWords(key: string, word: string, tail: string)
    requires key != [] && forall k :: 0 <= k < |key| ==> !IsSpace(key[k])
    requires word != [] && forall k :: 0 <= k < |word| ==> !IsSpace(word[k])
    requires tail == [] || IsSpace(tail[0])
    ensures var core := key + " " + word + tail;
      StartsWith(core, key) && |SplitWs(core)| >= 2 && SplitWs(core)[1] == word
  {
    var core := key + " " + word + tail;
    assert core[..|key|] == key;
    assert core == key + (" " + word + tail);
    SplitWsHead(key, " " + word + tail);
    SplitWsWord(" ", word, tail);
  }

  lemma PositionTextReads(f: Fields, x: int, y: int)
    ensures ReadLine(f, PositionText(x, y)) == Reading(f.(left := Some(x), top := Some(y)))
  {
    var xy := IntToStr(x) + "," + IntToStr(y);
    KeysShape();
    NumbersNoSpace(x, y, ',');
    assert IsSpace(" (screen: 0)"[0]) && " (screen: 0)"[11] == ')';
    KeyedStrip(POSITION_KEY, xy, " (screen: 0)");
    KeyedWords(POSITION_KEY, xy, " (screen: 0)");
    SplitNumbers(x, y, ',');
    ParseIntToStr(x);
    ParseIntToStr(y);
  }

  lemma SizeTextReads(f: Fields, w: int, h: int)
    ensures ReadLine(f, SizeText(w, h)) == Reading(f.(width := Some(w), height := Some(h)))
  {
    var wh := IntToStr(w) + "x" + IntToStr(h);
    var core := GEOMETRY_KEY + " " + wh;
    KeysShape();
    NumbersNoSpace(w, h, 'x');
    assert SizeText(w, h) == "  " + GEOMETRY_KEY + " " + wh + "";
    assert core + "" == core;
    KeyedStrip(GEOMETRY_KEY, wh, "");
    KeyedWords(GEOMETRY_KEY, wh, "");
    assert Strip(SizeText(w, h)) == core;
    assert !StartsWith(core, POSITION_KEY) by {
      assert core[0] == 'G';
    }
    assert StartsWith(core, GEOMETRY_KEY);
    assert ReadLine(f, SizeText(w, h)) == ReadSize(f, SplitWs(core));
    SplitNumbers(w, h, 'x');
    ParseIntToStr(w);
    ParseIntToStr(h);
  }

  lemma HeaderReads(f: Fields, id: nat)
    ensures ReadLine(f, HeaderText(id)) == Reading(f)
  {
    var line := HeaderText(id);
    StripNoEdgeSpace(line);
    KeysShape();
    assert line[0] == 'W';
    assert !StartsWith(line, POSITION_KEY) && !StartsWith(line, GEOMETRY_KEY);
  }

  /** The parser reads back the rectangle from the text `xdotool` prints for it. */
  lemma GeometryOfXdotool(id: nat, r: Rect)
    ensures GeometryOf(XdotoolText(id, r)) == Found(r)
  {
    LinesOfXdotool(id, r);
    var lines := [HeaderText(id), PositionText(r.left, r.top), SizeText(r.width, r.height)];
    var f1 := UNSET.(left := Some(r.left), top := Some(r.top));
    var f2 := f1.(width := Some(r.width), height := Some(r.height));
    assert lines[..0] == [];
    ReadLinesStep(lines, 0, UNSET);
    HeaderReads(UNSET, id);
    ReadLinesStep(lines, 1, UNSET);
    PositionTextReads(UNSET, r.left, r.top);
    ReadLinesStep(lines, 2, f1);
    SizeTextReads(f1, r.width, r.height);
    assert lines[..3] == lines;
    assert ReadLines(lines) == Reading(f2);
  }

  /** The printed text has the three lines. */
  lemma LinesOfXdotool(id: nat, r: Rect)
    ensures SplitLines(XdotoolText(id, r)) ==
            [HeaderText(id), PositionText(r.left, r.top), SizeText(r.width, r.height)]
  {
    var l1 := HeaderText(id);
    var l2 := PositionText(r.left, r.top);
    var l3 := SizeText(r.width, r.height);
    HeaderBreakFree(id);
    NumbersBreakFree(r.left, r.top, ',');
    NumbersBreakFree(r.width, r.height, 'x');
    LiteralsBreakFree();
    BreakFreeConcat("  " + POSITION_KEY + " ", IntToStr(r.left) + "," + IntToStr(r.top));
    BreakFreeConcat("  " + POSITION_KEY + " " + (IntToStr(r.left) + "," + IntToStr(r.top)), " (screen: 0)");
    BreakFreeConcat("  " + GEOMETRY_KEY + " ", IntToStr(r.width) + "x" + IntToStr(r.height));
    assert XdotoolText(id, r) == l1 + "\n" + (l2 + "\n" + (l3 + "\n" + ""));
    SplitLinesCons(l1, l2 + "\n" + (l3 + "\n" + ""));
    SplitLinesCons(l2, l3 + "\n" + "");
    SplitLinesCons(l3, "");
  }

  lemma LiteralsBreakFree()
    ensures BreakFree("  " + POSITION_KEY + " ") && BreakFree("  " + GEOMETRY_KEY + " ")
    ensures BreakFree(" (screen: 0)")
  {
  }

  lemma HeaderBreakFree(id: nat)
    ensures BreakFree(HeaderText(id))
  {
  }

  lemma NumbersBreakFree(a: int, b: int, sep: char)
    requires !IsLineBreak(sep)
    ensures BreakFree(IntToStr(a) + [sep] + IntToStr(b))
  {
    IntToStrChars(a);
    IntToStrChars(b);
  }

  /** Some line, once stripped, starts with `key`. */
  predicate HasKeyLine(lines: seq<string>, key: string) {
    exists k :: 0 <= k < |lines| && StartsWith(Strip(lines[k]), key)
  }

  lemma HasKeyLinePrefix(lines: seq<string>, key: string)
    requires lines != [] && HasKeyLine(lines[..|lines| - 1], key)
    ensures HasKeyLine(lines, key)
  {
    var k :| 0 <= k < |lines| - 1 && StartsWith(Strip(lines[..|lines| - 1][k]), key);
    assert lines[..|lines| - 1][k] == lines[k];
  }

  /** `left` is only ever assigned by a `Position:` line. */
  lemma {:induction false} LeftNeedsPositionLine(lines: seq<string>)
    requires ReadLines(lines).Reading? && ReadLines(lines).fields.left.Some?
    ensures HasKeyLine(lines, POSITION_KEY)
    decreases |lines|
  {
    var init := lines[..|lines| - 1];
    var last := lines[|lines| - 1];
    var f := ReadLines(init).fields;
    if StartsWith(Strip(last), POSITION_KEY) {
      assert StartsWith(Strip(lines[|lines| - 1]), POSITION_KEY);
    } else {
      assert ReadLines(lines) == ReadLine(f, last);
      assert f.left.Some?;
      LeftNeedsPositionLine(init);
      HasKeyLinePrefix(lines, POSITION_KEY);
    }
  }

  /** `width` is only ever assigned by a `Geometry:` line. */
  lemma {:induction false} WidthNeedsGeometryLine(lines: seq<string>)
    requires ReadLines(lines).Reading? && ReadLines(lines).fields.width.Some?
    ensures HasKeyLine(lines, GEOMETRY_KEY)
    decreases |lines|
  {
    var init := lines[..|lines| - 1];
    var last := lines[|lines| - 1];
    var f := ReadLines(init).fields;
    if StartsWith(Strip(last), GEOMETRY_KEY) {
      assert StartsWith(Strip(lines[|lines| - 1]), GEOMETRY_KEY);
    } else {
      assert ReadLines(lines) == ReadLine(f, last);
      assert f.width.Some?;
      WidthNeedsGeometryLine(init);
      HasKeyLinePrefix(lines, GEOMETRY_KEY);
    }
  }

  /** A rectangle is found only when both a position line and a geometry line are there:
      with either missing the parse gives `None`. */
  lemma FoundNeedsBothLines(geomRaw: string)
    requires GeometryOf(geomRaw).Found?
    ensures HasKeyLine(SplitLines(geomRaw), POSITION_KEY)
    ensures HasKeyLine(SplitLines(geomRaw), GEOMETRY_KEY)
  {
    LeftNeedsPositionLine(SplitLines(geomRaw));
    WidthNeedsGeometryLine(SplitLines(geomRaw));
  }

  /** A `Position:` line with nothing after the key makes `split()[1]` raise `IndexError`,
      which the function does not catch. */
  lemma BarePositionRaises()
    ensures GeometryOf(POSITION_KEY) == Raises
  {
    KeysShape();
    assert BreakFree(POSITION_KEY);
    SplitLinesSingle(POSITION_KEY);
    StripNoEdgeSpace(POSITION_KEY);
    assert POSITION_KEY + [] == POSITION_KEY;
    SplitWsHead(POSITION_KEY, []);
    assert [POSITION_KEY][..0] == [];
  }

  // ---------------------------------------------------------------------
  // Window detection

  const FALLBACK_TITLE := "window"
  const DEFAULT_RECT := Rect(0, 0, 1920, 1080)

  /** `WindowInfo(title, bbox)` */
  datatype WindowInfo = WindowInfo(title: string, bbox: Rect)

  /** `getwindowname` output `.strip() or "window"`. */
  function TitleOf(name: string): (t: string)
    ensures t != []
    ensures Strip(name) == [] ==> t == FALLBACK_TITLE
    ensures Strip(name) != [] ==> t == Strip(name)
  {
    var stripped := Strip(name);
    if stripped == [] then FALLBACK_TITLE else stripped
  }

  /** What the three `xdotool` calls print; `None` for a call that raises
      `SubprocessError` or `FileNotFoundError`. */
  datatype Xdotool = Xdotool(activeWindow: Option<string>, windowName: Option<string>,
                             windowGeometry: Option<string>)

  /** What `_linux_active_window` gives: a window, `None`, or an escaping exception. */
  datatype LinuxWindow = Info(info: WindowInfo) | NoInfo | LinuxRaises

  /** `_linux_active_window`, its command outputs given. */
  function LinuxActiveWindow(x: Xdotool): (w: LinuxWindow)
    ensures w.Info? ==> x.windowName.Some? && x.windowGeometry.Some? &&
                        w.info.title == TitleOf(x.windowName.value) &&
                        GeometryOf(x.windowGeometry.value) == Found(w.info.bbox)
    ensures w.LinuxRaises? <==> x.activeWindow.Some? && x.windowName.Some? &&
                                x.windowGeometry.Some? && GeometryOf(x.windowGeometry.value).Raises?
  {
    if x.activeWindow.None? || x.windowName.None? || x.windowGeometry.None? then NoInfo
    else
      match GeometryOf(x.windowGeometry.value)
      case Found(r) => Info(WindowInfo(TitleOf(x.windowName.value), r))
      case Missing => NoInfo
      case Raises => LinuxRaises
  }

  /** One try at the `mss` monitor list in `get_active_window`: the first monitor's
      rectangle, a `ScreenShotError` (retried), or another exception (escapes). */
  datatype MonitorProbe = Monitor(rect: Rect) | MonitorScreenShotError | MonitorOtherError

  /** What `get_active_window` returns, or an escaping exception. */
  datatype Detected = Window(info: WindowInfo) | DetectRaises

  /** The `for attempt in (1, 2)` loop over the monitor probes, then the last-resort default. */
  function MonitorFallback(first: MonitorProbe, second: MonitorProbe): Detected {
    match first
    case Monitor(r) => Window(WindowInfo(FALLBACK_TITLE, r))
    case MonitorOtherError => DetectRaises
    case MonitorScreenShotError =>
      match second
      case Monitor(r) => Window(WindowInfo(FALLBACK_TITLE, r))
      case MonitorOtherError => DetectRaises
      case MonitorScreenShotError => Window(WindowInfo(FALLBACK_TITLE, DEFAULT_RECT))
  }

  /** `get_active_window`: the platform, the `xdotool` outputs, whether `mss` is installed,
      and what its two monitor tries give, as parameters. */
  function GetActiveWindow(onLinux: bool, x: Xdotool, mssInstalled: bool,
                           first: MonitorProbe, second: MonitorProbe): (d: Detected)
    ensures d.Window? ==> d.info.title != []
  {
    var linux := if onLinux then LinuxActiveWindow(x) else NoInfo;
    match linux
    case Info(info) => Window(info)
    case LinuxRaises => DetectRaises
    case NoInfo =>
      if mssInstalled then MonitorFallback(first, second)
      else Window(WindowInfo(FALLBACK_TITLE, DEFAULT_RECT))
  }

  /** A window found through `xdotool` is returned as it is. */
  lemma LinuxWindowWins(x: Xdotool, mssInstalled: bool, first: MonitorProbe, second: MonitorProbe)
    requires LinuxActiveWindow(x).Info?
    ensures GetActiveWindow(true, x, mssInstalled, first, second) == Window(LinuxActiveWindow(x).info)
  {
  }

  /** With no window from `xdotool` and no monitor from `mss`, the result is the
      1920x1080 default titled `window`. */
  lemma DefaultWindow(onLinux: bool, x: Xdotool, mssInstalled: bool)
    requires !onLinux || LinuxActiveWindow(x).NoInfo?
    ensures GetActiveWindow(onLinux, x, mssInstalled, MonitorScreenShotError, MonitorScreenShotError)
            == Window(WindowInfo("window", Rect(0, 0, 1920, 1080)))
    ensures !mssInstalled ==>
            forall p, q :: GetActiveWindow(onLinux, x, false, p, q) == Window(WindowInfo("window", Rect(0, 0, 1920, 1080)))
  {
  }

  /** Off Linux `xdotool` is not consulted. */
  lemma OffLinuxIgnoresXdotool(x: Xdotool, y: Xdotool, mssInstalled: bool, first: MonitorProbe, second: MonitorProbe)
    ensures GetActiveWindow(false, x, mssInstalled, first, second) ==
            GetActiveWindow(false, y, mssInstalled, first, second)
  {
  }

  /** An empty window name (or one of whitespace only) gives the title `window`. */
  lemma EmptyNameIsWindow(name: string)
    requires forall k :: 0 <= k < |name| ==> IsSpace(name[k])
    ensures TitleOf(name) == "window"
  {
    StripAllSpace(name);
  }

  // ---------------------------------------------------------------------
  // Capture backend

  datatype Backend = Mss | ImageGrab

  /** The string `get_backend` returns. */
  function BackendName(b: Backend): string {
    match b
    case Mss => "mss"
    case ImageGrab => "imagegrab"
  }

  const FORCE_VAR := "HINDSIGHT_FORCE_BACKEND"

  /** `_BACKEND` once the module is loaded: the stripped, lower-cased override when it
      names one of the two backends, otherwise `mss`. */
  function InitialBackend(env: map<string, string>): Backend {
    var force := Lower(Strip(EnvGet(env, FORCE_VAR, "")));
    if force == "imagegrab" then ImageGrab
    else if force == "mss" then Mss
    else Mss
  }

  /** The override selects `imagegrab` exactly when it reads `imagegrab` once stripped and
      lower-cased; anything else, the variable unset included, leaves `mss`. */
  lemma InitialBackendChoice(env: map<string, string>)
    ensures InitialBackend(env) == ImageGrab <==> Lower(Strip(EnvGet(env, FORCE_VAR, ""))) == "imagegrab"
    ensures FORCE_VAR !in env ==> InitialBackend(env) == Mss
    ensures BackendName(InitialBackend(env)) in {"mss", "imagegrab"}
  {
    if FORCE_VAR !in env {
      assert Lower(Strip("")) == [];
    }
  }

  /** The ImageGrab box `(left, top, right, bottom)`. */
  datatype Box = Box(left: int, top: int, right: int, bottom: int)

  function GrabBox(r: Rect): (b: Box)
    ensures b.right - b.left == r.width && b.bottom - b.top == r.height
    ensures b.left == r.left && b.top == r.top
  {
    Box(r.left, r.top, r.left + r.width, r.top + r.height)
  }

  /** One `mss` attempt: saved, `ScreenShotError` (counted and retried), or another
      exception, which leaves `capture_region`. */
  datatype Shot = MssSaved | MssScreenShotError | MssOtherError

  /** What the display and the imaging libraries do during one `capture_region` call:
      whether `mss` is installed, the outcome of the first and the second `mss` attempt,
      and whether an ImageGrab grab and save succeed. */
  datatype Display = Display(mssInstalled: bool, firstTry: Shot, retry: Shot, imageGrabWorks: bool)

  /** The outcome of `attempt` (0 or 1). */
  function TryAt(d: Display, attempt: nat): Shot {
    if attempt == 0 then d.firstTry else d.retry
  }

  /** How `capture_region` ends: the region `mss` grabbed, the box ImageGrab grabbed,
      or an exception. */
  datatype Capture = SavedByMss(region: Rect) | SavedByImageGrab(box: Box) | CaptureRaises

  /** The module globals `_DISPLAY_FAILURES` and `_BACKEND`. */
  datatype CaptureState = CaptureState(failures: nat, backend: Backend)

  datatype Captured = Captured(state: CaptureState, outcome: Capture)

  /** One `capture_region` call as a function of the state before it. */
  function CaptureSpec(s: CaptureState, bbox: Rect, d: Display): Captured {
    if !d.mssInstalled then Captured(s, CaptureRaises)
    else if s.backend == ImageGrab then
      Captured(s, if d.imageGrabWorks then SavedByImageGrab(GrabBox(bbox)) else CaptureRaises)
    else
      match d.firstTry
      case MssSaved => Captured(s.(failures := 0), SavedByMss(bbox))
      case MssOtherError => Captured(s, CaptureRaises)
      case MssScreenShotError =>
        match d.retry
        case MssSaved => Captured(s.(failures := 0), SavedByMss(bbox))
        case MssOtherError => Captured(s.(failures := s.failures + 1), CaptureRaises)
        case MssScreenShotError =>
          if d.imageGrabWorks then
            Captured(CaptureState(s.failures + 2, ImageGrab), SavedByImageGrab(GrabBox(bbox)))
          else Captured(s.(failures := s.failures + 2), CaptureRaises)
  }

  /** The `ScreenShotError`s of the attempts actually made. */
  function ScreenShotErrors(d: Display): (n: nat)
    ensures n <= 2
  {
    if d.firstTry != MssScreenShotError then 0
    else if d.retry != MssScreenShotError then 1
    else 2
  }

  /** Once on `imagegrab`, a capture never tries `mss`, keeps the backend and the counter,
      and grabs the box `(left, top, left + width, top + height)`. */
  lemma ImageGrabIsFinal(s: CaptureState, bbox: Rect, d: Display)
    requires s.backend == ImageGrab
    ensures var c := CaptureSpec(s, bbox, d);
      c.state == s && !c.outcome.SavedByMss? &&
      (c.outcome.SavedByImageGrab? ==> c.outcome.box == Box(bbox.left, bbox.top, bbox.left + bbox.width, bbox.top + bbox.height))
  {
  }

  /** From `mss`, the switch to `imagegrab` happens exactly when both `mss` attempts raise
      `ScreenShotError` and the ImageGrab fallback succeeds. */
  lemma SwitchToImageGrab(s: CaptureState, bbox: Rect, d: Display)
    requires s.backend == Mss
    ensures CaptureSpec(s, bbox, d).state.backend == ImageGrab <==>
            d.mssInstalled && d.firstTry == MssScreenShotError && d.retry == MssScreenShotError &&
            d.imageGrabWorks
  {
  }

  /** On the `mss` path each `ScreenShotError` adds one to the counter and a saved grab
      resets it to zero: at most two attempts are made. */
  lemma FailureCounter(s: CaptureState, bbox: Rect, d: Display)
    requires s.backend == Mss && d.mssInstalled
    ensures var c := CaptureSpec(s, bbox, d);
      (c.outcome.SavedByMss? ==> c.state.failures == 0 && c.outcome.region == bbox) &&
      (!c.outcome.SavedByMss? ==> c.state.failures == s.failures + ScreenShotErrors(d)) &&
      c.state.failures <= s.failures + 2
  {
  }

  /** After both `mss` attempts fail, an ImageGrab failure raises, the two failures counted. */
  lemma FallbackFailureRaises(s: CaptureState, bbox: Rect, d: Display)
    requires s.backend == Mss && d.mssInstalled && !d.imageGrabWorks
    requires d.firstTry == MssScreenShotError && d.retry == MssScreenShotError
    ensures CaptureSpec(s, bbox, d) == Captured(CaptureState(s.failures + 2, Mss), CaptureRaises)
  {
  }

  /** The state after a run of captures. */
  function RunCaptures(s: CaptureState, calls: seq<(Rect, Display)>): CaptureState
    decreases |calls|
  {
    if calls == [] then s
    else RunCaptures(CaptureSpec(s, calls[0].0, calls[0].1).state, calls[1..])
  }

  /** No sequence of captures sets the backend back to `mss`. */
  lemma {:induction false} NeverBackToMss(s: CaptureState, calls: seq<(Rect, Display)>)
    requires s.backend == ImageGrab
    ensures RunCaptures(s, calls) == s
    decreases |calls|
  {
    if calls != [] {
      ImageGrabIsFinal(s, calls[0].0, calls[0].1);
      NeverBackToMss(s, calls[1..]);
    }
  }

  /** The capture helpers' module state. */
  class Capturer {
    /** `_DISPLAY_FAILURES` */
    var failures: nat
    /** `_BACKEND` */
    var backend: Backend

    /** Module load, with the override read from the environment. */
    constructor (env: map<string, string>)
      ensures failures == 0 && backend == InitialBackend(env)
    {
      failures := 0;
      backend := InitialBackend(env);
    }

    function State(): CaptureState
      reads this
    {
      CaptureState(failures, backend)
    }

    /** `get_backend` */
    function GetBackend(): (name: string)
      reads this
      ensures name == "mss" || name == "imagegrab"
      ensures name == "imagegrab" <==> backend == ImageGrab
    {
      BackendName(backend)
    }

    /** `capture_region`: the ImageGrab path once switched, else up to two `mss`
        attempts and then the ImageGrab fallback. */
    method CaptureRegion(bbox: Rect, d: Display) returns (r: Capture)
      modifies this
      ensures Captured(State(), r) == CaptureSpec(old(State()), bbox, d)
    {
      if !d.mssInstalled {
        return CaptureRaises;
      }
      if backend == ImageGrab {
        if d.imageGrabWorks {
          return SavedByImageGrab(Box(bbox.left, bbox.top, bbox.left + bbox.width, bbox.top + bbox.height));
        }
        return CaptureRaises;
      }
      var attempt := 0;
      while attempt < 2
        invariant 0 <= attempt <= 2
        invariant backend == Mss && failures == old(failures) + attempt
        invariant forall k :: 0 <= k < attempt ==> TryAt(d, k) == MssScreenShotError
      {
        attempt := attempt + 1;
        var shot := TryAt(d, attempt - 1);
        assert attempt == 2 ==> TryAt(d, 0) == MssScreenShotError;
        if shot == MssSaved {
          failures := 0;
          return SavedByMss(bbox);
        } else if shot == MssOtherError {
          return CaptureRaises;
        }
        failures := failures + 1;
      }
      assert TryAt(d, 0) == MssScreenShotError && TryAt(d, 1) == MssScreenShotError;
      if d.imageGrabWorks {
        backend := ImageGrab;
        return SavedByImageGrab(Box(bbox.left, bbox.top, bbox.left + bbox.width, bbox.top + bbox.height));
      }
      return CaptureRaises;
    }
  }
}
