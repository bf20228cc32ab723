/** The logging configuration of `capture/logging_config.py`: level names, the size
    clamp and rotation decision of the rotating file handler, the plain line format,
    and the module state that `configure_logging` and `set_runtime_level` update. */
module LoggingConfig {
  import opened PyStr

  const LEVEL_ORDER: seq<string> := ["TRACE", "DEBUG", "INFO", "WARNING", "ERROR", "CRITICAL"]
  const INFO_INDEX := 2
  const MIB := 1024 * 1024

  // ---------------------------------------------------------------------
  // Level names

  /** `xs.index(x)`, `None` for the `ValueError`. */
  function IndexOf(xs: seq<string>, x: string): (r: Option<nat>)
    ensures r.Some? ==> r.value < |xs| && xs[r.value] == x && forall k :: 0 <= k < r.value ==> xs[k] != x
    ensures r.None? ==> x !in xs
    decreases |xs|
  {
    if xs == [] then None
    else if xs[0] == x then Some(0)
    else match IndexOf(xs[1..], x)
      case None => None
      case Some(i) => Some(i + 1)
  }

  /** `_level_index` */
  function LevelIndex(l: string): (i: nat)
    ensures i < |LEVEL_ORDER|
  {
    match IndexOf(LEVEL_ORDER, Upper(l))
    case Some(i) => i
    case None => INFO_INDEX
  }

  /** The index is the position of the upper-cased name, and INFO's position for any
      other name. */
  lemma LevelIndexSpec(l: string)
    ensures Upper(l) in LEVEL_ORDER ==> LEVEL_ORDER[LevelIndex(l)] == Upper(l)
    ensures Upper(l) !in LEVEL_ORDER ==> LevelIndex(l) == 2 && LEVEL_ORDER[LevelIndex(l)] == "INFO"
  {
  }

  /** Names in the order are found whatever their case. */
  lemma LevelIndexNamed()
    ensures LevelIndex("trace") == 0 && LevelIndex("Warning") == 3 && LevelIndex("critical") == 5
  {
    assert Upper("trace") == "TRACE";
    assert Upper("Warning") == "WARNING";
    assert Upper("critical") == "CRITICAL";
  }

  /** A name outside the order, and the empty name, fall back to INFO. */
  lemma LevelIndexDefault()
    ensures LevelIndex("verbose") == 2 && LevelIndex("") == 2
  {
    assert Upper("verbose") == "VERBOSE";
    assert "VERBOSE" !in LEVEL_ORDER;
    assert Upper("") == "";
  }

  /** The order runs from the most verbose level up. */
  lemma LevelIndexExamples()
    ensures LevelIndex("trace") == 0 && LevelIndex("Warning") == 3 && LevelIndex("critical") == 5
    ensures LevelIndex("verbose") == 2 && LevelIndex("") == 2
  {
    LevelIndexNamed();
    LevelIndexDefault();
  }

  /** `(level or 'INFO').upper()`; `None` is passed as the empty string. */
  function LevelName(level: string): (r: string)
    ensures r != [] && forall k :: 0 <= k < |r| ==> !IsLower(r[k])
    ensures level != [] ==> |r| == |level|
  {
    Upper(if level == [] then "INFO" else level)
  }

  /** Upper-casing is idempotent, so storing a stored name again changes nothing. */
  lemma LevelNameIdempotent(level: string)
    ensures LevelName(LevelName(level)) == LevelName(level)
  {
    var r := LevelName(level);
    forall k | 0 <= k < |r| ensures UpperChar(r[k]) == r[k] {
      assert !IsLower(r[k]);
    }
  }

  // ---------------------------------------------------------------------
  // Rotation size

  /** `max(1, min(rotate_mb, 64)) * 1024 * 1024` */
  function RotateBytes(rotateMb: int): (n: int)
    ensures MIB <= n <= 64 * MIB && n % MIB == 0
    ensures 1 <= rotateMb <= 64 ==> n == rotateMb * MIB
    ensures rotateMb < 1 ==> n == MIB
    ensures rotateMb > 64 ==> n == 64 * MIB
  {
    var mb := if rotateMb > 64 then 64 else rotateMb;
    (if mb < 1 then 1 else mb) * 1024 * 1024
  }

  /** `_ROTATE_MB` as `configure_logging` stores it: the given size when positive, else 2,
      and never above 64. */
  function StoredRotateMb(rotateMb: int): (m: int)
    ensures 1 <= m <= 64
    ensures 0 < rotateMb <= 64 ==> m == rotateMb
    ensures rotateMb <= 0 ==> m == 2
    ensures rotateMb > 64 ==> m == 64
  {
    var m := if rotateMb > 0 then rotateMb else 2;
    if m > 64 then 64 else m
  }

  /** The handler built from a stored size no longer clamps anything. */
  lemma StoredSizeInRange(rotateMb: int)
    ensures RotateBytes(StoredRotateMb(rotateMb)) == StoredRotateMb(rotateMb) * MIB
    ensures rotateMb <= 0 ==> RotateBytes(StoredRotateMb(rotateMb)) == 2 * MIB
  {
  }

  // ---------------------------------------------------------------------
  // Rotation decision and the log file

  /** The number of bytes `s.encode("utf-8")` has. */
  function Utf8Len(s: string): (n: nat)
    ensures |s| <= n <= 4 * |s|
    decreases |s|
  {
    if s == [] then 0
    else
      var c := s[0] as int;
      (if c < 0x80 then 1 else if c < 0x800 then 2 else if c < 0x10000 then 3 else 4) + Utf8Len(s[1..])
  }

  lemma {:induction false} Utf8LenConcat(a: string, b: string)
    ensures Utf8Len(a + b) == Utf8Len(a) + Utf8Len(b)
    decreases |a|
  {
    if a != [] {
      assert (a + b)[0] == a[0];
      assert (a + b)[1..] == a[1..] + b;
      Utf8LenConcat(a[1..], b);
    } else {
      assert a + b == b;
    }
  }

  /** The rollover name `path.with_suffix(path.suffix + '.1')`: whatever the suffix is
      (none included), the result is the path with `.1` appended. */
  function BackupPath(path: string): (b: string)
    ensures b != path && |b| == |path| + 2
  {
    path + ".1"
  }

  /** `emit` rotates when the file exists and its size plus the encoded record would
      pass the threshold. */
  predicate ShouldRotate(files: map<string, string>, path: string, data: string, rotateBytes: int) {
    path in files && Utf8Len(files[path]) + Utf8Len(data) > rotateBytes
  }

  /** The file system after `emit` writes `data` to `path`. */
  function EmitFiles(files: map<string, string>, path: string, data: string, rotateBytes: int): map<string, string> {
    if ShouldRotate(files, path, data, rotateBytes) then
      (files - {BackupPath(path)})[BackupPath(path) := files[path]] - {path} + map[path := data]
    else
      files[path := (if path in files then files[path] else "") + data]
  }

  /** After `emit`: rotated, the file holds just the new record and `.1` the previous file
      (any older `.1` replaced); otherwise the record is appended. No other file changes. */
  lemma EmitEffect(files: map<string, string>, path: string, data: string, rotateBytes: int)
    ensures var f := EmitFiles(files, path, data, rotateBytes);
      path in f &&
      (ShouldRotate(files, path, data, rotateBytes) ==>
         f[path] == data && BackupPath(path) in f && f[BackupPath(path)] == files[path]) &&
      (!ShouldRotate(files, path, data, rotateBytes) ==>
         f[path] == (if path in files then files[path] else "") + data &&
         (BackupPath(path) in f <==> BackupPath(path) in files) &&
         (BackupPath(path) in files ==> f[BackupPath(path)] == files[BackupPath(path)])) &&
      forall p :: p != path && p != BackupPath(path) ==> (p in f <==> p in files) && (p in files ==> f[p] == files[p])
  {
  }

  /** A file kept within the threshold stays within it whenever each record fits. */
  lemma EmitKeepsBound(files: map<string, string>, path: string, data: string, rotateBytes: int)
    requires path in files ==> Utf8Len(files[path]) <= rotateBytes
    requires Utf8Len(data) <= rotateBytes
    ensures Utf8Len(EmitFiles(files, path, data, rotateBytes)[path]) <= rotateBytes
  {
    var before := if path in files then files[path] else "";
    Utf8LenConcat(before, data);
  }

  /** The handler `_SizedRotatingHandler`: its file and threshold, and the file system
      it writes to. */
  class RotatingFile {
    const path: string
    const rotateBytes: int
    var files: map<string, string>

    /** The handler of a `configure_logging` call; creating it makes the directory only. */
    constructor (path: string, rotateMb: int, files: map<string, string>)
      ensures this.path == path && rotateBytes == RotateBytes(rotateMb) && this.files == files
    {
      this.path := path;
      rotateBytes := RotateBytes(rotateMb);
      this.files := files;
    }

    /** `emit` of a formatted message: rotate when needed, then append the line. */
    method Emit(msg: string)
      modifies this
      ensures files == EmitFiles(old(files), path, msg + "\n", rotateBytes)
    {
      var data := msg + "\n";
      if path in files && Utf8Len(files[path]) + Utf8Len(data) > rotateBytes {
        var backup := BackupPath(path);
        files := files - {backup};
        files := files[backup := files[path]] - {path};
        files := files[path := data];
      } else {
        var current := if path in files then files[path] else "";
        files := files[path := current + data];
      }
    }
  }

  // ---------------------------------------------------------------------
  // Line format

  /** The plain text format `[ts] LEVEL logger: msg`. */
  function PlainLine(ts: string, level: string, logger: string, msg: string): (line: string)
    ensures |line| == |ts| + |level| + |logger| + |msg| + 6
  {
    "[" + ts + "] " + level + " " + logger + ": " + msg
  }

  /** Reads the time stamp and the level back from a plain line, and the rest after them. */
  function PlainHeader(line: string): Option<(string, string, string)> {
    if line == [] || line[0] != '[' then None
    else
      var close := IndexFrom(line, ']', 1);
      if close + 1 >= |line| || line[close + 1] != ' ' then None
      else
        var space := IndexFrom(line, ' ', close + 2);
        if space == |line| then None
        else Some((line[1..close], line[close + 2..space], line[space + 1..]))
  }

  /** The header reads back when the time stamp holds no `]` and the level no space. */
  lemma PlainHeaderRoundTrip(ts: string, level: string, logger: string, msg: string)
    requires ']' !in ts && ' ' !in level
    ensures PlainHeader(PlainLine(ts, level, logger, msg)) == Some((ts, level, logger + ": " + msg))
  {
    var line := PlainLine(ts, level, logger, msg);
    assert line == "[" + ts + "] " + level + " " + (logger + ": " + msg);
    var close := 1 + |ts|;
    assert line[close] == ']';
    forall k | 1 <= k < close ensures line[k] != ']' { assert line[k] == ts[k - 1]; }
    assert IndexFrom(line, ']', 1) == close;
    var space := close + 2 + |level|;
    assert line[space] == ' ';
    forall k | close + 2 <= k < space ensures line[k] != ' ' { assert line[k] == level[k - close - 2]; }
    assert IndexFrom(line, ' ', close + 2) == space;
    assert line[1..close] == ts;
    assert line[close + 2..space] == level;
    assert line[space + 1..] == logger + ": " + msg;
  }

  // ---------------------------------------------------------------------
  // Module state

  /** A handler on the root logger: the one this module installs, or any other. */
  datatype Handler = SizedRotating(path: string, rotateBytes: int, jsonMode: bool) | Foreign(id: nat)

  /** The globals `_CONFIGURED`, `_CURRENT_LEVEL`, `_JSON_MODE`, `_ROTATE_MB`, `_LOG_PATH`,
      with the root logger's level and handlers and whether `TRACE` is a registered name. */
  datatype LogState = LogState(configured: bool, currentLevel: string, jsonMode: bool, rotateMb: int,
                               logPath: Option<string>, rootLevel: string, handlers: seq<Handler>,
                               traceRegistered: bool)

  /** How a call ends: it returns, it raises `ValueError` (the state as far as it got),
      or it blocks forever on the lock. */
  datatype Call = Returned(state: LogState) | Raised(state: LogState) | Deadlocked

  /** The names `Logger.setLevel` accepts: the standard ones, and `TRACE` once registered. */
  predicate KnownLevel(name: string, traceRegistered: bool) {
    name in {"CRITICAL", "FATAL", "ERROR", "WARN", "WARNING", "INFO", "DEBUG", "NOTSET"} ||
    (traceRegistered && name == "TRACE")
  }

  /** The path used when none is given: `HINDSIGHT_BASE_DIR` (or `data`) joined with
      `capture.stdout.log`. */
  function DefaultLogPath(env: map<string, string>): string {
    var base := EnvGet(env, "HINDSIGHT_BASE_DIR", "");
    (if base == [] then "data" else base) + "/capture.stdout.log"
  }

  /** The settings every `configure_logging` call stores before anything else. */
  function StoreSettings(s: LogState, level: string, jsonMode: bool, rotateMb: int): LogState {
    s.(currentLevel := LevelName(level), jsonMode := jsonMode, rotateMb := StoredRotateMb(rotateMb))
  }

  /** `root.setLevel(_CURRENT_LEVEL)`: raises for an unknown name. */
  function ApplyLevel(s: LogState): (c: Call)
    ensures !c.Deadlocked? && c.state.currentLevel == s.currentLevel && c.state.handlers == s.handlers
  {
    if KnownLevel(s.currentLevel, s.traceRegistered) then Returned(s.(rootLevel := s.currentLevel))
    else Raised(s)
  }

  /** `set_runtime_level`, called with the lock free or already held by the caller
      (`threading.Lock` is not re-entrant). */
  function SetRuntimeLevelSpec(s: LogState, level: string, lockHeld: bool): (c: Call)
    ensures lockHeld <==> c.Deadlocked?
  {
    if lockHeld then Deadlocked else ApplyLevel(s.(currentLevel := LevelName(level)))
  }

  /** The first configuration as written: the root level is set before `TRACE` is
      registered, then the handlers are replaced by the one rotating handler. */
  function InstallAsWritten(s: LogState, logPath: Option<string>, env: map<string, string>): Call {
    var path := if logPath.Some? then logPath.value else DefaultLogPath(env);
    var s1 := s.(logPath := Some(path));
    match ApplyLevel(s1)
    case Returned(s2) =>
      Returned(s2.(handlers := [SizedRotating(path, RotateBytes(s2.rotateMb), s2.jsonMode)],
                   traceRegistered := true, configured := true))
    case other => other
  }

  /** `configure_logging` as written. */
  function ConfigureAsWritten(s: LogState, level: string, jsonMode: bool, rotateMb: int,
                              logPath: Option<string>, env: map<string, string>): (c: Call)
    ensures s.configured ==> c.Deadlocked?
  {
    var s1 := StoreSettings(s, level, jsonMode, rotateMb);
    if s.configured then SetRuntimeLevelSpec(s1, s1.currentLevel, true)
    else InstallAsWritten(s1, logPath, env)
  }

  /** A second `configure_logging` call never returns: it holds `_LOCK` while
      `set_runtime_level` waits for it. */
  lemma SecondConfigureDeadlocks(s: LogState, env: map<string, string>)
    requires !s.configured && KnownLevel("INFO", s.traceRegistered)
    ensures var first := ConfigureAsWritten(s, "INFO", false, 2, None, env);
      first.Returned? && ConfigureAsWritten(first.state, "INFO", false, 2, None, env) == Deadlocked
  {
    assert Upper("INFO") == "INFO";
  }

  /** A first `configure_logging(level="TRACE")` raises `ValueError`: `TRACE` is not yet a
      level name when the root level is set. */
  lemma FirstTraceConfigureRaises(s: LogState, env: map<string, string>)
    requires !s.configured && !s.traceRegistered
    ensures ConfigureAsWritten(s, "trace", false, 2, None, env).Raised?
  {
    assert LevelName("trace") == "TRACE";
  }

  /** The first configuration as evidently intended: `TRACE` registered before the root
      level is set. */
  function Install(s: LogState, logPath: Option<string>, env: map<string, string>): Call {
    var path := if logPath.Some? then logPath.value else DefaultLogPath(env);
    var s1 := s.(logPath := Some(path), traceRegistered := true);
    match ApplyLevel(s1)
    case Returned(s2) =>
      Returned(s2.(handlers := [SizedRotating(path, RotateBytes(s2.rotateMb), s2.jsonMode)], configured := true))
    case other => other
  }

  /** `configure_logging` as evidently intended: a repeated call applies the new level
      under the lock it already holds instead of taking it again. */
  function Configure(s: LogState, level: string, jsonMode: bool, rotateMb: int,
                     logPath: Option<string>, env: map<string, string>): (c: Call)
    ensures !c.Deadlocked?
    ensures c.state.currentLevel == LevelName(level) && c.state.rotateMb == StoredRotateMb(rotateMb)
  {
    var s1 := StoreSettings(s, level, jsonMode, rotateMb);
    if s.configured then ApplyLevel(s1) else Install(s1, logPath, env)
  }

  /** The first call installs exactly one handler, the rotating one, replacing whatever the
      root logger had, and records the configuration, for every level of `LEVEL_ORDER`. */
  lemma ConfigureInstallsOneHandler(s: LogState, level: string, jsonMode: bool, rotateMb: int,
                                    logPath: Option<string>, env: map<string, string>)
    requires !s.configured && LevelName(level) in LEVEL_ORDER
    ensures var c := Configure(s, level, jsonMode, rotateMb, logPath, env);
      c.Returned? && c.state.configured && c.state.rootLevel == LevelName(level) &&
      c.state.handlers == [SizedRotating(c.state.logPath.value, RotateBytes(StoredRotateMb(rotateMb)), jsonMode)] &&
      c.state.logPath == Some(if logPath.Some? then logPath.value else DefaultLogPath(env))
  {
  }

  /** Later calls only update the level and settings: the handlers stay as they are, so
      there is never a second one. */
  lemma ReconfigureKeepsHandlers(s: LogState, level: string, jsonMode: bool, rotateMb: int,
                                 logPath: Option<string>, env: map<string, string>)
    requires s.configured
    ensures var c := Configure(s, level, jsonMode, rotateMb, logPath, env);
      c.state.configured && c.state.handlers == s.handlers && c.state.logPath == s.logPath &&
      (KnownLevel(LevelName(level), s.traceRegistered) ==> c.Returned? && c.state.rootLevel == LevelName(level))
  {
  }

  /** Configuring twice with the same arguments leaves what configuring once leaves. */
  lemma ConfigureIdempotent(s: LogState, level: string, jsonMode: bool, rotateMb: int,
                            logPath: Option<string>, env: map<string, string>)
    requires Configure(s, level, jsonMode, rotateMb, logPath, env).Returned?
    ensures var once := Configure(s, level, jsonMode, rotateMb, logPath, env).state;
      Configure(once, level, jsonMode, rotateMb, logPath, env) == Returned(once)
  {
    var once := Configure(s, level, jsonMode, rotateMb, logPath, env).state;
    assert once.configured;
    assert StoreSettings(once, level, jsonMode, rotateMb) == once;
  }

  /** The two versions agree on every first call at a standard level. */
  lemma FirstCallsAgree(s: LogState, level: string, jsonMode: bool, rotateMb: int,
                        logPath: Option<string>, env: map<string, string>)
    requires !s.configured && LevelName(level) != "TRACE"
    ensures ConfigureAsWritten(s, level, jsonMode, rotateMb, logPath, env) ==
            (match Configure(s, level, jsonMode, rotateMb, logPath, env)
             case Returned(t) => Returned(t.(traceRegistered := true))
             case Raised(t) => Raised(t.(traceRegistered := s.traceRegistered))
             case Deadlocked => Deadlocked)
  {
  }

  /** The logging module's state. */
  class Logging {
    var state: LogState

    /** Module load: nothing configured, level `INFO`, size 2, whatever handlers the root
        logger already has. */
    constructor (rootHandlers: seq<Handler>)
      ensures state == LogState(false, "INFO", false, 2, None, "WARNING", rootHandlers, false)
    {
      state := LogState(false, "INFO", false, 2, None, "WARNING", rootHandlers, false);
    }

    /** `configure_logging`, with the repeated call applying the level directly. Returns
        whether it raised. */
    method ConfigureLogging(level: string, jsonMode: bool, rotateMb: int, logPath: Option<string>,
                            env: map<string, string>) returns (raised: bool)
      modifies this
      ensures Configure(old(state), level, jsonMode, rotateMb, logPath, env) ==
              (if raised then Raised(state) else Returned(state))
    {
      var stored := if rotateMb > 0 then rotateMb else 2;
      if stored > 64 { stored := 64; }
      state := state.(currentLevel := LevelName(level), jsonMode := jsonMode, rotateMb := stored);
      if !state.configured {
        var path := if logPath.Some? then logPath.value else DefaultLogPath(env);
        state := state.(logPath := Some(path), traceRegistered := true);
        if !KnownLevel(state.currentLevel, state.traceRegistered) {
          return true;
        }
        state := state.(rootLevel := state.currentLevel);
        state := state.(handlers := [SizedRotating(path, RotateBytes(state.rotateMb), state.jsonMode)]);
        state := state.(configured := true);
        return false;
      }
      if !KnownLevel(state.currentLevel, state.traceRegistered) {
        return true;
      }
      state := state.(rootLevel := state.currentLevel);
      return false;
    }

    /** `set_runtime_level`, called from outside with the lock free. */
    method SetRuntimeLevel(level: string) returns (raised: bool)
      modifies this
      ensures SetRuntimeLevelSpec(old(state), level, false) ==
              (if raised then Raised(state) else Returned(state))
    {
      state := state.(currentLevel := LevelName(level));
      if !KnownLevel(state.currentLevel, state.traceRegistered) {
        return true;
      }
      state := state.(rootLevel := state.currentLevel);
      return false;
    }

    /** `get_runtime_level` */
    function GetRuntimeLevel(): (l: string)
      reads this
      ensures l == state.currentLevel
    {
      state.currentLevel
    }
  }
}
