# Hindsight Recall: a Dafny model of its capture, search and tooling rules

Hindsight Recall takes periodic screenshots of the active window, runs OCR on them and
keeps the images encrypted under a key that a passphrase protects. Its search merges keyword
and semantic hits. This project models the parts of it whose behaviour is plain logic, and
proves properties of that model:

- **`KeyMgr`** (`keymgr.dfy`) covers the key manager:
  - the passphrase and PIN policy;
  - the two-tier secret store (OS keyring first, then a JSON fallback file);
  - `create_protection` and `validate_passphrase`;
  - the failed-attempt lockout, whose lock escalates over 300 s, 3600 s and 86400 s and ends in a destructive reset at 12 failures;
  - the `--change` protocol of the command line.

  One base directory is a `Vault` value: the files of `encrypted/`, the keyring, the fallback file, and whether the keyring answers. The class `KeyManager` holds that state and changes it. Each of its methods is proved equal to a function on vaults. The lemmas prove the policy, the lockout schedule and the reset. They also prove that every protocol keeps the stored challenge and autostart copy in step with the wrapped data key.
- **`Screenshot`** (`screenshot.dfy`) covers capture file names. These are the sanitised window title, a zero-padded `YYYY-MM-DD_HH-MM-SS` stamp and `.png`. The stamp uses the wall clock that the time-zone preferences choose: UTC, a `±HHMM` offset, one hour more under DST, or the system zone. The calendar follows the proleptic Gregorian arithmetic of Python's `datetime`.
- **`Ocr`** (`ocr.dfy`) gives the OCR text file name: the capture name with its last extension replaced by `.txt`.
- **`ActiveWindow`** (`active_window.dfy`) covers:
  - the parser for `xdotool getwindowgeometry` output;
  - the window-detection fallbacks;
  - the capture backend chosen at module load;
  - the capture retry loop, whose failure counter and one-way switch from `mss` to `imagegrab` live in the class `Capturer`.
- **`LoggingConfig`** (`logging_config.dfy`) covers:
  - level indexing;
  - the rotation-size clamp;
  - the size-based rotation of the log file (class `RotatingFile`);
  - the plain line format;
  - the module state that `configure_logging` and `set_runtime_level` update (class `Logging`).
- **`Hybrid`** and **`Rerank`** (`hybrid.dfy`, `rerank.dfy`) cover the search: a de-duplicated merge of keyword and semantic hits, the reranking order, and the limit loop.
- **`SpdxHook`** (`spdx.dfy`) is the pre-commit hook that adds SPDX license headers to Python and JavaScript files. It works over a file system given as a map. The class `Hook` holds that file system.
- **`TodoWorkbook`** (`workbook.dfy`) builds the to-do workbook. It covers:
  - the comment filter of the CSV reader;
  - sheet-name truncation;
  - the key index, where the first sheet to mention a key wins;
  - the `Link` column with its `HYPERLINK` formulas;
  - column widths, on the master sheet (class `MasterSheet`).
- **`TestReports`** (`test_reports.dfy`) summarises CI reports:
  - JUnit totals and the failed test cases, in the corrected reading of the two JUnit
    findings below: a root `<testsuite>` is read, and a childless `<failure>` keeps its message;
  - the coverage rate and the per-file missed-line tally, sorted into a top list;
  - the name test for report folders.

  XML documents are given as element trees.
- **`PyStr`** (`pystr.dfy`) models the Python `str` behaviour the other modules rely on: `strip`, `splitlines`, `split`, `int()`, the syntax `float()` accepts, and `str()` of an int.

Randomness, the clock, the environment, subprocess output and the answers of the display
libraries are parameters of the functions and methods that need them.

## Model

| member | source | states |
|---|---|---|
| KeyMgr.PassComplexityOk | capture/keymgr.py:35-43 | a passphrase is accepted iff it has at least 12 characters, an upper-case letter, a lower-case letter, a digit and a symbol (neither alphanumeric nor whitespace), and no whitespace |
| KeyMgr.PinOk | capture/keymgr.py:46-47 | a PIN is accepted iff it is 4 to 8 characters, all digits |
| KeyMgr.FernetRoundTrip | capture/keymgr.py:114 | a Fernet token decrypts under the key that sealed it and under no other key |
| KeyMgr.B64RoundTrip | capture/keymgr.py:115-119 | base64 decoding inverts base64 encoding |
| KeyMgr.UnwrapWrap | capture/keymgr.py:111 | unwrapping with the secret used to wrap gives the data key back; any other secret fails |
| KeyMgr.LookupStored | capture/keymgr.py:57-84 | after `_kr_set`, `_kr_get` of that name returns the value, except that an empty value on a working keyring falls through to the fallback file; other names answer as before |
| KeyMgr.LookupErased | capture/keymgr.py:87-98 | after `_kr_delete`, `_kr_get` of that name finds nothing, except that a fallback copy remains visible when the keyring held and deleted the entry; other names answer as before |
| KeyMgr.StoreKeepsFiles | capture/keymgr.py:57-98 | the secret-store operations never touch the files of `encrypted/` |
| KeyMgr.CreateSpec | capture/keymgr.py:101-123 | a secret that is neither a passphrase nor a PIN is refused before anything is written; otherwise the recovery token is returned and stored, the key file holds the data key wrapped under the secret, the lock state is fresh (no failures, no lock) and the challenge and autostart entries match the key |
| KeyMgr.CreateThenValidate | capture/keymgr.py:101-156 | after a successful creation, validation succeeds exactly for the secret it was created with |
| KeyMgr.ValidateSound | capture/keymgr.py:126-156 | validation succeeds only when a wrapped key exists and was wrapped under the given secret; it never changes the files or the lock state |
| KeyMgr.ValidateWithoutKey | capture/keymgr.py:127-130 | with no key file, validation fails and changes nothing |
| KeyMgr.ValidateReseeds | capture/keymgr.py:136-144 | with the right secret and no stored challenge, validation succeeds and stores a challenge sealed with the data key |
| KeyMgr.ValidateComplete | capture/keymgr.py:145-154 | in a consistent vault the right secret is always accepted |
| KeyMgr.ValidateKeepsConsistent | capture/keymgr.py:126-156 | validation keeps the challenge and autostart copy in step with the wrapped key |
| KeyMgr.LockSeconds | capture/keymgr.py:193-194 | the lock lasts 300 s after the first failure, 3600 s after the second and 86400 s from the third on |
| KeyMgr.LockSecondsMonotone | capture/keymgr.py:23 | the lock length never shrinks as failures accumulate |
| KeyMgr.RecordFailureCounts | capture/keymgr.py:173-197 | each failure raises `fails` by exactly one and returns the new count; below 12 it reports the lock length, sets `lock_until` to now plus that length, writes only the lock file and leaves the store alone |
| KeyMgr.DestructiveReset | capture/keymgr.py:179-192 | at the twelfth failure the result is `(total, None)`, the key file and the IPC info file are gone so the directory is no longer protected, the lock is cleared and `reset` is set |
| KeyMgr.ResetErasesEntries | capture/keymgr.py:189-191 | at the reset the challenge, recovery and autostart entries are gone, except for a fallback copy left behind by a working keyring's delete |
| KeyMgr.ErasedResetEntries | capture/keymgr.py:189 | the reset deletes the challenge, then the recovery token, then the autostart key |
| KeyMgr.ErasedResetLookup | capture/keymgr.py:189-191 | after the three deletions, each of the three names answers as a single deletion of it would make it answer |
| KeyMgr.ErasedOther | capture/keymgr.py:87-98 | deleting another name keeps what the keyring and the fallback file say of this one |
| KeyMgr.ErasedAllKeepsFiles | capture/keymgr.py:189-191 | deleting any list of entries leaves the files alone |
| KeyMgr.RecordFailureKeepsConsistent | capture/keymgr.py:173-197 | recording a failure keeps the vault consistent |
| KeyMgr.AutostartKey | capture/keymgr.py:204-208 | the autostart key is returned iff it is stored and not blank once stripped |
| KeyMgr.ChangeUsageErrors | capture/keymgr.py:243-255 | fewer than two lines, an empty auth or new secret, or no key file exit with 2 and change nothing |
| KeyMgr.ChangeChecksAuthFirst | capture/keymgr.py:257-287 | a wrong passphrase, or a missing recovery token or one that differs after `strip`, exits with 1 whatever the new secret; exit 3 (new secret too weak) happens only after authentication succeeded |
| KeyMgr.AuthenticateKeepsFiles | capture/keymgr.py:256-279 | authentication never touches the files of `encrypted/` |
| KeyMgr.ChangeSucceeds | capture/keymgr.py:240-302 | in a consistent vault `--change` exits with 0 if and only if stdin holds two non-empty lines, the key file exists, the first line is the current passphrase (or, with `--use-recovery`, equals the stored recovery token after `strip` and an autostart copy is stored), and the second line passes the PIN or the passphrase policy |
| KeyMgr.AuthenticateIff | capture/keymgr.py:257-279 | in a consistent vault authentication succeeds exactly for those credentials, and a refusal exits with 1 or 5, never 0 |
| KeyMgr.RecoveryAuthIff | capture/keymgr.py:257-269 | the recovery path accepts exactly a non-empty token equal after `strip` with a non-empty autostart copy (which a consistent vault can always decode) |
| KeyMgr.PassphraseAuthIff | capture/keymgr.py:270-279 | the passphrase path accepts exactly the secret the key file is wrapped under |
| KeyMgr.AuthenticateYieldsKey | capture/keymgr.py:257-279 | in a consistent vault both authentication paths recover the wrapped data key itself and keep the vault consistent |
| KeyMgr.ChangeKeepsLock | capture/keymgr.py:240-305 | `--change` never touches the lock state, and a change that does not exit with 0 keeps the wrapped key |
| KeyMgr.AfterAuthFiles | capture/keymgr.py:280-302 | after authentication only a successful change writes a file, and that file is the key file |
| KeyMgr.RewrapFiles | capture/keymgr.py:288-290 | re-wrapping writes the key file, with the data key wrapped under the new secret, and nothing else of `encrypted/` |
| KeyMgr.RewrapKeepsConsistent | capture/keymgr.py:288-298 | re-wrapping stores the new wrap and the new recovery token and keeps the vault consistent |
| KeyMgr.ChangeRewraps | capture/keymgr.py:240-302 | a successful change re-wraps the same data key under the new secret, prints and stores the fresh recovery token, keeps the vault consistent, and afterwards validation succeeds exactly for the new secret |
| KeyMgr.ChangeKeepsConsistent | capture/keymgr.py:240-305 | every `--change` outcome leaves a consistent vault consistent |
| KeyMgr.KeyManager.KrSet | capture/keymgr.py:57-67 | the new state is the old one with the entry stored by the keyring, or by the fallback file when the keyring fails |
| KeyMgr.KeyManager.KrGet | capture/keymgr.py:70-84 | returns the keyring's non-empty answer, otherwise the fallback file's |
| KeyMgr.KeyManager.KrDelete | capture/keymgr.py:87-98 | the new state is the old one with the entry deleted from the keyring, or from the fallback file when the keyring raises |
| KeyMgr.KeyManager.CreateProtection | capture/keymgr.py:101-123 | the outcome and the new state are those of `Create` on the old state |
| KeyMgr.KeyManager.ValidatePassphrase | capture/keymgr.py:126-156 | the answer and the new state are those of `Validate` on the old state |
| KeyMgr.KeyManager.RecordFailedAttempt | capture/keymgr.py:173-197 | the returned `(total, lock_seconds)` and the new state are those of `RecordFailure` on the old state |
| KeyMgr.KeyManager.RemoveFiles | capture/keymgr.py:183-188 | the unlink loop removes exactly the named files from the encryption directory and leaves the keyring alone |
| KeyMgr.KeyManager.DeleteEntries | capture/keymgr.py:189-191 | the delete loop leaves the state `ErasedAll` gives for the named entries |
| KeyMgr.KeyManager.GetLockInfo | capture/keymgr.py:159-166 | returns the stored lock state, and the fresh one when the lock file is missing |
| KeyMgr.KeyManager.GetAutostartKey | capture/keymgr.py:204-208 | returns the stored autostart key only when it is not blank once stripped |
| KeyMgr.KeyManager.ChangeSecret | capture/keymgr.py:240-305 | the exit code, the printed recovery token and the new state are those of `Change` on the old state |
| KeyMgr.KeyManager.CheckAuth | capture/keymgr.py:256-279 | the authentication answer and the new state are those of `Authenticate` on the old state |
| Screenshot.CollapseChars | capture/screenshot.py:108 | after the first substitution only letters, digits and `_` are left |
| Screenshot.CollapseNoDouble | capture/screenshot.py:108 | after the first substitution no `__` is left |
| Screenshot.CollapseAlnums | capture/screenshot.py:108 | the first substitution keeps every letter and digit of the title, in order |
| Screenshot.SqueezeNoDouble | capture/screenshot.py:109 | collapsing `_+` leaves no `__` |
| Screenshot.SqueezeNoOp | capture/screenshot.py:109 | collapsing `_+` changes nothing in a string without `__` |
| Screenshot.CleanTitleShape | capture/screenshot.py:108-109 | the cleaned title holds only `[A-Za-z0-9_]`, has no `__`, and starts with a letter or digit when non-empty |
| Screenshot.CleanTitleAlnums | capture/screenshot.py:108-109 | the cleaned title has exactly the letters and digits of the title |
| Screenshot.SanitizeTitle | capture/screenshot.py:109-110 | the title part is 1 to 80 characters long |
| Screenshot.SanitizeTitleShape | capture/screenshot.py:108-110 | the title part holds only `[A-Za-z0-9_]`, has no `__`, and starts with a letter or digit (never `_`) |
| Screenshot.SanitizeFallback | capture/screenshot.py:109 | a title without any letter or digit (empty, blank or all symbols) becomes `window` |
| Screenshot.SanitizeKeepsAlnums | capture/screenshot.py:108-110 | a title with a letter or digit keeps a non-empty prefix of its letters and digits, and all of them when it is at most 80 long |
| Screenshot.CleanTitleKept | capture/screenshot.py:108-110 | a title of 1 to 80 letters and digits is kept as it is |
| Screenshot.ZeroPadValue | capture/screenshot.py:111 | a zero-padded field is all digits and reads back as its number |
| Screenshot.FormatRoundTrip | capture/screenshot.py:111 | the `%Y-%m-%d_%H-%M-%S` text is 19 characters and reading it back gives the same date and time |
| Screenshot.TimestampChars | capture/screenshot.py:111 | every character of the stamp is a digit, `-` or `_` |
| Screenshot.FromEpoch | capture/screenshot.py:53-55 | the calendar fields of an instant are in range (month 1-12, day 1-31, hour, minute and second of the day) |
| Screenshot.FromEpochSpec | capture/screenshot.py:53-55 | the fields of an instant name a real date (day at most the month's length), and counting days from 1970-01-01 by the independent `Ordinal` (days before the year, days before the month, the day) and adding the seconds of the day gives back the instant |
| Screenshot.OrdinalToDateSpec | capture/screenshot.py:53-55 | the cycle-based ordinal-to-date conversion inverts the day count: every day number names a valid date whose `Ordinal` is that number |
| Screenshot.MonthDaySpec | capture/screenshot.py:53-55 | the estimated month, corrected by one, holds day `rest` of the year: the day is within the month and the days before it plus the day give back `rest` |
| Screenshot.FromEpochAtEpoch | capture/screenshot.py:53-55 | example: instant 0 is 1970-01-01 00:00:00 |
| Screenshot.FromEpochLeapDay | capture/screenshot.py:53-55 | example: 2024 is a leap year, so instant 1709164800 is 2024-02-29 00:00:00 |
| Screenshot.FromEpochYearEnd | capture/screenshot.py:53-55 | example: instant 1767225599 is 2025-12-31 23:59:59 |
| Screenshot.SpecNormalised | capture/screenshot.py:69 | the time-zone spec is read stripped and upper-cased |
| Screenshot.DstCaseSensitive | capture/screenshot.py:70 | DST is on for `TRUE` and `Y` but not for `true` or `on`, and off when the variable is unset |
| Screenshot.UtcFallback | capture/screenshot.py:73-93 | `UTC`, `+0000` and every spec that is neither `LOCAL` nor `±HHMM` mean UTC plus one hour under DST |
| Screenshot.LocalFollowsSystem | capture/screenshot.py:76-81 | `LOCAL` is the system wall clock plus one hour under DST, whatever the UTC instant |
| Screenshot.OffsetLaws | capture/screenshot.py:82-90 | a `±HHMM` spec is `sign * (HH * 60 + MM)` minutes, `-HHMM` mirrors `+HHMM`, and DST adds 60 minutes to either sign |
| Screenshot.OffsetExample | capture/screenshot.py:82-90 | `+0200` at 12:00Z reads 14:00, and 15:00 under DST |
| Screenshot.DropLineBreaks | capture/screenshot.py:112 | the result holds no `\n` or `\r`, and a name without them is unchanged |
| Screenshot.RemovalIsNoOp | capture/screenshot.py:112 | the name built before the removal holds no line break, so the removal changes nothing |
| Screenshot.StemChars | capture/screenshot.py:108-111 | the part before `.png` holds only title characters, `-` and `_` |
| Screenshot.GenerateFilename | capture/screenshot.py:96-113 | a name is produced iff the stamp is a valid date and time in the years 1 to 9999 (the day at most the month's length, February 29 only in leap years); it never holds a line break |
| Screenshot.ClockStampInRange | capture/screenshot.py:58-93 | the wall-clock stamp always has a valid date and time of day, so the clock path fails only for a year outside 1 to 9999 |
| Screenshot.FilenameShape | capture/screenshot.py:105-111 | every name is the sanitised title, `_`, the stamp and `.png` |
| Screenshot.ExplicitTimestampWins | capture/screenshot.py:105-106 | an explicit timestamp gives the same name whatever the environment and the clock |
| Ocr.BeforeLastDot | capture/ocr.py:46 | `rsplit(".", 1)[0]` is a prefix of the name |
| Ocr.EndsInTxt | capture/ocr.py:46-47 | the OCR name always ends in `.txt` |
| Ocr.NoDotKeepsName | capture/ocr.py:46-47 | a name without a dot keeps all of itself before `.txt` |
| Ocr.ReplacesLastExtension | capture/ocr.py:46-47 | only the final extension is replaced: `stem.ext` becomes `stem.txt` even when the stem has dots |
| Ocr.PngToTxt | capture/ocr.py:46-47 | a dot-free stem with `.png` maps to the stem with `.txt` |
| Ocr.OcrOfCapture | capture/ocr.py:46-47 | the OCR name of a capture name is that name with `.png` replaced by `.txt` |
| Ocr.OcrOfGenerated | capture/ocr.py:46-47 | for every name `generate_filename` produces, the OCR name is the same stem with `.txt` |
| ActiveWindow.ReadPosition | capture/active_window.py:67-72 | a `Position:` line sets `left` and `top` and leaves `width` and `height` alone |
| ActiveWindow.ReadSize | capture/active_window.py:73-77 | a `Geometry:` line sets `width` and `height` and leaves `left` and `top` alone |
| ActiveWindow.ReadLine | capture/active_window.py:65-77 | a line that starts with neither key changes nothing |
| ActiveWindow.FailureSticks | capture/active_window.py:65-87 | once a line raises, the whole parse ends with that exception |
| ActiveWindow.ReadAll | capture/active_window.py:65-77 | the loop over the lines computes the line-by-line reading |
| ActiveWindow.ParseGeometry | capture/active_window.py:61-87 | the parse of the geometry text computes `GeometryOf` of it |
| ActiveWindow.GeometryOfXdotool | capture/active_window.py:61-85 | the parser reads back the rectangle from the text `xdotool` prints for it |
| ActiveWindow.LinesOfXdotool | capture/active_window.py:62-63 | that text splits into the header line, the position line and the geometry line |
| ActiveWindow.PositionTextReads | capture/active_window.py:67-72 | a printed position line sets `left` and `top` to its numbers |
| ActiveWindow.SizeTextReads | capture/active_window.py:73-77 | a printed geometry line sets `width` and `height` to its numbers |
| ActiveWindow.HeaderReads | capture/active_window.py:65-77 | the `Window <id>` header line changes nothing |
| ActiveWindow.LeftNeedsPositionLine | capture/active_window.py:67-72 | `left` is set only if some stripped line starts with `Position:` |
| ActiveWindow.WidthNeedsGeometryLine | capture/active_window.py:73-77 | `width` is set only if some stripped line starts with `Geometry:` |
| ActiveWindow.FoundNeedsBothLines | capture/active_window.py:78-79 | a rectangle is found only when both a position line and a geometry line are there |
| ActiveWindow.BarePositionRaises | capture/active_window.py:69-87 | a `Position:` line with nothing after the key raises inside the parse |
| ActiveWindow.TitleOf | capture/active_window.py:60 | the title is the stripped window name, and `window` when that is empty |
| ActiveWindow.EmptyNameIsWindow | capture/active_window.py:60 | an empty or blank window name gives the title `window` |
| ActiveWindow.LinuxActiveWindow | capture/active_window.py:53-87 | a window is returned only when all three commands answered, with the title from the name and the rectangle the geometry parse found; an exception escapes exactly when the parse raises something other than `ValueError` |
| ActiveWindow.GetActiveWindow | capture/active_window.py:90-118 | a returned window always has a non-empty title |
| ActiveWindow.LinuxWindowWins | capture/active_window.py:96-100 | on Linux a window found through `xdotool` is returned as it is |
| ActiveWindow.DefaultWindow | capture/active_window.py:101-118 | when detection fails and no monitor answers, the result is `("window", (0, 0, 1920, 1080))` |
| ActiveWindow.OffLinuxIgnoresXdotool | capture/active_window.py:96-98 | off Linux, `xdotool` is not consulted |
| ActiveWindow.InitialBackendChoice | capture/active_window.py:25-29 | the backend starts as `imagegrab` exactly when the override, stripped and lower-cased, says so; otherwise it is `mss`, and it is always one of the two names |
| ActiveWindow.GrabBox | capture/active_window.py:142 | the ImageGrab box is `(left, top, left + width, top + height)` |
| ActiveWindow.ImageGrabIsFinal | capture/active_window.py:137-145 | on `imagegrab` a capture never tries `mss` and keeps the backend and the counter; a grab uses the box of the region |
| ActiveWindow.SwitchToImageGrab | capture/active_window.py:147-175 | from `mss`, the backend switches to `imagegrab` exactly when both `mss` attempts raise `ScreenShotError` and ImageGrab then succeeds |
| ActiveWindow.FailureCounter | capture/active_window.py:147-167 | a saved `mss` grab resets the counter to 0 and grabs the region; otherwise each `ScreenShotError` adds one, at most two per call |
| ActiveWindow.FallbackFailureRaises | capture/active_window.py:168-177 | when both `mss` attempts fail and ImageGrab fails too, the call raises with both failures counted and the backend still `mss` |
| ActiveWindow.NeverBackToMss | capture/active_window.py:124-177 | no sequence of captures sets the backend back to `mss` |
| ActiveWindow.Capturer.GetBackend | capture/active_window.py:121-122 | the name is `mss` or `imagegrab`, and `imagegrab` exactly on that backend |
| ActiveWindow.Capturer.CaptureRegion | capture/active_window.py:124-177 | the outcome and the new counter and backend are those of `CaptureSpec` on the old state |
| LoggingConfig.LevelIndex | capture/logging_config.py:35-39 | the index is a valid position in `LEVEL_ORDER` |
| LoggingConfig.LevelIndexSpec | capture/logging_config.py:35-39 | a known name is found at its upper-cased position; any other name gives 2, the position of `INFO` |
| LoggingConfig.LevelIndexExamples | capture/logging_config.py:29 | example: `trace` is 0, `Warning` 3, `critical` 5, and `verbose` or the empty name 2 |
| LoggingConfig.LevelName | capture/logging_config.py:98 | the stored level is upper-case and non-empty, `INFO` for an empty input |
| LoggingConfig.LevelNameIdempotent | capture/logging_config.py:131 | storing a stored level name again changes nothing |
| LoggingConfig.RotateBytes | capture/logging_config.py:45 | the threshold is the size clamped to 1..64 MiB, in bytes |
| LoggingConfig.StoredRotateMb | capture/logging_config.py:100-101 | the stored size is the given one when positive, 2 otherwise, and never above 64 |
| LoggingConfig.StoredSizeInRange | capture/logging_config.py:100-110 | a handler built from the stored size clamps nothing more |
| LoggingConfig.BackupPath | capture/logging_config.py:58 | the rollover name is the path with `.1` appended |
| LoggingConfig.EmitEffect | capture/logging_config.py:57-66 | after a rotation the file holds just the new line and `.1` the old file (an older `.1` replaced); otherwise the line is appended; no other file changes |
| LoggingConfig.EmitKeepsBound | capture/logging_config.py:57-66 | a file kept within the threshold stays within it whenever each line fits |
| LoggingConfig.RotatingFile.Emit | capture/logging_config.py:51-66 | the new file system is the old one with the line written, rotating when the current size plus the encoded line exceeds the threshold |
| LoggingConfig.PlainLine | capture/logging_config.py:92 | the plain line is `[ts] LEVEL logger: msg` |
| LoggingConfig.PlainHeaderRoundTrip | capture/logging_config.py:92 | the time stamp, the level and the rest read back from a plain line |
| LoggingConfig.ApplyLevel | capture/logging_config.py:114 | setting the root level keeps the stored level and the handlers, and raises for a name the logging library does not know |
| LoggingConfig.SetRuntimeLevelSpec | capture/logging_config.py:128-133 | the call blocks forever exactly when the caller already holds the lock |
| LoggingConfig.ConfigureAsWritten | capture/logging_config.py:95-125 | as written, every call after the first deadlocks |
| LoggingConfig.SecondConfigureDeadlocks | capture/logging_config.py:97-104 | a first `configure_logging()` returns and a second one never returns |
| LoggingConfig.FirstTraceConfigureRaises | capture/logging_config.py:114-120 | as written, a first `configure_logging(level="trace")` raises, because `TRACE` is registered only after the root level is set |
| LoggingConfig.Configure | capture/logging_config.py:95-125 | corrected, no call deadlocks, and every call stores the upper-cased level and the clamped size |
| LoggingConfig.ConfigureInstallsOneHandler | capture/logging_config.py:105-125 | the first call replaces the root handlers by exactly one rotating handler with the default or given path and records the configuration |
| LoggingConfig.ReconfigureKeepsHandlers | capture/logging_config.py:102-104 | later calls keep the handlers and the path and only update the level and settings |
| LoggingConfig.ConfigureIdempotent | capture/logging_config.py:10 | configuring twice with the same arguments leaves what configuring once leaves |
| LoggingConfig.FirstCallsAgree | capture/logging_config.py:105-125 | the written and corrected first calls agree on every level other than `TRACE` |
| LoggingConfig.Logging.ConfigureLogging | capture/logging_config.py:95-125 | the new state and whether the call raised are those of `Configure` on the old state |
| LoggingConfig.Logging.SetRuntimeLevel | capture/logging_config.py:128-133 | the new state and whether the call raised are those of `set_runtime_level` with the lock free |
| LoggingConfig.Logging.GetRuntimeLevel | capture/logging_config.py:136-137 | returns the stored current level |
| Hybrid.Unseen | search/hybrid.py:46 | the semantic part holds exactly the semantic hits that are not keyword hits |
| Hybrid.Merge | search/hybrid.py:46 | the merged list starts with the keyword hits and names exactly the keyword and semantic hits |
| Hybrid.UnseenNoDuplicates | search/hybrid.py:46 | the filter adds no duplicate |
| Hybrid.MergeNoDuplicates | search/hybrid.py:46 | merging duplicate-free hit lists gives a duplicate-free list |
| Hybrid.UnseenOne | search/hybrid.py:46 | a single hit is kept exactly when it is not a keyword hit |
| Hybrid.UnseenConcat | search/hybrid.py:46 | the filter distributes over concatenation, so the kept hits stay in their order |
| Hybrid.UnseenCounts | search/hybrid.py:46 | each hit that is not a keyword hit is kept as many times as it occurs, and a keyword hit never |
| Hybrid.UnseenAllNew | search/hybrid.py:46 | when no semantic hit is a keyword hit, the filter keeps the semantic hits unchanged |
| Hybrid.NoSemanticHits | search/hybrid.py:44-46 | with no semantic hits the candidates are the keyword hits |
| Hybrid.ResultCount | search/hybrid.py:47-53 | there are at most as many results as candidates and at most `max(limit, 1)`, and at least one when there is a candidate, since the limit is checked after the append |
| Hybrid.HybridSearch | search/hybrid.py:28-54 | the `i`-th result names the merged list at the `i`-th reranked position, has rank `i` and source `hybrid`, and their number is `ResultCount` |
| Hybrid.ResultsFollowMerge | search/hybrid.py:48-50 | reranked, the results follow the merged order |
| Rerank.RerankOrder | search/rerank.py:24 | the order has one index per document and puts index `i` at position `i` |
| Rerank.RerankIsPermutation | search/rerank.py:24 | the order is a permutation of 0..n-1 |
| Rerank.RerankIgnoresContent | search/rerank.py:13-24 | the order depends only on the number of documents, and no documents give no order |
| SpdxHook.ReadText | scripts/spdx_header_hook.py:33 | text read in universal-newline mode holds no `\r` |
| SpdxHook.ReadTextNoCr | scripts/spdx_header_hook.py:33 | reading a text without `\r` keeps it unchanged |
| SpdxHook.HasSpdxSpec | scripts/spdx_header_hook.py:27-29 | a file counts as headed exactly when one of its first five lines holds the SPDX text |
| SpdxHook.HasSpdxAt | scripts/spdx_header_hook.py:27-29 | the SPDX text on any of the first five lines counts |
| SpdxHook.HasSpdxLooksAtFive | scripts/spdx_header_hook.py:28 | lines after the fifth do not matter |
| SpdxHook.HeaderAt | scripts/spdx_header_hook.py:39-41 | the header goes after the first line exactly when that line starts with `#!/` |
| SpdxHook.PythonHeader | scripts/spdx_header_hook.py:45-51 | the `# SPDX…` comment is inserted exactly when the first non-blank line after the shebang opens a triple-quoted docstring, `PY_TEMPLATE` otherwise |
| SpdxHook.BlankNotDocstring | scripts/spdx_header_hook.py:46-48 | a blank line never counts as opening a docstring |
| SpdxHook.PythonLines | scripts/spdx_header_hook.py:36-52 | the new lines are the shebang (if any), the header, then every original line after it, unchanged |
| SpdxHook.DocstringFollowsSpec | scripts/spdx_header_hook.py:45-48 | a docstring follows exactly when, after only blank lines, a line opens one |
| SpdxHook.NewPythonLines | scripts/spdx_header_hook.py:36-52 | the building loop computes `PythonLines` |
| SpdxHook.ProcessPython | scripts/spdx_header_hook.py:32-54 | the file is left unchanged exactly when it already has the SPDX text in its first five lines |
| SpdxHook.ProcessJs | scripts/spdx_header_hook.py:57-63 | the file is left unchanged exactly when it already has the SPDX text in its first five lines |
| SpdxHook.JsPrepends | scripts/spdx_header_hook.py:61 | the JavaScript output is `JS_LINE` followed by the original text |
| SpdxHook.PythonInserts | scripts/spdx_header_hook.py:36-53 | the Python output is the original text with the header inserted after the shebang line, if any |
| SpdxHook.PythonOutputHasSpdx | scripts/spdx_header_hook.py:36-53 | every Python output has the SPDX text in its first five lines |
| SpdxHook.JsIdempotent | scripts/spdx_header_hook.py:13 | processing a JavaScript output again changes nothing |
| SpdxHook.PythonIdempotent | scripts/spdx_header_hook.py:13 | processing a Python output again changes nothing |
| SpdxHook.ProcessedIdempotent | scripts/spdx_header_hook.py:13 | a processed file of either kind is left alone the next time |
| SpdxHook.NameOf | scripts/spdx_header_hook.py:71 | the file name is the final slash-free part of the path |
| SpdxHook.SuffixShape | scripts/spdx_header_hook.py:71-73 | `path.suffix` is empty or a dot-led tail of the path |
| SpdxHook.SuffixOfName | scripts/spdx_header_hook.py:71-73 | `stem.ext` has suffix `.ext` |
| SpdxHook.HiddenNameHasNoSuffix | scripts/spdx_header_hook.py:71-73 | a hidden name such as `.py` has no suffix, so it is not a target |
| SpdxHook.TargetKindSpec | scripts/spdx_header_hook.py:66-74 | only existing files are targets, Python exactly for suffix `.py` and JavaScript exactly for `.js` |
| SpdxHook.Apply | scripts/spdx_header_hook.py:79-81 | a file is rewritten, and counted as changed, exactly when its processor produced new text |
| SpdxHook.Step | scripts/spdx_header_hook.py:66-81 | an unchanged target leaves the file system as it is |
| SpdxHook.StepFrame | scripts/spdx_header_hook.py:66-81 | one target can rewrite only itself, and missing paths and directories are skipped |
| SpdxHook.Args | scripts/spdx_header_hook.py:79 | the targets are the arguments after the program name |
| SpdxHook.ExitCode | scripts/spdx_header_hook.py:84 | the exit code is 1 iff at least one file changed, 0 otherwise |
| SpdxHook.RunSettles | scripts/spdx_header_hook.py:77-84 | after the hook every target it visited carries a header or is not a target |
| SpdxHook.RunOverSettled | scripts/spdx_header_hook.py:77-84 | over targets that are all settled, the hook changes nothing and counts nothing |
| SpdxHook.RunIdempotent | scripts/spdx_header_hook.py:13 | running the hook again with the same arguments changes nothing and exits with 0 |
| SpdxHook.RunFrame | scripts/spdx_header_hook.py:77-84 | the hook touches only the paths it is given, and with nothing counted nothing changed |
| SpdxHook.Hook.ProcessPythonFile | scripts/spdx_header_hook.py:32-54 | the new files and the answer are those of `Apply` with the Python processor |
| SpdxHook.Hook.ProcessJsFile | scripts/spdx_header_hook.py:57-63 | the new files and the answer are those of `Apply` with the JavaScript processor |
| SpdxHook.Hook.ProcessTarget | scripts/spdx_header_hook.py:66-81 | the new files and the answer are those of `Step` |
| SpdxHook.Hook.RunHook | scripts/spdx_header_hook.py:77-84 | the new files are those of the run over the arguments, and the code is 1 iff some file changed |
| TodoWorkbook.DropComments | scripts/build_main_todo_workbook.py:64 | the kept rows are exactly the lines that do not start with `//` |
| TodoWorkbook.DropCommentsConcat | scripts/build_main_todo_workbook.py:64 | the filter works line by line, so it keeps the order |
| TodoWorkbook.DropCommentsNone | scripts/build_main_todo_workbook.py:64 | a file without comment lines keeps all of them |
| TodoWorkbook.CsvRows | scripts/build_main_todo_workbook.py:62-66 | the rows handed to the CSV reader are non-empty and comment-free; an empty result gives the empty frame |
| TodoWorkbook.CsvTextRoundTrip | scripts/build_main_todo_workbook.py:62-68 | when the last kept row is not empty, the text handed to the CSV reader splits back into exactly the kept rows (a trailing empty row would be lost to the final newline; pandas' `skip_blank_lines` drops such a row from the frame either way) |
| TodoWorkbook.SafeSheetName | scripts/build_main_todo_workbook.py:90 | a sheet name is cut to its first 31 characters and kept whole when shorter |
| TodoWorkbook.SafeSheetNameIdempotent | scripts/build_main_todo_workbook.py:90 | truncating twice is truncating once |
| TodoWorkbook.KeyColumn | scripts/build_main_todo_workbook.py:100-109 | the key column is `MainKey` when present, else `Key`, else none |
| TodoWorkbook.AddCellsKeeps | scripts/build_main_todo_workbook.py:108 | an existing index entry is never overwritten |
| TodoWorkbook.AddCellsFirst | scripts/build_main_todo_workbook.py:103-108 | a new key gets the Excel row (logical index + 2) of its first cell |
| TodoWorkbook.AddCellsAbsent | scripts/build_main_todo_workbook.py:103-108 | a key no cell holds is not added |
| TodoWorkbook.IndexAbsent | scripts/build_main_todo_workbook.py:97-110 | a key no detail sheet mentions stays out of the index |
| TodoWorkbook.IndexFirstMention | scripts/build_main_todo_workbook.py:97-110 | the first sheet, in load order, to mention a key fixes its entry at the row of its first mention there |
| TodoWorkbook.KeyIndexSpec | scripts/build_main_todo_workbook.py:94-110 | the index holds exactly the non-empty text keys of the detail sheets' key columns (the master sheet is skipped), each with the sheet and row of its first mention |
| TodoWorkbook.BuildKeyIndex | scripts/build_main_todo_workbook.py:94-110 | the nested loops compute `KeyIndex` |
| TodoWorkbook.AddAll | scripts/build_main_todo_workbook.py:103-108 | the inner loop computes the `setdefault` of every cell of the key column |
| TodoWorkbook.HyperlinkRoundTrip | scripts/build_main_todo_workbook.py:140 | the link formula leads to the sheet and row it was written for |
| TodoWorkbook.FirstIndex | scripts/build_main_todo_workbook.py:122 | `header.index(x)` finds the first position of `x`, and nothing when `x` is absent |
| TodoWorkbook.WithLinkHeader | scripts/build_main_todo_workbook.py:118-121 | the `Link` header is added as a new last column only when absent, and the other cells are kept |
| TodoWorkbook.LinkHeaderOnce | scripts/build_main_todo_workbook.py:119-121 | the `Link` header is never added twice |
| TodoWorkbook.LinkedGrid | scripts/build_main_todo_workbook.py:132-141 | the row loop keeps the header row and the shape of the grid |
| TodoWorkbook.LinkedCells | scripts/build_main_todo_workbook.py:132-141 | only a row's link cell can change, and it gets a formula leading to the index entry exactly when the row's key is truthy and indexed |
| TodoWorkbook.MaxLenIsMax | scripts/build_main_todo_workbook.py:146-153 | `max_len` is the length of the longest non-empty cell of the column, or 0 |
| TodoWorkbook.ColumnWidth | scripts/build_main_todo_workbook.py:154 | a width is between 2 and 60 |
| TodoWorkbook.ColumnWidthFits | scripts/build_main_todo_workbook.py:144-154 | each column fits its longest text plus two, up to the cap of 60 |
| TodoWorkbook.WidthsUpToSpec | scripts/build_main_todo_workbook.py:144-154 | every header column, numbered from 1, gets its width |
| TodoWorkbook.LinkRows | scripts/build_main_todo_workbook.py:132-141 | the row loop computes `LinkedGrid` |
| TodoWorkbook.ColumnMax | scripts/build_main_todo_workbook.py:146-153 | the cell loop computes the column's `MaxLen` |
| TodoWorkbook.ColumnWidths | scripts/build_main_todo_workbook.py:144-154 | the column loop sets every column's width and keeps earlier widths of other columns |
| TodoWorkbook.MasterSheet.AppendHyperlinks | scripts/build_main_todo_workbook.py:113-157 | without a `Key` header nothing is saved; otherwise the grid gets the `Link` column filled from the index, every column its width, and the panes freeze at `A2` |
| TestReports.TaggedMembers | tests/auto-test-reports/parse_junit_and_coverage.py:32 | `findall(tag)` returns exactly the elements with that tag, in order |
| TestReports.FindSpec | tests/auto-test-reports/parse_junit_and_coverage.py:38 | `find(tag)` returns the first child with that tag, and nothing when there is none |
| TestReports.ContributionSpec | tests/auto-test-reports/parse_junit_and_coverage.py:29-31 | an absent or empty counter adds 0; any other value adds its `int()`, or raises |
| TestReports.SuiteCountsSpec | tests/auto-test-reports/parse_junit_and_coverage.py:28-31 | a suite's counters read without raising iff every present, non-empty one is an integer, and then each total is that suite's value |
| TestReports.SumSpec | tests/auto-test-reports/parse_junit_and_coverage.py:27-31 | the totals are computed iff every suite's counters read |
| TestReports.SumIsTotal | tests/auto-test-reports/parse_junit_and_coverage.py:24-31 | each JUnit total is the sum, over the suites, of that attribute's integer value where it is present and non-empty |
| TestReports.FailureNode | tests/auto-test-reports/parse_junit_and_coverage.py:38-41 | corrected, the message is read from the `failure` child when there is one, else from the `error` child, and there is a node exactly for a failed case |
| TestReports.FailureNodeAsWritten | tests/auto-test-reports/parse_junit_and_coverage.py:40 | as written, the node differs from the corrected one only when the `failure` child has no children |
| TestReports.FailedListAppend | tests/auto-test-reports/parse_junit_and_coverage.py:32-43 | the failed list of more cases extends the failed list of fewer, in document order |
| TestReports.SuitesAsWritten | tests/auto-test-reports/parse_junit_and_coverage.py:23 | as written, the suites are the `testsuite` elements strictly below the root |
| TestReports.Suites | tests/auto-test-reports/parse_junit_and_coverage.py:22-23 | corrected, the suites are the root when it is a `testsuite`, then those below it |
| TestReports.ParseJunit | tests/auto-test-reports/parse_junit_and_coverage.py:19-44 | corrected (root suite read through `Suites`, message through the corrected `FailureNode`): raises exactly when a counter's `int()` or a time's `float()` fails; otherwise it returns the summed totals and the failed entries (class, name, stripped message) of exactly the cases with a `failure` or `error` child, in document order |
| TestReports.ParseSuites | tests/auto-test-reports/parse_junit_and_coverage.py:27-43 | corrected (the suites of `Suites`, the entries of the corrected `FailureNode`): the suite loop computes the totals and the failed list, or raises |
| TestReports.SuiteStep | tests/auto-test-reports/parse_junit_and_coverage.py:27-43 | corrected (entries through the corrected `FailureNode`): one suite adds its counters and its cases' entries to those so far |
| TestReports.AddSuite | tests/auto-test-reports/parse_junit_and_coverage.py:28-31 | the counter loop adds a suite's counters to the totals, or raises |
| TestReports.AddCases | tests/auto-test-reports/parse_junit_and_coverage.py:32-43 | corrected (a childless `failure` keeps its message, see `FailureNode`): the test-case loop appends the entries of the failed cases, or raises on a time `float()` rejects |
| TestReports.SingleSuiteLostAsWritten | tests/auto-test-reports/parse_junit_and_coverage.py:23 | as written, a document whose root is its only `testsuite` yields no suites, zero totals and no failed cases |
| TestReports.SingleSuiteRead | tests/auto-test-reports/parse_junit_and_coverage.py:22-23 | corrected, that root is the one suite read, with its own test cases |
| TestReports.OneSuiteTotals | tests/auto-test-reports/parse_junit_and_coverage.py:24-31 | the totals of a single suite are that suite's counters |
| TestReports.ChildlessFailureMessage | tests/auto-test-reports/parse_junit_and_coverage.py:40-42 | as written, a childless `<failure message="m"/>` gives an empty message; corrected, `m` stripped |
| TestReports.RateChoice | tests/auto-test-reports/parse_junit_and_coverage.py:49 | the rate is `line-rate` when non-empty, else `line_rate`, else empty |
| TestReports.Percent | tests/auto-test-reports/parse_junit_and_coverage.py:49-53 | there is a percentage iff the rate is non-empty and `float()` accepts it, and it is computed from that rate |
| TestReports.NoRateNoPercent | tests/auto-test-reports/parse_junit_and_coverage.py:49-53 | with neither attribute there is no percentage |
| TestReports.DecimalRatePercent | tests/auto-test-reports/parse_junit_and_coverage.py:50-51 | example: a rate such as `0.85` gives a percentage |
| TestReports.BumpCount | tests/auto-test-reports/parse_junit_and_coverage.py:64 | `missed[fname] += 1` adds one to that file and no other |
| TestReports.TallySpec | tests/auto-test-reports/parse_junit_and_coverage.py:55-66 | each file's count is the number of its missed lines; the files with a count are exactly those with a missed line, each once, and every count is positive |
| TestReports.SortDescSpec | tests/auto-test-reports/parse_junit_and_coverage.py:67 | the sort gives descending counts and a permutation of the tally |
| TestReports.SortDescStable | tests/auto-test-reports/parse_junit_and_coverage.py:67 | files with equal counts keep their insertion order |
| TestReports.TakePy | tests/auto-test-reports/parse_junit_and_coverage.py:67 | `[:top_n]` is a prefix of `top_n` entries at most, and Python's slice for a negative `top_n` |
| TestReports.TopIsLargest | tests/auto-test-reports/parse_junit_and_coverage.py:67 | no file left out of the top list has more missed lines than one in it |
| TestReports.ParseCoverage | tests/auto-test-reports/parse_junit_and_coverage.py:46-68 | the percentage is `Percent` of the root, and the top list is the first `top_n` of the tally over the missed lines (`number` present and `hits` an integer 0), sorted by descending count |
| TestReports.TallyClasses | tests/auto-test-reports/parse_junit_and_coverage.py:56-66 | the class loop computes the tally of the missed lines of every class |
| TestReports.AddClass | tests/auto-test-reports/parse_junit_and_coverage.py:57-66 | the line loop counts one miss for the class's file per missed line |
| TestReports.Normalize | tests/auto-test-reports/parse_junit_and_coverage.py:76-77 | the normalised name holds only lower-case letters and digits |
| TestReports.NormalizeIdempotent | tests/auto-test-reports/parse_junit_and_coverage.py:148-149 | normalising twice is normalising once |
| TestReports.NormalizeConcat | tests/auto-test-reports/parse_junit_and_coverage.py:76-77 | normalising works character by character |
| TestReports.ReportFolderIff | tests/auto-test-reports/parse_junit_and_coverage.py:92 | a folder counts as a report folder iff its normalised name contains both `test` and `report` (the `testreports` test adds nothing) |
| TestReports.SavedFolderIsReport | tests/auto-test-reports/parse_junit_and_coverage.py:209-210 | the folder the parser saves its copies into, `test-reports_<iso>`, itself counts as a report folder |
| PyStr.DigitBodySpec | tests/auto-test-reports/parse_junit_and_coverage.py:31 | the digits `int()` accepts run from a digit to a digit, with single `_` between digits |
| PyStr.NumStripTrimmed | tests/auto-test-reports/parse_junit_and_coverage.py:31 | `int()` and `float()` cut off exactly the runs of number whitespace at both ends: ASCII ` \t\n\v\f\r` and the non-ASCII `isspace()` characters, but not the separators `\x1c`-`\x1f` |
| PyStr.ParseIntWhitespace | tests/auto-test-reports/parse_junit_and_coverage.py:31 | example: `int("\x1c5")` raises although `strip()` would remove the `\x1c`, and a no-break space around `5` is stripped |
| PyStr.ParseIntToStr | capture/active_window.py:71-77 | `int()` reads back the decimal text of every integer |
| PyStr.IntTextIsFloatText | tests/auto-test-reports/parse_junit_and_coverage.py:36 | every text `int()` accepts, `float()` accepts too |
| PyStr.FractionIsFloatText | tests/auto-test-reports/parse_junit_and_coverage.py:36 | `a.b` with digit strings `a` and `b` is a text `float()` accepts |

## Left out

- The file and keyring I/O, JSON encoding and directory creation of `capture/keymgr.py` become maps in a `Vault`. The keyring library is a map plus a flag saying whether the backend answers; its `delete_password` raises for a missing entry.
- Key wrapping, Fernet and base64 are symbolic. The wrapped key records its data key and secret, and a token records its key and plaintext. Their round-trip laws are proved about these stand-ins, not about the cipher; `wrap_key_with_passphrase` is not defined in the files this model follows.
- `os.urandom`, `generate_key()` and `datetime.now` are parameters. Times are whole seconds; the ISO text written for `last_fail` and `lock_until` is not modelled.
- KeyMgr: the `--create`, `--validate`, `--record-fail`, `--lock-info` and `--get-autostart` branches of `_main` only print what the modelled functions return, so the model does not include them; neither does the argument parsing. The `--change` branch takes the text it reads from stdin as a parameter. With `--pass-stdin` that stdin would already be consumed, which the model does not capture.
- KeyMgr.Change: exit 4 (wrapping the key or writing the key file raises, capture/keymgr.py:288-305) cannot occur, because wrapping is symbolic and file writes do not fail in the model.
- KeyMgr.KeyManager.ChangeSecret: never returns exit 4, for the same reason as `Change`.
- Exceptions that the source swallows with `except Exception: pass` around keyring writes are modelled only where the keyring may fail. An unreadable fallback file is treated as missing.
- Screenshot: the `LOCAL` time-zone branch uses the system zone. It is modelled as a given wall-clock value. `capture_active_window` only raises `NotImplementedError` and is not modelled.
- Ocr: `extract_text` calls Tesseract, a foreign library, and is not modelled.
- ActiveWindow: subprocess calls, `platform.system()`, and the `mss`/Pillow grab and save calls are inputs describing what they answered. The cached `_GLOBAL_MSS` instance is not modelled: it affects only which library object is reused.
- LoggingConfig: the `logging` library's handler installation, `Logger.trace` and `_JSON_MODE` JSON formatting are reduced to the installed handler record. `time.localtime` formatting of the time stamp is a parameter of the line format. `_LOCK` is modelled only as held or free, for the deadlock; concurrent callers are not modelled.
- Hybrid: `indexer.keyword_search` and the semantic search are inputs, as their hit lists. The score `1.0 - rank * 0.01` is kept as the rank, because the model has no floating point.
- SpdxHook: file contents are text in a map. `print` of changed paths is not modelled. `Path.exists` and `is_dir` are read from the map.
- TodoWorkbook: pandas, openpyxl and `load_dataframes`/`write_initial_workbook` I/O are given as tables and a grid. `main` and its exit on a missing master sheet are not modelled. A missing master sheet in the workbook (`RuntimeError`) is not modelled either, since the master sheet is the grid the model starts from.
- TodoWorkbook: the CSV parsing of `pd.read_csv` is not modelled; tables are given by column.
- TestReports: ElementTree parsing is not modelled; documents are given as element trees. The list of durations and its top-ten float sort are not modelled, because float values are out of scope. The time's `float()` is modelled only as the exception it may raise.
- TestReports.Percent: returns the rate text that `float(line_rate) * 100` is computed from, not the float product.
- TestReports: `main`, `_find_latest_reports` (directory walk and mtime sort), `_try_alternates`, the `rglob` discovery of `junit.xml` and `coverage.xml`, the copying into the workspace, and the printing are file-system I/O. None of these is modelled. The ISO time stamp of the saved folder is a parameter.
- PyStr: `str.isupper`, `islower`, `isdigit` and `isalnum` are modelled for ASCII only. `str.upper` and `str.lower` are modelled for ASCII letters only. `isspace` and `splitlines` use Python's exact lists of whitespace and line-break characters.
- PyStr.FloatText: accepts the decimal, exponent, `inf`, `infinity` and `nan` forms of `float()`, with signs and `_` between digits, inside number whitespace (see `NumSpace`). Non-ASCII decimal digits, which CPython maps to ASCII digits before parsing, are rejected, because the Unicode digit tables are not modelled.
- PyStr.ParseInt: accepts ASCII digits only. `int()` also accepts non-ASCII decimal digits (for example `int("\u0663") == 3`), which the model rejects for the same reason. The callers read XML attributes and xdotool output, which hold ASCII digits.

## Findings

| source | as written | input that shows it | evidently intended | confidence | as-written member | corrected member |
|---|---|---|---|---|---|---|
| capture/logging_config.py:97-103 | `configure_logging` holds `_LOCK` while it calls `set_runtime_level`, which takes the same non-reentrant `threading.Lock` (line 130) | a second `configure_logging()` after a first one | a repeated call only updates the level (the module promises idempotent setup at line 10) | not executed | LoggingConfig.SecondConfigureDeadlocks | LoggingConfig.ConfigureIdempotent |
| capture/logging_config.py:114 | the root level is set before `TRACE` is registered as a level name at line 120 | a first `configure_logging(level="trace")` | `TRACE` is accepted as a level | not executed | LoggingConfig.FirstTraceConfigureRaises | LoggingConfig.ConfigureInstallsOneHandler |
| tests/auto-test-reports/parse_junit_and_coverage.py:23 | `root.findall(".//testsuite")` finds only suites strictly below the root | a `junit.xml` whose root is `<testsuite tests="3">` | a single root `<testsuite>` is read too, as the comment at line 22 says | not executed | TestReports.SingleSuiteLostAsWritten | TestReports.SingleSuiteRead |
| tests/auto-test-reports/parse_junit_and_coverage.py:40 | `tc.find("failure") or tc.find("error")` tests an `Element`'s truth, which is false without children | `<testcase><failure message="boom"/></testcase>` | the message `boom` is reported | not executed | TestReports.FailureNodeAsWritten | TestReports.ChildlessFailureMessage |
