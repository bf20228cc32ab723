/** Passphrase protection, the two-tier secret store and the failed-attempt
    lockout of `capture/keymgr.py`.

    The persistent state of one base directory is a `Vault`: the files of its
    `encrypted/` directory, the OS keyring, the JSON fallback file and whether
    the keyring backend answers at all. Key wrapping, Fernet tokens and base64
    are symbolic stand-ins (see `WrapKey`, `FernetEncrypt`, `B64Encode`) with
    their round-trip laws proved; randomness and the clock are parameters. */
module KeyMgr {
  import opened PyStr

  const SERVICE_NAME := "hindsight_recall"
  const CHALLENGE_ENTRY := "challenge"
  const AUTOSTART_ENTRY := "autostart_key"
  const RECOVERY_TOKEN_NAME := "recovery_token"

  const LOCK_DURATIONS: seq<nat> := [5 * 60, 60 * 60, 24 * 60 * 60]
  const MAX_TOTAL_ATTEMPTS: nat := 12

  const KEY_FILE := "key.fernet.pass"
  const LOCK_FILE := "lockstate.json"
  const IPC_INFO_FILE := "ipc_info.json"

  // ---------------------------------------------------------------------
  // Secret policy

  /** `any(f(c) for c in s)` */
  function Any(s: string, f: char -> bool): (r: bool)
    ensures r <==> exists i :: 0 <= i < |s| && f(s[i])
    decreases |s|
  {
    if s == [] then false
    else if f(s[0]) then true
    else
      var r := Any(s[1..], f);
      assert r <==> exists i :: 1 <= i < |s| && f(s[i]) by {
        if r {
          var i :| 0 <= i < |s[1..]| && f(s[1..][i]);
          assert f(s[i + 1]);
        }
      }
      r
  }

  /** A character that is neither alphanumeric nor whitespace. */
  predicate IsSymbol(c: char) { !IsAlnum(c) && !IsSpace(c) }

  /** `_pass_complexity_ok` */
  function PassComplexityOk(p: string): (ok: bool)
    ensures ok <==>
      |p| >= 12 &&
      (exists i :: 0 <= i < |p| && IsUpper(p[i])) &&
      (exists i :: 0 <= i < |p| && IsLower(p[i])) &&
      (exists i :: 0 <= i < |p| && IsDigit(p[i])) &&
      (exists i :: 0 <= i < |p| && IsSymbol(p[i])) &&
      (forall i :: 0 <= i < |p| ==> !IsSpace(p[i]))
  {
    |p| >= 12 && Any(p, IsUpper) && Any(p, IsLower) && Any(p, IsDigit) &&
    Any(p, IsSymbol) && !Any(p, IsSpace)
  }

  /** `_pin_ok`: `p.isdigit() and 4 <= len(p) <= 8` */
  function PinOk(p: string): (ok: bool)
    ensures ok <==> 4 <= |p| <= 8 && forall i :: 0 <= i < |p| ==> IsDigit(p[i])
  {
    p != [] && !Any(p, c => !IsDigit(c)) && 4 <= |p| <= 8
  }

  // ---------------------------------------------------------------------
  // Symbolic cryptography

  /** Output of `base64.b64encode` of 32 random bytes, as `generate_key()` and
      the recovery-token generator produce it: 44 characters. */
  type B64Text32 = s: string | |s| == 44
    witness "AAAAAAAAAAAAAAAAAAAAAAAAAAAAAAAAAAAAAAAAAAA="

  /** `Fernet(key)` accepts only well-formed keys. */
  predicate FernetKeyOk(key: string) { |key| == 44 }

  /** Symbolic `Fernet(key).encrypt(plain)`: the token identifies the key that sealed it. */
  function FernetEncrypt(key: string, plain: string): (token: string)
    requires FernetKeyOk(key)
  {
    key + plain
  }

  /** `Fernet(key).decrypt(token)` succeeds. */
  predicate FernetDecrypts(key: string, token: string) {
    FernetKeyOk(key) && |token| >= 44 && token[..44] == key
  }

  /** A token opens exactly under the key that sealed it. */
  lemma FernetRoundTrip(key: string, other: string, plain: string)
    requires FernetKeyOk(key)
    ensures FernetDecrypts(other, FernetEncrypt(key, plain)) <==> other == key
  {
    assert FernetEncrypt(key, plain)[..44] == key;
  }

  const B64_MARK := '='

  /** Symbolic `base64.b64encode(raw).decode('ascii')`: empty stays empty. */
  function B64Encode(raw: string): string {
    if raw == [] then [] else [B64_MARK] + raw
  }

  /** Symbolic `base64.b64decode(text)`; `None` stands for the decoding error. */
  function B64Decode(text: string): Option<string> {
    if text == [] then Some([])
    else if text[0] == B64_MARK then Some(text[1..])
    else None
  }

  lemma B64RoundTrip(raw: string)
    ensures B64Decode(B64Encode(raw)) == Some(raw)
  {
    if raw != [] { assert B64Encode(raw)[1..] == raw; }
  }

  /** The payload `wrap_key_with_passphrase(data_key, secret)` writes to `key.fernet.pass`
      (its implementation is not part of this model): only the secret that wrapped it opens it. */
  datatype WrappedKey = WrappedKey(dataKey: string, secret: string)

  function WrapKey(dataKey: string, secret: string): WrappedKey {
    WrappedKey(dataKey, secret)
  }

  /** `unwrap_key_with_passphrase(payload, secret)`; `None` stands for the raised error. */
  function UnwrapKey(w: WrappedKey, secret: string): Option<string> {
    if w.secret == secret then Some(w.dataKey) else None
  }

  lemma UnwrapWrap(dataKey: string, secret: string, attempt: string)
    ensures UnwrapKey(WrapKey(dataKey, secret), attempt) ==
            (if attempt == secret then Some(dataKey) else None)
  {
  }

  // ---------------------------------------------------------------------
  // Persistent state

  /** The lockstate JSON object; `reset` is false when the key is absent. Times are seconds. */
  datatype LockState = LockState(fails: nat, lastFail: Option<int>, lockUntil: Option<int>, reset: bool)

  /** `{'fails': 0, 'last_fail': None, 'lock_until': None}` */
  const FRESH_LOCK := LockState(0, None, None, false)

  /** What a file in `encrypted/` holds, as far as the key manager reads it. */
  datatype DirEntry =
    | KeyBlob(wrapped: WrappedKey)   // key.fernet.pass
    | LockJson(state: LockState)     // lockstate.json that parses
    | OtherFile                      // ipc_info.json, or any unreadable content

  datatype Vault = Vault(
    encDir: map<string, DirEntry>,                // files under <base>/encrypted
    keyring: map<(string, string), string>,       // OS keyring: (service, name) -> secret
    fallback: map<string, map<string, string>>,   // keyring_fallback.json (missing or unreadable = {})
    keyringWorks: bool)                           // false: every keyring call raises

  /** `is_protected` */
  predicate IsProtected(v: Vault) { KEY_FILE in v.encDir }

  /** The wrapped key, when `key.fernet.pass` exists and holds one. */
  function ReadWrapped(v: Vault): Option<WrappedKey> {
    if KEY_FILE in v.encDir && v.encDir[KEY_FILE].KeyBlob? then Some(v.encDir[KEY_FILE].wrapped) else None
  }

  /** `_get_lockstate`: the stored state, or the fresh one when the file is missing or unreadable. */
  function LockInfo(v: Vault): LockState {
    if LOCK_FILE in v.encDir && v.encDir[LOCK_FILE].LockJson? then v.encDir[LOCK_FILE].state else FRESH_LOCK
  }

  // ---------------------------------------------------------------------
  // Two-tier secret store

  /** `data.get(SERVICE_NAME, {}).get(name)` on the fallback file. */
  function FallbackGet(v: Vault, name: string): Option<string> {
    if SERVICE_NAME in v.fallback && name in v.fallback[SERVICE_NAME]
    then Some(v.fallback[SERVICE_NAME][name]) else None
  }

  /** `_kr_get`: the keyring's non-empty answer, otherwise the fallback file's. */
  function Lookup(v: Vault, name: string): Option<string> {
    var primary := if v.keyringWorks && (SERVICE_NAME, name) in v.keyring
                   then Some(v.keyring[(SERVICE_NAME, name)]) else None;
    if primary.Some? && primary.value != "" then primary else FallbackGet(v, name)
  }

  /** State after `_kr_set`: the keyring when it works, otherwise the fallback file. */
  function Stored(v: Vault, name: string, value: string): Vault {
    if v.keyringWorks then v.(keyring := v.keyring[(SERVICE_NAME, name) := value])
    else
      var svc := if SERVICE_NAME in v.fallback then v.fallback[SERVICE_NAME] else map[];
      v.(fallback := v.fallback[SERVICE_NAME := svc[name := value]])
  }

  /** State after `_kr_delete`. `keyring.delete_password` raises when the backend is
      down or holds no such entry; only then is the fallback file edited. */
  function Erased(v: Vault, name: string): Vault {
    if v.keyringWorks && (SERVICE_NAME, name) in v.keyring then
      v.(keyring := v.keyring - {(SERVICE_NAME, name)})
    else if SERVICE_NAME in v.fallback && name in v.fallback[SERVICE_NAME] then
      v.(fallback := v.fallback[SERVICE_NAME := v.fallback[SERVICE_NAME] - {name}])
    else v
  }

  /** `_kr_delete` applied to each name in turn. */
  function ErasedAll(v: Vault, names: seq<string>): Vault
    decreases |names|
  {
    if names == [] then v else Erased(ErasedAll(v, names[..|names| - 1]), names[|names| - 1])
  }

  /** Storing then looking up: the stored value comes back, unless it is empty
      and the keyring took it, in which case the fallback file answers. Other names are untouched. */
  lemma LookupStored(v: Vault, name: string, value: string, other: string)
    ensures Lookup(Stored(v, name, value), other) ==
      if other != name then Lookup(v, other)
      else if value != "" || !v.keyringWorks then Some(value)
      else FallbackGet(v, name)
  {
  }

  /** Deleting then looking up finds nothing, except that a copy in the fallback
      file survives when the keyring deletion succeeded. Other names are untouched. */
  lemma LookupErased(v: Vault, name: string, other: string)
    ensures Lookup(Erased(v, name), other) ==
      if other != name then Lookup(v, other)
      else if v.keyringWorks && (SERVICE_NAME, name) in v.keyring then FallbackGet(v, name)
      else None
  {
  }

  /** Store operations never touch the files of `encrypted/`. */
  lemma StoreKeepsFiles(v: Vault, name: string, value: string)
    ensures Stored(v, name, value).encDir == v.encDir
    ensures Erased(v, name).encDir == v.encDir
  {
  }

  // ---------------------------------------------------------------------
  // Protocols as functions of the state

  datatype Step<T> = Step(out: T, vault: Vault)

  datatype CreateOutcome = Created(recovery: string) | TooWeak

  /** `create_protection(base, passphrase)` with generated key, challenge bytes and recovery token. */
  function Create(v: Vault, passphrase: string, dataKey: B64Text32, challenge: string,
                  recovery: B64Text32): Step<CreateOutcome>
  {
    if !(PassComplexityOk(passphrase) || PinOk(passphrase)) then Step(TooWeak, v)
    else Step(Created(recovery), Protected(v, passphrase, dataKey, challenge, recovery))
  }

  /** The vault `create_protection` writes: the wrapped key, the three keyring entries and a
      fresh lock state, in that order. */
  function Protected(v: Vault, passphrase: string, dataKey: B64Text32, challenge: string,
                     recovery: B64Text32): Vault
  {
    var v1 := v.(encDir := v.encDir[KEY_FILE := KeyBlob(WrapKey(dataKey, passphrase))]);
    var v2 := Stored(v1, CHALLENGE_ENTRY, B64Encode(FernetEncrypt(dataKey, challenge)));
    var v3 := Stored(v2, RECOVERY_TOKEN_NAME, recovery);
    var v4 := Stored(v3, AUTOSTART_ENTRY, B64Encode(dataKey));
    v4.(encDir := v4.encDir[LOCK_FILE := LockJson(FRESH_LOCK)])
  }

  /** The written vault is consistent: its challenge opens under the wrapped key. */
  lemma ProtectedConsistent(v: Vault, passphrase: string, dataKey: B64Text32, challenge: string,
                            recovery: B64Text32)
    ensures Consistent(Protected(v, passphrase, dataKey, challenge, recovery))
  {
    var v1 := v.(encDir := v.encDir[KEY_FILE := KeyBlob(WrapKey(dataKey, passphrase))]);
    var v2 := Stored(v1, CHALLENGE_ENTRY, B64Encode(FernetEncrypt(dataKey, challenge)));
    var v3 := Stored(v2, RECOVERY_TOKEN_NAME, recovery);
    LookupStored(v1, CHALLENGE_ENTRY, B64Encode(FernetEncrypt(dataKey, challenge)), CHALLENGE_ENTRY);
    LookupStored(v2, RECOVERY_TOKEN_NAME, recovery, CHALLENGE_ENTRY);
    LookupStored(v3, AUTOSTART_ENTRY, B64Encode(dataKey), CHALLENGE_ENTRY);
    LookupStored(v3, AUTOSTART_ENTRY, B64Encode(dataKey), AUTOSTART_ENTRY);
    B64RoundTrip(FernetEncrypt(dataKey, challenge));
    B64RoundTrip(dataKey);
    FernetRoundTrip(dataKey, dataKey, challenge);
  }

  /** The written vault returns the recovery token, the wrapped key and a fresh lock state. */
  lemma ProtectedReads(v: Vault, passphrase: string, dataKey: B64Text32, challenge: string,
                       recovery: B64Text32)
    ensures var p := Protected(v, passphrase, dataKey, challenge, recovery);
      && Lookup(p, RECOVERY_TOKEN_NAME) == Some(recovery)
      && ReadWrapped(p) == Some(WrapKey(dataKey, passphrase))
      && LockInfo(p) == FRESH_LOCK
  {
    var v1 := v.(encDir := v.encDir[KEY_FILE := KeyBlob(WrapKey(dataKey, passphrase))]);
    var v2 := Stored(v1, CHALLENGE_ENTRY, B64Encode(FernetEncrypt(dataKey, challenge)));
    var v3 := Stored(v2, RECOVERY_TOKEN_NAME, recovery);
    LookupStored(v2, RECOVERY_TOKEN_NAME, recovery, RECOVERY_TOKEN_NAME);
    LookupStored(v3, AUTOSTART_ENTRY, B64Encode(dataKey), RECOVERY_TOKEN_NAME);
  }

  /** A secret that is neither a passphrase nor a PIN is refused before anything is
      written; otherwise the recovery token is returned and stored, the key file holds the
      data key wrapped under the secret, the lock state is fresh and the vault consistent. */
  lemma CreateSpec(v: Vault, passphrase: string, dataKey: B64Text32, challenge: string,
                   recovery: B64Text32)
    ensures var r := Create(v, passphrase, dataKey, challenge, recovery);
      && (r.out.TooWeak? <==> !(PassComplexityOk(passphrase) || PinOk(passphrase)))
      && (r.out.TooWeak? ==> r.vault == v)
      && (r.out.Created? ==>
        && r.out.recovery == recovery
        && Lookup(r.vault, RECOVERY_TOKEN_NAME) == Some(recovery)
        && ReadWrapped(r.vault) == Some(WrapKey(dataKey, passphrase))
        && LockInfo(r.vault) == FRESH_LOCK
        && Consistent(r.vault))
  {
    ProtectedConsistent(v, passphrase, dataKey, challenge, recovery);
    ProtectedReads(v, passphrase, dataKey, challenge, recovery);
  }

  /** `validate_passphrase(base, passphrase)`; `challenge` is the fresh random
      challenge used when none is stored. The lock state is never read or written. */
  function Validate(v: Vault, passphrase: string, challenge: string): Step<bool> {
    match ReadWrapped(v)
    case None => Step(false, v)
    case Some(w) =>
      match UnwrapKey(w, passphrase)
      case None => Step(false, v)
      case Some(dataKey) =>
        var token := Lookup(v, CHALLENGE_ENTRY);
        if token.None? || token.value == "" then
          if FernetKeyOk(dataKey)
          then Step(true, Stored(v, CHALLENGE_ENTRY, B64Encode(FernetEncrypt(dataKey, challenge))))
          else Step(true, v)
        else
          match B64Decode(token.value)
          case None => Step(false, v)
          case Some(raw) =>
            if !FernetDecrypts(dataKey, raw) then Step(false, v)
            else
              var auto := Lookup(v, AUTOSTART_ENTRY);
              if auto.None? || auto.value == "" then Step(true, Stored(v, AUTOSTART_ENTRY, B64Encode(dataKey)))
              else Step(true, v)
  }

  /** `lock_seconds` for the `total`-th consecutive failure (below the reset tier). */
  function LockSeconds(total: nat): (secs: nat)
    ensures secs == (if total <= 1 then 300 else if total == 2 then 3600 else 86400)
  {
    var stage := if total == 0 then 0 else if total - 1 < |LOCK_DURATIONS| then total - 1 else |LOCK_DURATIONS|;
    if stage < |LOCK_DURATIONS| then LOCK_DURATIONS[stage] else LOCK_DURATIONS[|LOCK_DURATIONS| - 1]
  }

  datatype FailureOutcome = FailureOutcome(total: nat, lockSeconds: Option<nat>)

  const RESET_ENTRIES := [CHALLENGE_ENTRY, RECOVERY_TOKEN_NAME, AUTOSTART_ENTRY]

  /** `record_failed_attempt(base)` at time `now`. */
  function RecordFailure(v: Vault, now: int): Step<FailureOutcome> {
    var state := LockInfo(v);
    var total := state.fails + 1;
    if total >= MAX_TOTAL_ATTEMPTS then
      var locked := state.(fails := total, lastFail := Some(now), lockUntil := None, reset := true);
      var v1 := v.(encDir := v.encDir[LOCK_FILE := LockJson(locked)] - {KEY_FILE, IPC_INFO_FILE});
      Step(FailureOutcome(total, None), ErasedAll(v1, RESET_ENTRIES))
    else
      var secs := LockSeconds(total);
      var locked := state.(fails := total, lastFail := Some(now), lockUntil := Some(now + secs));
      Step(FailureOutcome(total, Some(secs)), v.(encDir := v.encDir[LOCK_FILE := LockJson(locked)]))
  }

  /** `get_autostart_key` */
  function AutostartKey(v: Vault): (r: Option<string>)
    ensures r.Some? <==> Lookup(v, AUTOSTART_ENTRY).Some? && Strip(Lookup(v, AUTOSTART_ENTRY).value) != ""
    ensures r.Some? ==> r == Lookup(v, AUTOSTART_ENTRY)
  {
    var k := Lookup(v, AUTOSTART_ENTRY);
    if k.None? || k.value == "" || Strip(k.value) == "" then None else k
  }

  datatype ChangeOutcome = ChangeOutcome(code: int, recovery: Option<string>)

  /** Result of the authentication step of `--change`: the data key, or an exit code. */
  datatype Auth = Authorized(dataKey: string) | Refused(code: int)

  /** Authentication of `--change`: by recovery token (compared after `strip`) and the
      autostart copy of the data key, or by the current passphrase. */
  function Authenticate(v: Vault, authSecret: string, useRecovery: bool, challenge: string): Step<Auth>
    requires IsProtected(v)
  {
    if useRecovery then
      var rec := Lookup(v, RECOVERY_TOKEN_NAME);
      if rec.None? || rec.value == "" || Strip(rec.value) != Strip(authSecret) then Step(Refused(1), v)
      else
        var ak := Lookup(v, AUTOSTART_ENTRY);
        if ak.None? || ak.value == "" then Step(Refused(5), v)
        else
          match B64Decode(ak.value)
          case None => Step(Refused(5), v)
          case Some(dataKey) => Step(Authorized(dataKey), v)
    else
      var checked := Validate(v, authSecret, challenge);
      if !checked.out then Step(Refused(1), checked.vault)
      else
        match ReadWrapped(checked.vault)
        case None => Step(Refused(1), checked.vault)
        case Some(w) =>
          match UnwrapKey(w, authSecret)
          case None => Step(Refused(1), checked.vault)
          case Some(dataKey) => Step(Authorized(dataKey), checked.vault)
  }

  /** The `--change` branch of `_main`, given the text it reads from stdin, the
      `--use-recovery` flag, a fresh challenge and a fresh recovery token. */
  function Change(v: Vault, stdin: string, useRecovery: bool, challenge: string,
                  newRecovery: B64Text32): Step<ChangeOutcome> {
    var lines := SplitLines(stdin);
    // `.rstrip('\n')` on a line of `splitlines()` changes nothing: no line holds a break.
    if |lines| < 2 then Step(ChangeOutcome(2, None), v)
    else if lines[0] == "" || lines[1] == "" then Step(ChangeOutcome(2, None), v)
    else if !IsProtected(v) then Step(ChangeOutcome(2, None), v)
    else
      AfterAuth(Authenticate(v, lines[0], useRecovery, challenge), lines[1], newRecovery)
  }

  /** What `--change` does once authentication has answered: exit with its code, refuse
      a new secret that meets neither policy (exit 3), or re-wrap and print the new token. */
  function AfterAuth(auth: Step<Auth>, newSecret: string, newRecovery: string): Step<ChangeOutcome> {
    match auth.out
    case Refused(code) => Step(ChangeOutcome(code, None), auth.vault)
    case Authorized(dataKey) =>
      if !(PinOk(newSecret) || PassComplexityOk(newSecret)) then Step(ChangeOutcome(3, None), auth.vault)
      else Step(ChangeOutcome(0, Some(newRecovery)), Rewrap(auth.vault, dataKey, newSecret, newRecovery))
  }

  /** The writes of a successful `--change`: the re-wrapped key file, the autostart
      copy of the data key and the new recovery token. */
  function Rewrap(v: Vault, dataKey: string, newSecret: string, newRecovery: string): Vault {
    var v1 := v.(encDir := v.encDir[KEY_FILE := KeyBlob(WrapKey(dataKey, newSecret))]);
    var v2 := Stored(v1, AUTOSTART_ENTRY, B64Encode(dataKey));
    Stored(v2, RECOVERY_TOKEN_NAME, newRecovery)
  }

  // ---------------------------------------------------------------------
  // The invariant the protocols keep: the stored challenge and autostart copy
  // belong to the wrapped data key.

  predicate ChallengeMatches(v: Vault, dataKey: string) {
    var t := Lookup(v, CHALLENGE_ENTRY);
    t.None? || t.value == "" ||
    (B64Decode(t.value).Some? && FernetDecrypts(dataKey, B64Decode(t.value).value))
  }

  predicate AutostartMatches(v: Vault, dataKey: string) {
    var a := Lookup(v, AUTOSTART_ENTRY);
    a.None? || a.value == "" || B64Decode(a.value) == Some(dataKey)
  }

  /** A present key file holds a wrapped, well-formed data key, and the challenge and
      autostart entries that are set belong to that key. */
  predicate Consistent(v: Vault) {
    IsProtected(v) ==>
      ReadWrapped(v).Some? && FernetKeyOk(ReadWrapped(v).value.dataKey) &&
      ChallengeMatches(v, ReadWrapped(v).value.dataKey) && AutostartMatches(v, ReadWrapped(v).value.dataKey)
  }

  // ---------------------------------------------------------------------
  // Properties

  /** The lock never gets shorter as failures accumulate. */
  lemma LockSecondsMonotone(a: nat, b: nat)
    requires a <= b
    ensures LockSeconds(a) <= LockSeconds(b)
  {
  }

  /** `validate_passphrase` answers true only for the secret the stored key was wrapped
      with, and it never writes any file of `encrypted/` (so not the lockstate). */
  lemma ValidateSound(v: Vault, passphrase: string, challenge: string)
    ensures Validate(v, passphrase, challenge).out ==>
      ReadWrapped(v).Some? && ReadWrapped(v).value.secret == passphrase
    ensures Validate(v, passphrase, challenge).vault.encDir == v.encDir
    ensures LockInfo(Validate(v, passphrase, challenge).vault) == LockInfo(v)
  {
  }

  /** With no wrapped key, validation fails and changes nothing. */
  lemma ValidateWithoutKey(v: Vault, passphrase: string, challenge: string)
    requires !IsProtected(v)
    ensures Validate(v, passphrase, challenge) == Step(false, v)
  {
  }

  /** With no challenge stored, the right secret is accepted and a challenge sealed
      under the data key is stored. */
  lemma ValidateReseeds(v: Vault, passphrase: string, challenge: string)
    requires ReadWrapped(v).Some? && ReadWrapped(v).value.secret == passphrase
    requires FernetKeyOk(ReadWrapped(v).value.dataKey)
    requires Lookup(v, CHALLENGE_ENTRY).None?
    ensures Validate(v, passphrase, challenge).out
    ensures ChallengeMatches(Validate(v, passphrase, challenge).vault, ReadWrapped(v).value.dataKey)
  {
    var dk := ReadWrapped(v).value.dataKey;
    LookupStored(v, CHALLENGE_ENTRY, B64Encode(FernetEncrypt(dk, challenge)), CHALLENGE_ENTRY);
    B64RoundTrip(FernetEncrypt(dk, challenge));
    FernetRoundTrip(dk, dk, challenge);
  }

  /** In a consistent vault the right secret is always accepted. */
  lemma ValidateComplete(v: Vault, passphrase: string, challenge: string)
    requires Consistent(v)
    requires ReadWrapped(v).Some? && ReadWrapped(v).value.secret == passphrase
    ensures Validate(v, passphrase, challenge).out
  {
  }

  lemma ValidateKeepsConsistent(v: Vault, passphrase: string, challenge: string)
    requires Consistent(v)
    ensures Consistent(Validate(v, passphrase, challenge).vault)
  {
    var r := Validate(v, passphrase, challenge);
    if r.vault != v {
      var dk := ReadWrapped(v).value.dataKey;
      assert ReadWrapped(r.vault) == ReadWrapped(v);
      var token := Lookup(v, CHALLENGE_ENTRY);
      if token.None? || token.value == "" {
        var sealed := B64Encode(FernetEncrypt(dk, challenge));
        LookupStored(v, CHALLENGE_ENTRY, sealed, CHALLENGE_ENTRY);
        LookupStored(v, CHALLENGE_ENTRY, sealed, AUTOSTART_ENTRY);
        B64RoundTrip(FernetEncrypt(dk, challenge));
        FernetRoundTrip(dk, dk, challenge);
      } else {
        LookupStored(v, AUTOSTART_ENTRY, B64Encode(dk), CHALLENGE_ENTRY);
        LookupStored(v, AUTOSTART_ENTRY, B64Encode(dk), AUTOSTART_ENTRY);
        B64RoundTrip(dk);
      }
    }
  }

  /** Round trip: after a successful `create_protection`, the same secret validates
      and any other secret does not. */
  lemma CreateThenValidate(v: Vault, passphrase: string, dataKey: B64Text32, challenge: string,
                           recovery: B64Text32, attempt: string, challenge2: string)
    requires Create(v, passphrase, dataKey, challenge, recovery).out.Created?
    ensures Validate(Create(v, passphrase, dataKey, challenge, recovery).vault, attempt, challenge2).out
            <==> attempt == passphrase
  {
    CreateSpec(v, passphrase, dataKey, challenge, recovery);
    var after := Create(v, passphrase, dataKey, challenge, recovery).vault;
    ValidateSound(after, attempt, challenge2);
    if attempt == passphrase { ValidateComplete(after, attempt, challenge2); }
  }

  /** Each failure adds exactly one to `fails` and reports the new count; below the
      reset tier the lock ends `lock_seconds` after `now` and only the lock file changes. */
  lemma RecordFailureCounts(v: Vault, now: int)
    ensures RecordFailure(v, now).out.total == LockInfo(v).fails + 1
    ensures LockInfo(RecordFailure(v, now).vault).fails == LockInfo(v).fails + 1
    ensures LockInfo(v).fails + 1 < MAX_TOTAL_ATTEMPTS ==>
      var r := RecordFailure(v, now);
      && r.out.lockSeconds == Some(LockSeconds(r.out.total))
      && LockInfo(r.vault).lockUntil == Some(now + LockSeconds(r.out.total))
      && r.vault.encDir.Keys == v.encDir.Keys + {LOCK_FILE}
      && (forall f :: f in v.encDir && f != LOCK_FILE ==> r.vault.encDir[f] == v.encDir[f])
      && r.vault.keyring == v.keyring && r.vault.fallback == v.fallback
  {
    if LockInfo(v).fails + 1 >= MAX_TOTAL_ATTEMPTS {
      DestructiveReset(v, now);
    }
  }

  /** `_kr_delete` of any list of names leaves the files alone. */
  lemma {:induction false} ErasedAllKeepsFiles(after: Vault, v: Vault, names: seq<string>)
    requires after == ErasedAll(v, names)
    ensures after.encDir == v.encDir
    decreases |names|
  {
    if names != [] {
      var init := ErasedAll(v, names[..|names| - 1]);
      ErasedAllKeepsFiles(init, v, names[..|names| - 1]);
    }
  }

  /** At the reset tier the wrapped key and IPC info are deleted, the lock is cleared
      and marked `reset`, and `is_protected` becomes false. */
  lemma DestructiveReset(v: Vault, now: int)
    requires LockInfo(v).fails + 1 >= MAX_TOTAL_ATTEMPTS
    ensures var r := RecordFailure(v, now);
      && r.out == FailureOutcome(LockInfo(v).fails + 1, None)
      && !IsProtected(r.vault)
      && IPC_INFO_FILE !in r.vault.encDir
      && LockInfo(r.vault).fails == LockInfo(v).fails + 1
      && LockInfo(r.vault).lockUntil.None?
      && LockInfo(r.vault).reset
  {
    var state := LockInfo(v);
    var locked := state.(fails := state.fails + 1, lastFail := Some(now), lockUntil := None, reset := true);
    var v1 := v.(encDir := v.encDir[LOCK_FILE := LockJson(locked)] - {KEY_FILE, IPC_INFO_FILE});
    ErasedAllKeepsFiles(ErasedAll(v1, RESET_ENTRIES), v1, RESET_ENTRIES);
  }

  /** Erasing the reset entries is erasing the challenge, then the recovery token, then the autostart key. */
  lemma ErasedResetEntries(w: Vault)
    ensures ErasedAll(w, RESET_ENTRIES) ==
      Erased(Erased(Erased(w, CHALLENGE_ENTRY), RECOVERY_TOKEN_NAME), AUTOSTART_ENTRY)
  {
    var e1 := Erased(w, CHALLENGE_ENTRY);
    var e2 := Erased(e1, RECOVERY_TOKEN_NAME);
    assert RESET_ENTRIES[..2] == [CHALLENGE_ENTRY, RECOVERY_TOKEN_NAME];
    assert RESET_ENTRIES[..2][..1] == [CHALLENGE_ENTRY];
    assert RESET_ENTRIES[..2][..1][..0] == [];
    assert ErasedAll(w, RESET_ENTRIES[..2][..1]) == e1;
    assert ErasedAll(w, RESET_ENTRIES[..2]) == e2;
  }

  /** Erasing another name keeps what the fallback file and the working keyring say of this one. */
  lemma ErasedOther(w: Vault, other: string, name: string)
    requires other != name
    ensures var e := Erased(w, other);
      e.keyringWorks == w.keyringWorks &&
      ((SERVICE_NAME, name) in e.keyring <==> (SERVICE_NAME, name) in w.keyring) &&
      FallbackGet(e, name) == FallbackGet(w, name) &&
      Lookup(e, name) == Lookup(w, name)
  {
    LookupErased(w, other, name);
  }

  /** Erasing one reset entry after another leaves each of them gone, except for a
      fallback-file copy of an entry that the working keyring also held. */
  lemma ErasedResetLookup(w: Vault, name: string)
    requires name in RESET_ENTRIES
    ensures Lookup(ErasedAll(w, RESET_ENTRIES), name) ==
      if w.keyringWorks && (SERVICE_NAME, name) in w.keyring then FallbackGet(w, name) else None
  {
    ErasedResetEntries(w);
    var e1 := Erased(w, CHALLENGE_ENTRY);
    var e2 := Erased(e1, RECOVERY_TOKEN_NAME);
    if name == CHALLENGE_ENTRY {
      LookupErased(w, CHALLENGE_ENTRY, name);
      ErasedOther(e1, RECOVERY_TOKEN_NAME, name);
      ErasedOther(e2, AUTOSTART_ENTRY, name);
    } else if name == RECOVERY_TOKEN_NAME {
      ErasedOther(w, CHALLENGE_ENTRY, name);
      LookupErased(e1, RECOVERY_TOKEN_NAME, name);
      ErasedOther(e2, AUTOSTART_ENTRY, name);
    } else {
      ErasedOther(w, CHALLENGE_ENTRY, name);
      ErasedOther(e1, RECOVERY_TOKEN_NAME, name);
      LookupErased(e2, AUTOSTART_ENTRY, name);
    }
  }

  /** At the reset tier each of the challenge, recovery and autostart entries is gone
      from the store, except for a fallback-file copy of an entry that the working
      keyring also held (the keyring deletion succeeds, so the file is not edited). */
  lemma ResetErasesEntries(v: Vault, now: int, name: string)
    requires LockInfo(v).fails + 1 >= MAX_TOTAL_ATTEMPTS
    requires name in RESET_ENTRIES
    ensures Lookup(RecordFailure(v, now).vault, name) ==
      if v.keyringWorks && (SERVICE_NAME, name) in v.keyring then FallbackGet(v, name) else None
  {
    var state := LockInfo(v);
    var locked := state.(fails := state.fails + 1, lastFail := Some(now), lockUntil := None, reset := true);
    var v1 := v.(encDir := v.encDir[LOCK_FILE := LockJson(locked)] - {KEY_FILE, IPC_INFO_FILE});
    ErasedResetLookup(v1, name);
  }

  lemma RecordFailureKeepsConsistent(v: Vault, now: int)
    requires Consistent(v)
    ensures Consistent(RecordFailure(v, now).vault)
  {
    var r := RecordFailure(v, now);
    if LockInfo(v).fails + 1 >= MAX_TOTAL_ATTEMPTS {
      DestructiveReset(v, now);
    } else {
      RecordFailureCounts(v, now);
      assert ReadWrapped(r.vault) == ReadWrapped(v);
      assert forall n :: Lookup(r.vault, n) == Lookup(v, n);
    }
  }

  /** Usage errors of `--change` exit with 2 and change nothing. */
  lemma ChangeUsageErrors(v: Vault, stdin: string, useRecovery: bool, challenge: string, newRecovery: B64Text32)
    requires var lines := SplitLines(stdin);
      |lines| < 2 || lines[0] == "" || lines[1] == "" || !IsProtected(v)
    ensures Change(v, stdin, useRecovery, challenge, newRecovery) == Step(ChangeOutcome(2, None), v)
  {
  }

  /** Failed authentication exits with 1 whatever the new secret is: the new secret's
      policy check (exit 3) happens only after authentication succeeded. */
  lemma ChangeChecksAuthFirst(v: Vault, stdin: string, useRecovery: bool, challenge: string, newRecovery: B64Text32)
    requires var lines := SplitLines(stdin);
      |lines| >= 2 && lines[0] != "" && lines[1] != "" && IsProtected(v)
    ensures var lines := SplitLines(stdin);
      var r := Change(v, stdin, useRecovery, challenge, newRecovery);
      && (!useRecovery && !Validate(v, lines[0], challenge).out ==> r.out.code == 1)
      && ((useRecovery && (Lookup(v, RECOVERY_TOKEN_NAME).None? ||
                           Strip(Lookup(v, RECOVERY_TOKEN_NAME).value) != Strip(lines[0])))
          ==> r.out.code == 1)
      && (r.out.code == 3 ==>
            && !(PinOk(lines[1]) || PassComplexityOk(lines[1]))
            && Authenticate(v, lines[0], useRecovery, challenge).out.Authorized?)
  {
  }

  /** Authentication never touches the files of `encrypted/`. */
  lemma AuthenticateKeepsFiles(v: Vault, authSecret: string, useRecovery: bool, challenge: string)
    requires IsProtected(v)
    ensures Authenticate(v, authSecret, useRecovery, challenge).vault.encDir == v.encDir
  {
    if !useRecovery {
      ValidateSound(v, authSecret, challenge);
    }
  }

  /** `--change` never touches the lock state, and a rejected change keeps the wrapped key. */
  lemma ChangeKeepsLock(v: Vault, stdin: string, useRecovery: bool, challenge: string, newRecovery: B64Text32)
    ensures LockInfo(Change(v, stdin, useRecovery, challenge, newRecovery).vault) == LockInfo(v)
    ensures Change(v, stdin, useRecovery, challenge, newRecovery).out.code != 0 ==>
      ReadWrapped(Change(v, stdin, useRecovery, challenge, newRecovery).vault) == ReadWrapped(v)
  {
    var lines := SplitLines(stdin);
    if |lines| >= 2 && lines[0] != "" && lines[1] != "" && IsProtected(v) {
      AuthenticateKeepsFiles(v, lines[0], useRecovery, challenge);
      var auth := Authenticate(v, lines[0], useRecovery, challenge);
      AfterAuthFiles(auth, lines[1], newRecovery);
    }
  }

  /** After authentication only a successful change writes a file, and that file is the key file. */
  lemma AfterAuthFiles(auth: Step<Auth>, newSecret: string, newRecovery: string)
    ensures var r := AfterAuth(auth, newSecret, newRecovery);
      if r.out.code == 0 && auth.out.Authorized? then
        r.vault.encDir == auth.vault.encDir[KEY_FILE := KeyBlob(WrapKey(auth.out.dataKey, newSecret))]
      else r.vault == auth.vault
  {
    if auth.out.Authorized? {
      RewrapFiles(auth.vault, auth.out.dataKey, newSecret, newRecovery);
    }
  }

  /** Re-wrapping writes the key file and nothing else of `encrypted/`. */
  lemma RewrapFiles(v: Vault, dataKey: string, newSecret: string, newRecovery: string)
    ensures Rewrap(v, dataKey, newSecret, newRecovery).encDir == v.encDir[KEY_FILE := KeyBlob(WrapKey(dataKey, newSecret))]
  {
    var v1 := v.(encDir := v.encDir[KEY_FILE := KeyBlob(WrapKey(dataKey, newSecret))]);
    StoreKeepsFiles(v1, AUTOSTART_ENTRY, B64Encode(dataKey));
    StoreKeepsFiles(Stored(v1, AUTOSTART_ENTRY, B64Encode(dataKey)), RECOVERY_TOKEN_NAME, newRecovery);
  }

  /** In a consistent vault both authentication paths recover the wrapped data key itself. */
  lemma AuthenticateYieldsKey(v: Vault, authSecret: string, useRecovery: bool, challenge: string)
    requires IsProtected(v) && Consistent(v)
    requires Authenticate(v, authSecret, useRecovery, challenge).out.Authorized?
    ensures ReadWrapped(v).Some?
    ensures Authenticate(v, authSecret, useRecovery, challenge).out.dataKey == ReadWrapped(v).value.dataKey
    ensures Consistent(Authenticate(v, authSecret, useRecovery, challenge).vault)
    ensures ReadWrapped(Authenticate(v, authSecret, useRecovery, challenge).vault) == ReadWrapped(v)
  {
    if !useRecovery {
      ValidateSound(v, authSecret, challenge);
      ValidateKeepsConsistent(v, authSecret, challenge);
    }
  }

  /** Re-wrapping the wrapped data key under a new secret keeps the vault consistent
      and leaves a non-empty recovery token readable. */
  lemma RewrapKeepsConsistent(v: Vault, dataKey: string, newSecret: string, newRecovery: string)
    requires Consistent(v) && IsProtected(v) && ReadWrapped(v).value.dataKey == dataKey
    requires newRecovery != ""
    ensures ReadWrapped(Rewrap(v, dataKey, newSecret, newRecovery)) == Some(WrapKey(dataKey, newSecret))
    ensures Lookup(Rewrap(v, dataKey, newSecret, newRecovery), RECOVERY_TOKEN_NAME) == Some(newRecovery)
    ensures Consistent(Rewrap(v, dataKey, newSecret, newRecovery))
  {
    var v1 := v.(encDir := v.encDir[KEY_FILE := KeyBlob(WrapKey(dataKey, newSecret))]);
    var v2 := Stored(v1, AUTOSTART_ENTRY, B64Encode(dataKey));
    assert Lookup(v1, CHALLENGE_ENTRY) == Lookup(v, CHALLENGE_ENTRY);
    LookupStored(v1, AUTOSTART_ENTRY, B64Encode(dataKey), CHALLENGE_ENTRY);
    LookupStored(v1, AUTOSTART_ENTRY, B64Encode(dataKey), AUTOSTART_ENTRY);
    LookupStored(v2, RECOVERY_TOKEN_NAME, newRecovery, CHALLENGE_ENTRY);
    LookupStored(v2, RECOVERY_TOKEN_NAME, newRecovery, AUTOSTART_ENTRY);
    LookupStored(v2, RECOVERY_TOKEN_NAME, newRecovery, RECOVERY_TOKEN_NAME);
    B64RoundTrip(dataKey);
  }

  /** A successful `--change` re-wraps the same data key under the new secret, keeps the
      vault consistent, stores a fresh recovery token and prints it: afterwards the new
      secret validates and every other secret, the old one included, does not. */
  lemma ChangeRewraps(v: Vault, stdin: string, useRecovery: bool, challenge: string,
                      newRecovery: B64Text32, attempt: string, challenge2: string)
    requires Consistent(v)
    requires Change(v, stdin, useRecovery, challenge, newRecovery).out.code == 0
    ensures var r := Change(v, stdin, useRecovery, challenge, newRecovery);
      && ReadWrapped(v).Some?
      && ReadWrapped(r.vault) == Some(WrapKey(ReadWrapped(v).value.dataKey, SplitLines(stdin)[1]))
      && r.out.recovery.Some? && r.out.recovery.value == newRecovery
      && Lookup(r.vault, RECOVERY_TOKEN_NAME).Some? && Lookup(r.vault, RECOVERY_TOKEN_NAME).value == newRecovery
      && Consistent(r.vault)
      && (Validate(r.vault, attempt, challenge2).out <==> attempt == SplitLines(stdin)[1])
  {
    var lines := SplitLines(stdin);
    var auth := Authenticate(v, lines[0], useRecovery, challenge);
    AuthenticateYieldsKey(v, lines[0], useRecovery, challenge);
    var after := Rewrap(auth.vault, auth.out.dataKey, lines[1], newRecovery);
    assert Change(v, stdin, useRecovery, challenge, newRecovery).vault == after;
    RewrapKeepsConsistent(auth.vault, auth.out.dataKey, lines[1], newRecovery);
    ValidateSound(after, attempt, challenge2);
    if attempt == lines[1] { ValidateComplete(after, attempt, challenge2); }
  }

  /** The credentials `--change` accepts: the current passphrase (the one the key file is
      wrapped under), or with `--use-recovery` a stored recovery token equal after `strip`
      together with a stored autostart copy of the data key. */
  predicate ChangeCredentials(v: Vault, authSecret: string, useRecovery: bool)
    requires IsProtected(v)
  {
    if useRecovery then
      var rec := Lookup(v, RECOVERY_TOKEN_NAME);
      var ak := Lookup(v, AUTOSTART_ENTRY);
      && rec.Some? && rec.value != "" && Strip(rec.value) == Strip(authSecret)
      && ak.Some? && ak.value != ""
    else
      ReadWrapped(v).Some? && ReadWrapped(v).value.secret == authSecret
  }

  /** In a consistent vault `--change` exits with 0 exactly when stdin holds two non-empty
      lines, the key file exists, the first line is an accepted credential and the second
      meets the PIN or the passphrase policy. */
  lemma ChangeSucceeds(v: Vault, stdin: string, useRecovery: bool, challenge: string, newRecovery: B64Text32)
    requires Consistent(v)
    ensures var lines := SplitLines(stdin);
      Change(v, stdin, useRecovery, challenge, newRecovery).out.code == 0 <==>
        && |lines| >= 2 && lines[0] != "" && lines[1] != "" && IsProtected(v)
        && ChangeCredentials(v, lines[0], useRecovery)
        && (PinOk(lines[1]) || PassComplexityOk(lines[1]))
  {
    var lines := SplitLines(stdin);
    if |lines| >= 2 && lines[0] != "" && lines[1] != "" && IsProtected(v) {
      AuthenticateIff(v, lines[0], useRecovery, challenge);
    }
  }

  /** In a consistent vault authentication succeeds exactly for the accepted credentials,
      and a refusal never carries exit code 0. */
  lemma AuthenticateIff(v: Vault, authSecret: string, useRecovery: bool, challenge: string)
    requires Consistent(v) && IsProtected(v)
    ensures var a := Authenticate(v, authSecret, useRecovery, challenge).out;
      && (a.Authorized? <==> ChangeCredentials(v, authSecret, useRecovery))
      && (a.Refused? ==> a.code != 0)
  {
    if useRecovery {
      RecoveryAuthIff(v, authSecret, challenge);
    } else {
      PassphraseAuthIff(v, authSecret, challenge);
    }
  }

  /** The recovery path: a consistent vault's autostart copy always decodes, so only the
      token and the copy's presence decide. */
  lemma RecoveryAuthIff(v: Vault, authSecret: string, challenge: string)
    requires Consistent(v) && IsProtected(v)
    ensures var a := Authenticate(v, authSecret, true, challenge).out;
      && (a.Authorized? <==> ChangeCredentials(v, authSecret, true))
      && (a.Refused? ==> a.code != 0)
  {
  }

  /** The passphrase path: validation and unwrapping succeed exactly for the wrapping secret. */
  lemma PassphraseAuthIff(v: Vault, authSecret: string, challenge: string)
    requires Consistent(v) && IsProtected(v)
    ensures var a := Authenticate(v, authSecret, false, challenge).out;
      && (a.Authorized? <==> ChangeCredentials(v, authSecret, false))
      && (a.Refused? ==> a.code != 0)
  {
    ValidateSound(v, authSecret, challenge);
    if ReadWrapped(v).value.secret == authSecret {
      ValidateComplete(v, authSecret, challenge);
    }
  }

  lemma ChangeKeepsConsistent(v: Vault, stdin: string, useRecovery: bool, challenge: string, newRecovery: B64Text32)
    requires Consistent(v)
    ensures Consistent(Change(v, stdin, useRecovery, challenge, newRecovery).vault)
  {
    var lines := SplitLines(stdin);
    var r := Change(v, stdin, useRecovery, challenge, newRecovery);
    if r.out.code == 0 {
      ChangeRewraps(v, stdin, useRecovery, challenge, newRecovery, lines[1], challenge);
    } else if |lines| >= 2 && lines[0] != "" && lines[1] != "" && IsProtected(v) {
      if !useRecovery { ValidateKeepsConsistent(v, lines[0], challenge); }
    }
  }

  // ---------------------------------------------------------------------
  // The base directory as mutable state

  /** The base directory, the keyring and its fallback file as one mutable object. Each method
      is proved to leave the state, and to return the result, that its function on `Vault`
      gives for the old state: `KrSet`/`Stored`, `KrGet`/`Lookup`, `KrDelete`/`Erased`,
      `CreateProtection`/`Create`, `ValidatePassphrase`/`Validate`,
      `RecordFailedAttempt`/`RecordFailure`, `DeleteEntries`/`ErasedAll`,
      `GetLockInfo`/`LockInfo`, `GetAutostartKey`/`AutostartKey`,
      `CheckAuth`/`Authenticate` and `ChangeSecret`/`Change`. The laws proved about those
      functions then hold of the object. */
  class KeyManager {
    var encDir: map<string, DirEntry>
    var keyring: map<(string, string), string>
    var fallback: map<string, map<string, string>>
    const keyringWorks: bool

    function State(): Vault
      reads this
    {
      Vault(encDir, keyring, fallback, keyringWorks)
    }

    constructor (initial: Vault)
      ensures State() == initial
    {
      encDir, keyring, fallback := initial.encDir, initial.keyring, initial.fallback;
      keyringWorks := initial.keyringWorks;
    }

    /** `_kr_set` */
    method KrSet(name: string, value: string)
      modifies this
      ensures State() == Stored(old(State()), name, value)
    {
      if keyringWorks {
        keyring := keyring[(SERVICE_NAME, name) := value];
      } else {
        var data := fallback;
        var svc := if SERVICE_NAME in data then data[SERVICE_NAME] else map[];
        fallback := data[SERVICE_NAME := svc[name := value]];
      }
    }

    /** `_kr_get` */
    method KrGet(name: string) returns (val: Option<string>)
      ensures val == Lookup(State(), name)
    {
      val := None;
      if keyringWorks && (SERVICE_NAME, name) in keyring {
        val := Some(keyring[(SERVICE_NAME, name)]);
      }
      if val.Some? && val.value != "" {
        return val;
      }
      if SERVICE_NAME in fallback && name in fallback[SERVICE_NAME] {
        val := Some(fallback[SERVICE_NAME][name]);
      } else {
        val := None;
      }
    }

    /** `_kr_delete` */
    method KrDelete(name: string)
      modifies this
      ensures State() == Erased(old(State()), name)
    {
      if keyringWorks && (SERVICE_NAME, name) in keyring {
        keyring := keyring - {(SERVICE_NAME, name)};
      } else if SERVICE_NAME in fallback && name in fallback[SERVICE_NAME] {
        fallback := fallback[SERVICE_NAME := fallback[SERVICE_NAME] - {name}];
      }
    }

    /** `create_protection` */
    method CreateProtection(passphrase: string, dataKey: B64Text32, challenge: string, recovery: B64Text32)
      returns (r: CreateOutcome)
      modifies this
      ensures Step(r, State()) == Create(old(State()), passphrase, dataKey, challenge, recovery)
    {
      if !(PassComplexityOk(passphrase) || PinOk(passphrase)) {
        return TooWeak;
      }
      encDir := encDir[KEY_FILE := KeyBlob(WrapKey(dataKey, passphrase))];
      KrSet(CHALLENGE_ENTRY, B64Encode(FernetEncrypt(dataKey, challenge)));
      KrSet(RECOVERY_TOKEN_NAME, recovery);
      KrSet(AUTOSTART_ENTRY, B64Encode(dataKey));
      encDir := encDir[LOCK_FILE := LockJson(FRESH_LOCK)];
      r := Created(recovery);
    }

    /** `validate_passphrase` */
    method ValidatePassphrase(passphrase: string, challenge: string) returns (ok: bool)
      modifies this
      ensures Step(ok, State()) == Validate(old(State()), passphrase, challenge)
    {
      if KEY_FILE !in encDir || !encDir[KEY_FILE].KeyBlob? {
        return false;
      }
      var unwrapped := UnwrapKey(encDir[KEY_FILE].wrapped, passphrase);
      if unwrapped.None? {
        return false;
      }
      var dataKey := unwrapped.value;
      var token := KrGet(CHALLENGE_ENTRY);
      if token.None? || token.value == "" {
        if FernetKeyOk(dataKey) {
          KrSet(CHALLENGE_ENTRY, B64Encode(FernetEncrypt(dataKey, challenge)));
        }
        return true;
      }
      var raw := B64Decode(token.value);
      if raw.None? || !FernetDecrypts(dataKey, raw.value) {
        return false;
      }
      var auto := KrGet(AUTOSTART_ENTRY);
      if auto.None? || auto.value == "" {
        KrSet(AUTOSTART_ENTRY, B64Encode(dataKey));
      }
      return true;
    }

    /** `record_failed_attempt` at time `now` */
    method RecordFailedAttempt(now: int) returns (total: nat, lockSeconds: Option<nat>)
      modifies this
      ensures Step(FailureOutcome(total, lockSeconds), State()) == RecordFailure(old(State()), now)
    {
      var state := LockInfo(State());
      state := state.(fails := state.fails + 1, lastFail := Some(now));
      total := state.fails;
      if total >= MAX_TOTAL_ATTEMPTS {
        state := state.(lockUntil := None, reset := true);
        encDir := encDir[LOCK_FILE := LockJson(state)];
        RemoveFiles([KEY_FILE, IPC_INFO_FILE]);
        assert (set n | n in [KEY_FILE, IPC_INFO_FILE]) == {KEY_FILE, IPC_INFO_FILE};
        DeleteEntries(RESET_ENTRIES);
        return total, None;
      }
      var secs := LockSeconds(total);
      state := state.(lockUntil := Some(now + secs));
      encDir := encDir[LOCK_FILE := LockJson(state)];
      return total, Some(secs);
    }

    /** The loop that unlinks files of the encryption directory, ignoring absent ones. */
    method RemoveFiles(names: seq<string>)
      modifies this
      ensures encDir == old(encDir) - (set n | n in names)
      ensures keyring == old(keyring) && fallback == old(fallback)
    {
      for i := 0 to |names|
        invariant encDir == old(encDir) - (set n | n in names[..i])
        invariant keyring == old(keyring) && fallback == old(fallback)
      {
        encDir := encDir - {names[i]};
        assert names[..i + 1] == names[..i] + [names[i]];
        ghost var seen := names[..i];
        assert (set n | n in seen + [names[i]]) == (set n | n in seen) + {names[i]};
      }
      assert names[..|names|] == names;
    }

    /** The loop that deletes keyring entries, ignoring absent ones. */
    method DeleteEntries(names: seq<string>)
      modifies this
      ensures State() == ErasedAll(old(State()), names)
    {
      for i := 0 to |names|
        invariant State() == ErasedAll(old(State()), names[..i])
      {
        KrDelete(names[i]);
        assert names[..i + 1][..i] == names[..i];
      }
      assert names[..|names|] == names;
    }

    /** `get_lock_info` */
    method GetLockInfo() returns (state: LockState)
      ensures state == LockInfo(State())
      ensures LOCK_FILE !in encDir ==> state == FRESH_LOCK
    {
      if LOCK_FILE in encDir && encDir[LOCK_FILE].LockJson? {
        state := encDir[LOCK_FILE].state;
      } else {
        state := FRESH_LOCK;
      }
    }

    /** `get_autostart_key` */
    method GetAutostartKey() returns (key: Option<string>)
      ensures key == AutostartKey(State())
      ensures key.Some? ==> key == Lookup(State(), AUTOSTART_ENTRY) && Strip(key.value) != ""
    {
      var k := KrGet(AUTOSTART_ENTRY);
      if k.None? || k.value == "" || Strip(k.value) == "" {
        return None;
      }
      return k;
    }

    /** The `--change` branch of `_main` */
    method ChangeSecret(stdin: string, useRecovery: bool, challenge: string, newRecovery: B64Text32)
      returns (code: int, printed: Option<string>)
      modifies this
      ensures Step(ChangeOutcome(code, printed), State()) ==
              Change(old(State()), stdin, useRecovery, challenge, newRecovery)
    {
      var lines := SplitLines(stdin);
      if |lines| < 2 {
        return 2, None;
      }
      var authSecret, newSecret := lines[0], lines[1];
      if authSecret == "" || newSecret == "" {
        return 2, None;
      }
      if KEY_FILE !in encDir {
        return 2, None;
      }
      var auth := CheckAuth(authSecret, useRecovery, challenge);
      if auth.Refused? {
        return auth.code, None;
      }
      var dataKey := auth.dataKey;
      if !(PinOk(newSecret) || PassComplexityOk(newSecret)) {
        return 3, None;
      }
      encDir := encDir[KEY_FILE := KeyBlob(WrapKey(dataKey, newSecret))];
      KrSet(AUTOSTART_ENTRY, B64Encode(dataKey));
      KrSet(RECOVERY_TOKEN_NAME, newRecovery);
      return 0, Some(newRecovery);
    }

    /** The authentication step of `--change` */
    method CheckAuth(authSecret: string, useRecovery: bool, challenge: string) returns (auth: Auth)
      requires IsProtected(State())
      modifies this
      ensures Step(auth, State()) == Authenticate(old(State()), authSecret, useRecovery, challenge)
    {
      if useRecovery {
        var rec := KrGet(RECOVERY_TOKEN_NAME);
        if rec.None? || rec.value == "" || Strip(rec.value) != Strip(authSecret) {
          return Refused(1);
        }
        var ak := KrGet(AUTOSTART_ENTRY);
        if ak.None? || ak.value == "" {
          return Refused(5);
        }
        var decoded := B64Decode(ak.value);
        if decoded.None? {
          return Refused(5);
        }
        return Authorized(decoded.value);
      }
      var ok := ValidatePassphrase(authSecret, challenge);
      if !ok {
        return Refused(1);
      }
      if KEY_FILE !in encDir || !encDir[KEY_FILE].KeyBlob? {
        return Refused(1);
      }
      var unwrapped := UnwrapKey(encDir[KEY_FILE].wrapped, authSecret);
      if unwrapped.None? {
        return Refused(1);
      }
      return Authorized(unwrapped.value);
    }
  }
}
