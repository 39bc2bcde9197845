/** Secrets kept in an OS keychain that may fail, and in a credentials file that may take over. */
module Secrets {
  import opened Prelude

  const FILE_PREFERENCE_PREFIX := "__tellm_prefer_credentials_file__:"

  /** Marks, inside the file, that the file outranks the keychain for this name. */
  function FilePreferenceKey(name: string): string {
    FILE_PREFERENCE_PREFIX + name
  }

  predicate IsReservedName(name: string) {
    FILE_PREFERENCE_PREFIX <= name
  }

  function UpperAlphanumeric(c: char): char {
    if 'a' <= c <= 'z' then 'A' + (c - 'a')
    else if 'A' <= c <= 'Z' || '0' <= c <= '9' then c
    else '_'
  }

  function EnvVarName(name: string): string {
    "TELLM_" + seq(|name|, i requires 0 <= i < |name| => UpperAlphanumeric(name[i]))
  }

  /** Present variables; None is a value that is not valid text. */
  type Environment = map<string, Option<string>>

  datatype Destination = OsKeychain | CredentialsFile
  datatype SecretError = EnvironmentOverride | ReservedName | Io | FallbackCleanup
  datatype Outcome = Stored(destination: Destination) | Failed(error: SecretError)

  /** How the backends behave during one call. An operation that reports failure may still have
      taken effect. */
  datatype Faults = Faults(
    keychainWrites: bool, keychainWriteLands: bool, keychainReads: bool,
    fileReads: bool, fileWrites: bool, fileWriteLands: bool)

  datatype Vault = Vault(keychain: map<string, string>, file: map<string, string>)

  // ---------- Specification ----------

  function Rewritten(file: map<string, string>, wanted: map<string, string>, f: Faults): map<string, string> {
    if f.fileReads && (f.fileWrites || f.fileWriteLands) then wanted else file
  }

  function WithFileValue(file: map<string, string>, name: string, value: string): map<string, string> {
    file[name := value][FilePreferenceKey(name) := "true"]
  }

  function WithoutFileValue(file: map<string, string>, name: string): map<string, string> {
    file - {name, FilePreferenceKey(name)}
  }

  function FinishKeychain(v: Vault, name: string, f: Faults): (Vault, Outcome) {
    var clean := name !in v.file && FilePreferenceKey(name) !in v.file;
    if !f.fileReads then (v, Failed(FallbackCleanup))
    else if clean then (v, Stored(OsKeychain))
    else (v.(file := Rewritten(v.file, WithoutFileValue(v.file, name), f)),
          if f.fileWrites then Stored(OsKeychain) else Failed(FallbackCleanup))
  }

  function SetWithBackends(v: Vault, name: string, value: string, f: Faults): (Vault, Outcome) {
    var written := if f.keychainWrites || f.keychainWriteLands then v.(keychain := v.keychain[name := value]) else v;
    if f.keychainWrites then FinishKeychain(written, name, f)
    else if f.keychainReads && name in written.keychain && written.keychain[name] == value then
      FinishKeychain(written, name, f)
    else
      (written.(file := Rewritten(written.file, WithFileValue(written.file, name, value), f)),
       if f.fileReads && f.fileWrites then Stored(CredentialsFile) else Failed(Io))
  }

  function SetSecret(v: Vault, name: string, value: string, env: Environment, f: Faults): (Vault, Outcome) {
    if IsReservedName(name) then (v, Failed(ReservedName))
    else if EnvVarName(name) in env then (v, Failed(EnvironmentOverride))
    else SetWithBackends(v, name, value, f)
  }

  function Lookup(m: map<string, string>, name: string): Option<string> {
    if name in m then Some(m[name]) else None
  }

  function PersistedSecret(name: string, file: Option<map<string, string>>, keychain: Option<string>): Option<string> {
    var fileValue := if file.Some? then Lookup(file.value, name) else None;
    if file.Some? && FilePreferenceKey(name) in file.value then fileValue
    else if keychain.Some? then keychain
    else fileValue
  }

  function GetSecret(v: Vault, name: string, env: Environment, fileReads: bool, keychainReads: bool): Option<string> {
    if IsReservedName(name) then None
    else if EnvVarName(name) in env then env[EnvVarName(name)]
    else PersistedSecret(name, if fileReads then Some(v.file) else None,
                         if keychainReads then Lookup(v.keychain, name) else None)
  }

  // ---------- The program ----------

  class SecretStore {
    var keychain: map<string, string>
    var file: map<string, string>

    function View(): Vault
      reads this
    {
      Vault(keychain, file)
    }

    method Set(name: string, value: string, env: Environment, f: Faults) returns (outcome: Outcome)
      modifies this
      ensures (View(), outcome) == SetSecret(old(View()), name, value, env, f)
    {
      if IsReservedName(name) {
        return Failed(ReservedName);
      }
      if EnvVarName(name) in env {
        return Failed(EnvironmentOverride);
      }
      if f.keychainWrites || f.keychainWriteLands {
        keychain := keychain[name := value];
      }
      if f.keychainWrites {
        outcome := FinishKeychainWrite(name, f);
        return;
      }
      if f.keychainReads && name in keychain && keychain[name] == value {
        outcome := FinishKeychainWrite(name, f);
      } else {
        var ok := FileSet(name, value, f);
        outcome := if ok then Stored(CredentialsFile) else Failed(Io);
      }
    }

    method FinishKeychainWrite(name: string, f: Faults) returns (outcome: Outcome)
      modifies this`file
      ensures (View(), outcome) == FinishKeychain(old(View()), name, f)
    {
      var ok := FileRemove(name, f);
      outcome := if ok then Stored(OsKeychain) else Failed(FallbackCleanup);
    }

    method FileSet(name: string, value: string, f: Faults) returns (ok: bool)
      modifies this`file
      ensures file == Rewritten(old(file), WithFileValue(old(file), name, value), f)
      ensures ok <==> f.fileReads && f.fileWrites
    {
      if !f.fileReads {
        return false;
      }
      var secrets := file;
      secrets := secrets[name := value];
      secrets := secrets[FilePreferenceKey(name) := "true"];
      ok := WriteFileSecrets(secrets, f);
    }

    method FileRemove(name: string, f: Faults) returns (ok: bool)
      modifies this`file
      ensures (View(), if ok then Stored(OsKeychain) else Failed(FallbackCleanup))
           == FinishKeychain(old(View()), name, f)
    {
      if !f.fileReads {
        return false;
      }
      var secrets := file;
      var removedValue := name in secrets;
      secrets := secrets - {name};
      var removedPreference := FilePreferenceKey(name) in secrets;
      secrets := secrets - {FilePreferenceKey(name)};
      assert secrets == WithoutFileValue(file, name);
      assert |name| < |FilePreferenceKey(name)|;
      if removedValue || removedPreference {
        ok := WriteFileSecrets(secrets, f);
      } else {
        ok := true;
      }
    }

    method WriteFileSecrets(secrets: map<string, string>, f: Faults) returns (ok: bool)
      modifies this`file
      ensures file == if f.fileWrites || f.fileWriteLands then secrets else old(file)
      ensures ok == f.fileWrites
    {
      if f.fileWrites || f.fileWriteLands {
        file := secrets;
      }
      ok := f.fileWrites;
    }
  }

  // ---------- Runs ----------

  datatype Call = Call(name: string, value: string, env: Environment, faults: Faults)

  /** What callers were told. `current` maps every name that was once reported stored to the values
      a reader may see: the last one reported stored and those whose storing failed since; `told` is
      where the last reported one went. */
  datatype History = History(vault: Vault, current: map<string, set<string>>, told: map<string, Destination>)

  function Fresh(vault: Vault): History {
    History(vault, map[], map[])
  }

  /** The call is not turned away before it reaches the backends. */
  predicate Reaches(c: Call) {
    !IsReservedName(c.name) && EnvVarName(c.name) !in c.env
  }

  function Report(h: History, c: Call): Outcome {
    SetSecret(h.vault, c.name, c.value, c.env, c.faults).1
  }

  function Perform(h: History, c: Call): History {
    var (vault, outcome) := SetSecret(h.vault, c.name, c.value, c.env, c.faults);
    match outcome
    case Stored(destination) => History(vault, h.current[c.name := {c.value}], h.told[c.name := destination])
    case Failed(_) =>
      if c.name in h.current && Reaches(c) then
        History(vault, h.current[c.name := h.current[c.name] + {c.value}], h.told)
      else h.(vault := vault)
  }

  function Run(h: History, calls: seq<Call>): History
    decreases calls
  {
    if calls == [] then h else Run(Perform(h, calls[0]), calls[1..])
  }

  /** Every copy a reader could be given is current, and there is one. */
  ghost predicate Current(h: History, name: string) {
    && (name in h.current <==> name in h.told)
    && (name in h.current ==>
          var marked := FilePreferenceKey(name) in h.vault.file;
          && !IsReservedName(name)
          && (name in h.vault.file || name in h.vault.keychain)
          && (marked ==> name in h.vault.file)
          && (name in h.vault.file ==> h.vault.file[name] in h.current[name])
          && (!marked && name in h.vault.keychain ==> h.vault.keychain[name] in h.current[name])
          && (h.told[name].OsKeychain? ==>
                name in h.vault.keychain && h.vault.keychain[name] in h.current[name]))
  }

  lemma {:induction false} KeysApart(name: string, other: string)
    requires name != other && !IsReservedName(name) && !IsReservedName(other)
    ensures |{name, FilePreferenceKey(name)} * {other, FilePreferenceKey(other)}| == 0
    ensures name != FilePreferenceKey(other) && other != FilePreferenceKey(name)
    ensures FilePreferenceKey(name) != FilePreferenceKey(other)
  {
    assert FilePreferenceKey(name)[|FILE_PREFERENCE_PREFIX|..] == name;
    assert FilePreferenceKey(other)[|FILE_PREFERENCE_PREFIX|..] == other;
    assert {name, FilePreferenceKey(name)} * {other, FilePreferenceKey(other)} == {};
  }

  /** Both backends hold the same of this name. */
  ghost predicate SameFor(v: Vault, w: Vault, name: string) {
    && Lookup(v.keychain, name) == Lookup(w.keychain, name)
    && Lookup(v.file, name) == Lookup(w.file, name)
    && (FilePreferenceKey(name) in v.file <==> FilePreferenceKey(name) in w.file)
  }

  lemma {:induction false} SetTouchesOneName(v: Vault, c: Call, other: string)
    requires c.name != other && !IsReservedName(other)
    ensures SameFor(v, SetSecret(v, c.name, c.value, c.env, c.faults).0, other)
  {
    if !IsReservedName(c.name) {
      KeysApart(c.name, other);
    }
  }

  /** Setting one name leaves what any reader sees of another name unchanged. */
  lemma {:induction false} SetLeavesOthers(
      v: Vault, c: Call, other: string, env: Environment, fileReads: bool, keychainReads: bool)
    requires c.name != other
    ensures var w := SetSecret(v, c.name, c.value, c.env, c.faults).0;
      GetSecret(w, other, env, fileReads, keychainReads) == GetSecret(v, other, env, fileReads, keychainReads)
  {
    if !IsReservedName(other) {
      SetTouchesOneName(v, c, other);
    }
  }

  lemma {:induction false} OtherNameKeepsCurrent(h: History, c: Call, name: string)
    requires Current(h, name) && name in h.current && c.name != name
    ensures Current(Perform(h, c), name)
  {
    SetTouchesOneName(h.vault, c, name);
    var next := Perform(h, c);
    assert next.current[name] == h.current[name] && next.told[name] == h.told[name];
    CurrentDependsOn(h, next, name);
  }

  lemma {:induction false} CurrentDependsOn(h: History, next: History, name: string)
    requires Current(h, name) && name in h.current && SameFor(h.vault, next.vault, name)
    requires name in next.current && next.current[name] == h.current[name]
    requires name in next.told && next.told[name] == h.told[name]
    ensures Current(next, name)
  {
  }

  lemma {:induction false} PerformKeepsCurrent(h: History, c: Call, name: string)
    requires Current(h, name)
    ensures Current(Perform(h, c), name)
  {
    if c.name == name {
      assert |name| < |FilePreferenceKey(name)|;
    } else if name in h.current {
      OtherNameKeepsCurrent(h, c, name);
    }
  }

  lemma {:induction false} RunKeepsCurrent(h: History, calls: seq<Call>, name: string)
    requires Current(h, name)
    ensures Current(Run(h, calls), name)
    decreases calls
  {
    if calls != [] {
      PerformKeepsCurrent(h, calls[0], name);
      RunKeepsCurrent(Perform(h, calls[0]), calls[1..], name);
    }
  }

  /** After any run of calls with any backend failures, a reader that can read the file and is not
      overridden by the environment gets a value no older than the last one reported stored, and
      does get one if it can also read the keychain. */
  lemma {:induction false} NeverServesOlderValue(
      initial: Vault, calls: seq<Call>, name: string, env: Environment, keychainReads: bool)
    requires EnvVarName(name) !in env
    ensures var h := Run(Fresh(initial), calls);
      var got := GetSecret(h.vault, name, env, true, keychainReads);
      name in h.current ==>
        && (got.Some? ==> got.value in h.current[name])
        && (keychainReads ==> got.Some?)
  {
    RunKeepsCurrent(Fresh(initial), calls, name);
  }

  /** Whoever was last told that the value went to the keychain need not care about the file: every
      reader of the keychain gets a value no older than that, the file readable or not. */
  lemma {:induction false} KeychainValueIsServed(
      initial: Vault, calls: seq<Call>, name: string, env: Environment, fileReads: bool)
    requires EnvVarName(name) !in env
    ensures var h := Run(Fresh(initial), calls);
      var got := GetSecret(h.vault, name, env, fileReads, true);
      name in h.told && h.told[name] == OsKeychain ==>
        name in h.current && got.Some? && got.value in h.current[name]
  {
    RunKeepsCurrent(Fresh(initial), calls, name);
  }

  /** The call's value reaches the keychain, whatever the keychain reports. */
  predicate LandsInKeychain(c: Call) {
    Reaches(c) && (c.faults.keychainWrites || c.faults.keychainWriteLands)
  }

  /** None of the calls reports the name stored. */
  predicate NoReport(h: History, calls: seq<Call>, name: string)
    decreases calls
  {
    || calls == []
    || (&& !(calls[0].name == name && Report(h, calls[0]).Stored?)
        && NoReport(Perform(h, calls[0]), calls[1..], name))
  }

  /** None of the calls offers the backends this value for the name, or gets any value for it into
      the keychain. */
  predicate LeaveStale(calls: seq<Call>, name: string, stale: string) {
    forall i :: 0 <= i < |calls| && calls[i].name == name && Reaches(calls[i]) ==>
      !LandsInKeychain(calls[i]) && calls[i].value != stale
  }

  /** The keychain's copy of the name is no longer current. */
  ghost predicate Stale(h: History, name: string) {
    name in h.current && name in h.vault.keychain && h.vault.keychain[name] !in h.current[name]
  }

  lemma {:induction false} PerformStale(h: History, c: Call, name: string)
    requires name in h.current && !IsReservedName(name)
    requires c.name == name ==> !Report(h, c).Stored?
    ensures var next := Perform(h, c);
      && name in next.current
      && (Stale(next, name) <==> Stale(h, name) && LeaveStale([c], name, h.vault.keychain[name]))
      && (Stale(next, name) ==> next.vault.keychain[name] == h.vault.keychain[name])
  {
    if c.name == name {
      assert Stale(h, name) ==>
        (LeaveStale([c], name, h.vault.keychain[name]) <==>
         (Reaches([c][0]) ==> !LandsInKeychain(c) && c.value != h.vault.keychain[name]));
    }
  }

  lemma {:induction false} RunStale(h: History, calls: seq<Call>, name: string)
    requires name in h.current && !IsReservedName(name) && NoReport(h, calls, name)
    ensures var end := Run(h, calls);
      && name in end.current
      && (Stale(end, name) <==> Stale(h, name) && LeaveStale(calls, name, h.vault.keychain[name]))
    decreases calls
  {
    if calls != [] {
      PerformStale(h, calls[0], name);
      RunStale(Perform(h, calls[0]), calls[1..], name);
      if Stale(h, name) {
        LeaveStaleCons(calls, name, h.vault.keychain[name]);
      }
    }
  }

  lemma {:induction false} LeaveStaleCons(calls: seq<Call>, name: string, stale: string)
    requires calls != []
    ensures LeaveStale(calls, name, stale)
       <==> LeaveStale(calls[..1], name, stale) && LeaveStale(calls[1..], name, stale)
    ensures calls[..1] == [calls[0]]
  {
    if LeaveStale(calls[..1], name, stale) && LeaveStale(calls[1..], name, stale) {
      forall i | 0 <= i < |calls| && calls[i].name == name && Reaches(calls[i])
        ensures !LandsInKeychain(calls[i]) && calls[i].value != stale
      {
        assert i == 0 ==> calls[i] == calls[..1][0];
        assert i > 0 ==> calls[i] == calls[1..][i - 1];
      }
    }
  }

  /** Whoever was last told that the value went to the file: a reader that cannot read the file is
      given an outdated value exactly when the keychain held a different one at that call and kept
      it, no write of this or a later call having landed there, and nobody tried that value again. */
  lemma {:induction false} OutdatedWithoutFileExactly(h: History, c: Call, later: seq<Call>, env: Environment)
    requires Report(h, c) == Stored(CredentialsFile) && NoReport(Perform(h, c), later, c.name)
    requires EnvVarName(c.name) !in env
    ensures var end := Run(Perform(h, c), later);
      var got := GetSecret(end.vault, c.name, env, false, true);
      var held := Lookup(h.vault.keychain, c.name);
      && c.name in end.current
      && ((got.Some? && got.value !in end.current[c.name]) <==>
            held.Some? && LeaveStale([c] + later, c.name, held.value))
  {
    RunStale(Perform(h, c), later, c.name);
    var all := [c] + later;
    assert all[..1] == [c] && all[1..] == later;
    if c.name in h.vault.keychain {
      LeaveStaleCons(all, c.name, h.vault.keychain[c.name]);
      assert [c][0] == c;
    }
  }

  ghost predicate FileOutranks(v: Vault, name: string, value: string) {
    && !IsReservedName(name)
    && FilePreferenceKey(name) in v.file
    && name in v.file && v.file[name] == value
  }

  lemma {:induction false} OthersKeepFileOutranking(h: History, calls: seq<Call>, name: string, value: string)
    requires FileOutranks(h.vault, name, value)
    requires forall i :: 0 <= i < |calls| ==> calls[i].name != name
    ensures FileOutranks(Run(h, calls).vault, name, value)
    decreases calls
  {
    if calls != [] {
      SetTouchesOneName(h.vault, calls[0], name);
      OthersKeepFileOutranking(Perform(h, calls[0]), calls[1..], name, value);
    }
  }

  /** A value reported stored in the file is returned whatever the keychain later holds or does,
      until that name is set again. */
  lemma {:induction false} FileValueIsServed(h: History, c: Call, later: seq<Call>, keychain: map<string, string>,
                          env: Environment, keychainReads: bool)
    requires SetSecret(h.vault, c.name, c.value, c.env, c.faults).1 == Stored(CredentialsFile)
    requires forall i :: 0 <= i < |later| ==> later[i].name != c.name
    requires EnvVarName(c.name) !in env
    ensures var v := Run(Perform(h, c), later).vault.(keychain := keychain);
      GetSecret(v, c.name, env, true, keychainReads) == Some(c.value)
  {
    assert |c.name| < |FilePreferenceKey(c.name)|;
    OthersKeepFileOutranking(Perform(h, c), later, c.name, c.value);
  }

  // ---------- What one call and one reader get ----------

  /** A present environment variable decides what a reader gets, and one that is not valid text gives
      nothing, whatever the backends hold; reserved names are never served. */
  lemma {:induction false} EnvironmentDecides(
      v: Vault, name: string, env: Environment, fileReads: bool, keychainReads: bool)
    ensures "__tellm_prefer_credentials_file__:" <= name ==>
      GetSecret(v, name, env, fileReads, keychainReads) == None
    ensures !("__tellm_prefer_credentials_file__:" <= name) && EnvVarName(name) in env ==>
      GetSecret(v, name, env, fileReads, keychainReads) == env[EnvVarName(name)]
  {
  }

  /** The variable of a name: its letters in upper case, its digits, and underscores for the rest. */
  lemma {:induction false} VariableOfName(name: string, i: nat)
    requires i < |name|
    ensures EnvVarName(name)[..6] == "TELLM_" && |EnvVarName(name)| == 6 + |name|
    ensures var c, shown := name[i], EnvVarName(name)[6 + i];
      && ('a' <= c <= 'z' ==> shown == 'A' + (c - 'a'))
      && ('A' <= c <= 'Z' || '0' <= c <= '9' ==> shown == c)
      && (!('a' <= c <= 'z' || 'A' <= c <= 'Z' || '0' <= c <= '9') ==> shown == '_')
  {
  }

  /** What the caller is told, from what the backends did. Reserved and overridden names are refused
      before any backend is touched. Otherwise the keychain is named exactly if the value is known to
      be there and the file is known to be without the name; the file exactly if the keychain did not
      confirm the value and the file took it. */
  lemma {:induction false} ToldExactly(h: History, c: Call)
    ensures var f := c.faults;
      var reserved, overridden := "__tellm_prefer_credentials_file__:" <= c.name, EnvVarName(c.name) in c.env;
      var confirmed := f.keychainWrites
        || (f.keychainReads
            && (f.keychainWriteLands || (c.name in h.vault.keychain && h.vault.keychain[c.name] == c.value)));
      var clean := c.name !in h.vault.file && "__tellm_prefer_credentials_file__:" + c.name !in h.vault.file;
      && (reserved ==> Report(h, c) == Failed(ReservedName) && Perform(h, c).vault == h.vault)
      && (!reserved && overridden ==> Report(h, c) == Failed(EnvironmentOverride) && Perform(h, c).vault == h.vault)
      && (Report(h, c) == Stored(OsKeychain) <==>
            !reserved && !overridden && confirmed && f.fileReads && (clean || f.fileWrites))
      && (Report(h, c) == Stored(CredentialsFile) <==>
            !reserved && !overridden && !confirmed && f.fileReads && f.fileWrites)
  {
  }

  /** Whatever was reported stored is what a reader of both backends gets next. */
  lemma {:induction false} StoredIsServed(initial: Vault, calls: seq<Call>, c: Call, env: Environment)
    requires var h := Run(Fresh(initial), calls); Report(h, c).Stored?
    requires EnvVarName(c.name) !in env
    ensures var h := Run(Fresh(initial), calls);
      GetSecret(Perform(h, c).vault, c.name, env, true, true) == Some(c.value)
  {
    var h := Run(Fresh(initial), calls);
    RunKeepsCurrent(Fresh(initial), calls, c.name);
    PerformKeepsCurrent(h, c, c.name);
    assert Perform(h, c).current[c.name] == {c.value};
  }

  /** An outdated answer is reachable: store in the keychain, then in the file while the keychain fails. */
  lemma {:induction false} UnreadableFileCanServeOlderValue()
    ensures var working := Faults(true, true, true, true, true, true);
      var failing := Faults(false, false, true, true, true, true);
      var h := Run(Fresh(Vault(map[], map[])),
                   [Call("k", "old", map[], working), Call("k", "new", map[], failing)]);
      && h.current == map["k" := {"new"}]
      && GetSecret(h.vault, "k", map[], false, true) == Some("old")
      && GetSecret(h.vault, "k", map[], true, true) == Some("new")
  {
    var working := Faults(true, true, true, true, true, true);
    var failing := Faults(false, false, true, true, true, true);
    var calls := [Call("k", "old", map[], working), Call("k", "new", map[], failing)];
    assert "k"[0] != FILE_PREFERENCE_PREFIX[0];
    assert !IsReservedName("k");
    var h0 := Fresh(Vault(map[], map[]));
    var h1 := Perform(h0, calls[0]);
    assert h1 == History(Vault(map["k" := "old"], map[]), map["k" := {"old"}], map["k" := OsKeychain]);
    var h2 := Perform(h1, calls[1]);
    assert |"k"| < |FilePreferenceKey("k")|;
    assert h2.current == map["k" := {"new"}];
    assert Run(h0, calls) == Run(h1, calls[1..]) == Run(h2, calls[1..][1..]) == h2;
  }
}
