/** Application settings: their defaults, the two field validators and the
    derived `admin_ids_list` and `is_production` properties. */
module Config {
  import opened Wrappers
  import opened Text

  datatype Settings = Settings(
    appName: string,
    appEnv: string,
    debug: bool,
    secretKey: string,
    apiUrl: string,
    frontendUrl: string,
    databaseUrl: string,
    discordClientId: string,
    discordClientSecret: string,
    discordRedirectUri: string,
    proxmoxHost: string,
    proxmoxUser: string,
    proxmoxPassword: string,
    proxmoxVerifySsl: bool,
    proxmoxNode: string,
    unifiHost: string,
    unifiPort: int,
    unifiUsername: string,
    unifiPassword: string,
    unifiVerifySsl: bool,
    sshPortRangeStart: int,
    sshPortRangeEnd: int,
    defaultMemory: int,
    defaultCores: int,
    defaultDisk: int,
    templateId: int,
    redisUrl: string,
    adminDiscordIds: string)

  /** The settings that have no default and must come from the environment. */
  datatype Required = Required(
    secretKey: string,
    databaseUrl: string,
    discordClientId: string,
    discordClientSecret: string,
    discordRedirectUri: string,
    proxmoxHost: string,
    proxmoxPassword: string,
    unifiHost: string,
    unifiUsername: string)

  const MinSecretKeyLength := 32

  /** The settings obtained when only the required values are supplied. */
  function WithDefaults(req: Required): (s: Settings)
    ensures s.appEnv == "development" && !s.debug
    ensures s.sshPortRangeStart == 20000 && s.sshPortRangeEnd == 30000
    ensures s.defaultMemory == 4096 && s.defaultCores == 4 && s.defaultDisk == 20
    ensures s.templateId == 9000 && s.unifiPort == 8442 && s.proxmoxNode == "pve"
    ensures s.adminDiscordIds == ""
    ensures s.secretKey == req.secretKey && s.databaseUrl == req.databaseUrl
  {
    Settings(
      appName := "VPS BACKEND",
      appEnv := "development",
      debug := false,
      secretKey := req.secretKey,
      apiUrl := "http://localhost:4835",
      frontendUrl := "http://localhost:4773",
      databaseUrl := req.databaseUrl,
      discordClientId := req.discordClientId,
      discordClientSecret := req.discordClientSecret,
      discordRedirectUri := req.discordRedirectUri,
      proxmoxHost := req.proxmoxHost,
      proxmoxUser := "root@pam",
      proxmoxPassword := req.proxmoxPassword,
      proxmoxVerifySsl := false,
      proxmoxNode := "pve",
      unifiHost := req.unifiHost,
      unifiPort := 8442,
      unifiUsername := req.unifiUsername,
      unifiPassword := "default",
      unifiVerifySsl := false,
      sshPortRangeStart := 20000,
      sshPortRangeEnd := 30000,
      defaultMemory := 4096,
      defaultCores := 4,
      defaultDisk := 20,
      templateId := 9000,
      redisUrl := "redis://localhost:6379/0",
      adminDiscordIds := "")
  }

  // ---------------------------------------------------------------------
  // Field validators

  datatype FieldError = FieldError(field: string, message: string)

  /** `validate_database_url`: the URL is kept as it is when it starts with
      one of the two PostgreSQL schemes, and rejected otherwise. */
  function ValidateDatabaseUrl(v: string): (r: Result<string, FieldError>)
    ensures r.Success? <==> exists rest :: v == "postgres://" + rest || v == "postgresql://" + rest
    ensures r.Success? ==> r.value == v
    ensures r.Failure? ==> r.error.field == "database_url"
  {
    StartsWithDecomposes(v, "postgres://");
    StartsWithDecomposes(v, "postgresql://");
    if !(StartsWith(v, "postgres://") || StartsWith(v, "postgresql://")) then
      Failure(FieldError("database_url", "Database URL must be PostgreSQL"))
    else
      Success(v)
  }

  /** The `min_length=32` constraint on `secret_key`. The field validator
      `validate_secret_key` repeats the same length test after it, so it can
      never reject a key the constraint let through and is not modelled
      separately. */
  function ValidateSecretKey(v: string): (r: Result<string, FieldError>)
    ensures r.Success? <==> |v| >= 32
    ensures r.Success? ==> r.value == v
    ensures r.Failure? ==> r.error.field == "secret_key"
  {
    if |v| < MinSecretKeyLength then
      Failure(FieldError("secret_key", "String should have at least 32 characters"))
    else
      Success(v)
  }

  /** Validation of a whole settings object: every failing field is
      reported, and a valid object is returned unchanged. */
  function Validate(s: Settings): (r: Result<Settings, set<string>>)
    ensures r.Success? <==> ValidateDatabaseUrl(s.databaseUrl).Success? && ValidateSecretKey(s.secretKey).Success?
    ensures r.Success? ==> r.value == s
    ensures r.Failure? ==> r.error != {} && r.error <= {"database_url", "secret_key"}
    ensures r.Failure? ==> ("secret_key" in r.error <==> |s.secretKey| < 32)
    ensures r.Failure? ==> ("database_url" in r.error <==> ValidateDatabaseUrl(s.databaseUrl).Failure?)
  {
    var url := ValidateDatabaseUrl(s.databaseUrl);
    var key := ValidateSecretKey(s.secretKey);
    var errors := (if url.Failure? then {url.error.field} else {})
                  + (if key.Failure? then {key.error.field} else {});
    if errors == {} then Success(s) else Failure(errors)
  }

  // ---------------------------------------------------------------------
  // Derived properties

  predicate IsProduction(s: Settings) {
    s.appEnv == "production"
  }

  /** Only the exact lower-case name counts as production. */
  lemma ProductionIsExact(s: Settings)
    ensures IsProduction(s) <==> s.appEnv == "production"
    ensures !IsProduction(s.(appEnv := "Production")) && !IsProduction(s.(appEnv := "production "))
  {
  }

  predicate NoneContain(parts: seq<string>, c: char) {
    forall j :: 0 <= j < |parts| ==> c !in parts[j]
  }

  /** `[i.strip() for i in parts if i.strip()]`. */
  function KeepStripped(parts: seq<string>): (r: seq<string>)
    ensures |r| <= |parts|
    ensures forall k :: 0 <= k < |r| ==> r[k] != "" && IsStripped(r[k])
  {
    if parts == [] then []
    else if Strip(parts[0]) == "" then KeepStripped(parts[1..])
    else [Strip(parts[0])] + KeepStripped(parts[1..])
  }

  /** A character absent from every segment is absent from every kept entry. */
  lemma {:induction false} KeepStrippedNoneContain(parts: seq<string>, c: char)
    requires NoneContain(parts, c)
    ensures NoneContain(KeepStripped(parts), c)
  {
    if parts != [] {
      NoneContainTail(parts, c);
      StripKeepsChars(parts[0], c);
      KeepStrippedNoneContain(parts[1..], c);
      if Strip(parts[0]) != "" {
        NoneContainCons(Strip(parts[0]), KeepStripped(parts[1..]), c);
      }
    }
  }

  lemma NoneContainTail(parts: seq<string>, c: char)
    requires parts != [] && NoneContain(parts, c)
    ensures c !in parts[0] && NoneContain(parts[1..], c)
  {
    assert forall j :: 0 <= j < |parts[1..]| ==> parts[1..][j] == parts[j + 1];
  }

  lemma NoneContainCons(t: string, kept: seq<string>, c: char)
    requires c !in t && NoneContain(kept, c)
    ensures NoneContain([t] + kept, c)
  {
    assert forall j :: 0 < j < |[t] + kept| ==> ([t] + kept)[j] == kept[j - 1];
  }

  /** `admin_ids_list`: the comma-separated, whitespace-trimmed, non-blank
      entries of `admin_discord_ids`. */
  function AdminIdsList(s: Settings): (r: seq<string>)
    ensures s.adminDiscordIds == "" ==> r == []
    ensures forall k :: 0 <= k < |r| ==> r[k] != "" && IsStripped(r[k]) && ',' !in r[k]
  {
    if s.adminDiscordIds == "" then []
    else
      var parts := Split(s.adminDiscordIds, ',');
      assert NoneContain(parts, ',');
      KeepStrippedNoneContain(parts, ',');
      KeepStripped(parts)
  }

  /** Source order is kept: the entries of two runs of segments are those
      of the first run followed by those of the second. */
  lemma {:induction false} KeepStrippedConcat(a: seq<string>, b: seq<string>)
    ensures KeepStripped(a + b) == KeepStripped(a) + KeepStripped(b)
  {
    if a != [] {
      assert (a + b)[1..] == a[1..] + b;
      KeepStrippedConcat(a[1..], b);
    } else {
      assert a + b == b;
    }
  }

  /** Each segment contributes exactly its stripped text when that is not blank. */
  lemma KeepStrippedSingle(p: string)
    ensures KeepStripped([p]) == if Strip(p) == "" then [] else [Strip(p)]
  {
  }

  lemma {:induction false} KeepStrippedFixed(parts: seq<string>)
    requires forall k :: 0 <= k < |parts| ==> parts[k] != "" && IsStripped(parts[k])
    ensures KeepStripped(parts) == parts
  {
    if parts != [] {
      StripStripped(parts[0]);
      KeepStrippedFixed(parts[1..]);
      assert KeepStripped(parts) == [parts[0]] + KeepStripped(parts[1..]);
    }
  }

  /** Writing the parsed list back as a comma-separated string and parsing
      it again yields the same list. */
  lemma AdminIdsListNormalises(s: Settings)
    ensures AdminIdsList(s.(adminDiscordIds := Join(AdminIdsList(s), ','))) == AdminIdsList(s)
  {
    var ids := AdminIdsList(s);
    if ids != [] {
      var joined := Join(ids, ',');
      assert joined != "" by {
        if |ids| > 1 {
          assert |joined| >= |ids[0]|;
        }
      }
      SplitJoin(ids, ',');
      KeepStrippedFixed(ids);
    }
  }
}
