/**
 * The API server's configuration, read from the process environment. The environment is a
 * map from the variables that are set to their values; a variable that is set may be "".
 */
module ServerConfig {
  import opened Wrappers
  import Text

  type Env = map<string, string>

  const PortKey: string := "PORT"
  const DatabaseUrlKey: string := "DATABASE_URL"
  const ClerkSecretKey: string := "CLERK_SECRET_KEY"
  const EnvironmentKey: string := "ENVIRONMENT"
  const AllowedOriginsKey: string := "ALLOWED_ORIGINS"
  const DefaultPort: string := "8080"
  const DefaultEnvironment: string := "development"
  const MissingDatabaseUrl: string := "DATABASE_URL is required"
  const MissingClerkSecret: string := "CLERK_SECRET_KEY is required"

  /** `Config`. `allowedOrigins` is `None` for a nil slice. */
  datatype Config = Config(
    port: string,
    databaseUrl: string,
    clerkSecretKey: string,
    environment: string,
    allowedOrigins: Option<seq<string>>)

  /** `os.Getenv`: "" for an unset variable. */
  function Getenv(env: Env, key: string): (v: string)
    ensures key in env ==> v == env[key]
    ensures key !in env ==> v == ""
  {
    if key in env then env[key] else ""
  }

  /** `getenv`: the default only for an unset variable; a variable set to "" gives "". */
  function GetenvOr(env: Env, key: string, default: string): (v: string)
    ensures key in env ==> v == env[key]
    ensures key !in env ==> v == default
  {
    if key in env then env[key] else default
  }

  /** The trimmed parts that are not empty, in order. */
  function TrimmedNonEmpty(parts: seq<string>): (r: seq<string>)
    ensures |r| <= |parts|
  {
    if parts == [] then []
    else
      var v := Text.GoTrimSpace(parts[|parts| - 1]);
      TrimmedNonEmpty(parts[..|parts| - 1]) + (if v == "" then [] else [v])
  }

  /** `parseAllowedOrigins`: nil for "", otherwise the comma-separated entries, trimmed, with
      the empty ones dropped. */
  function AllowedOriginsOf(raw: string): (r: Option<seq<string>>)
    ensures r.None? <==> raw == ""
  {
    if raw == "" then None else Some(TrimmedNonEmpty(Text.Split(raw, {','})))
  }

  /** The loop of `parseAllowedOrigins`. */
  method ParseAllowedOrigins(raw: string) returns (origins: Option<seq<string>>)
    ensures origins == AllowedOriginsOf(raw)
  {
    if raw == "" {
      return None;
    }
    var parts := Text.Split(raw, {','});
    var res: seq<string> := [];
    for i := 0 to |parts|
      invariant res == TrimmedNonEmpty(parts[..i])
    {
      assert parts[..i + 1][..i] == parts[..i];
      var v := Text.GoTrimSpace(parts[i]);
      if v == "" {
        continue;
      }
      res := res + [v];
    }
    assert parts[..|parts|] == parts;
    return Some(res);
  }

  /** Every kept entry is non-empty and has no surrounding white space, and each comes from
      a part of the input. */
  lemma {:induction false} TrimmedNonEmptyMembers(parts: seq<string>, x: string)
    ensures x in TrimmedNonEmpty(parts) <==> x != "" && exists p :: p in parts && Text.GoTrimSpace(p) == x
    ensures x in TrimmedNonEmpty(parts) ==> Text.IsGoTrimmed(x)
    decreases |parts|
  {
    if parts != [] {
      var init := parts[..|parts| - 1];
      var last := parts[|parts| - 1];
      TrimmedNonEmptyMembers(init, x);
      assert parts == init + [last];
      if x != "" && exists p :: p in parts && Text.GoTrimSpace(p) == x {
        var p :| p in parts && Text.GoTrimSpace(p) == x;
        if p != last {
          assert p in init;
        }
      }
    }
  }

  /** Entries that are already clean are kept as they are. */
  lemma {:induction false} TrimmedNonEmptyOfClean(parts: seq<string>)
    requires forall i | 0 <= i < |parts| :: parts[i] != "" && Text.IsGoTrimmed(parts[i])
    ensures TrimmedNonEmpty(parts) == parts
    decreases |parts|
  {
    if parts != [] {
      TrimmedNonEmptyOfClean(parts[..|parts| - 1]);
      Text.GoTrimSpaceOfTrimmed(parts[|parts| - 1]);
    }
  }

  /** Writing clean, comma-free origins joined by commas and parsing them gives them back; no
      origins give nil. */
  lemma OriginsRoundTrip(origins: seq<string>)
    requires forall i | 0 <= i < |origins| :: origins[i] != "" && Text.IsGoTrimmed(origins[i]) && Text.FreeOf(origins[i], {','})
    ensures AllowedOriginsOf(Text.Join(origins, ",")) == (if origins == [] then None else Some(origins))
  {
    if origins != [] {
      var raw := Text.Join(origins, ",");
      assert raw != "" by {
        if |origins| > 1 {
          assert raw == origins[0] + "," + Text.Join(origins[1..], ",");
        }
      }
      Text.SplitJoin(origins, ',', {','});
      TrimmedNonEmptyOfClean(origins);
    }
  }

  /** `Load`. The database URL is checked before the secret key. */
  function Load(env: Env): (r: Result<Config, string>)
    ensures r.Success? <==> Getenv(env, DatabaseUrlKey) != "" && Getenv(env, ClerkSecretKey) != ""
    ensures Getenv(env, DatabaseUrlKey) == "" ==> r == Failure(MissingDatabaseUrl)
    ensures Getenv(env, DatabaseUrlKey) != "" && Getenv(env, ClerkSecretKey) == "" ==> r == Failure(MissingClerkSecret)
  {
    var port := GetenvOr(env, PortKey, DefaultPort);
    var dbUrl := Getenv(env, DatabaseUrlKey);
    var secret := Getenv(env, ClerkSecretKey);
    var environment := GetenvOr(env, EnvironmentKey, DefaultEnvironment);
    var origins := AllowedOriginsOf(Getenv(env, AllowedOriginsKey));
    if dbUrl == "" then Failure(MissingDatabaseUrl)
    else if secret == "" then Failure(MissingClerkSecret)
    else Success(Config(port, dbUrl, secret, environment, origins))
  }

  /** A loaded configuration holds exactly the values read: the set variables, with "8080"
      and "development" standing in for an unset port and environment. */
  lemma LoadedValues(env: Env)
    requires Load(env).Success?
    ensures var c := Load(env).value;
      && c.databaseUrl == env[DatabaseUrlKey] && c.clerkSecretKey == env[ClerkSecretKey]
      && c.port == (if PortKey in env then env[PortKey] else DefaultPort)
      && c.environment == (if EnvironmentKey in env then env[EnvironmentKey] else DefaultEnvironment)
      && c.allowedOrigins == AllowedOriginsOf(if AllowedOriginsKey in env then env[AllowedOriginsKey] else "")
  {
  }
}
