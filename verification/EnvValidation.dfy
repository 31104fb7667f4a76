/**
  Boot-time validation of the environment. The validator walks its key lists and collects errors;
  it is proved to report exactly the violated rules, each under the key it concerns.
 */
module EnvValidation {
  import opened Options
  import opened Text
  import opened Numerals

  type Env = map<string, string>

  datatype EnvError =
    | UnknownDatabaseType
    | UnknownChoice(key: string)
    | Missing(key: string)
    | SynchronizeWithPostgres
    | InvalidSchema
    | ReservedSchema
    | BareSqliteName
    | BadNumber(key: string, low: nat, high: Option<nat>)
    | NotBoolean(key: string)
    | UnknownSearchProvider

  const PORT_KEYS: seq<string> := ["PORT", "DATABASE_PORT", "REDIS_PORT"]

  const NON_NEGATIVE_KEYS: seq<string> := [
    "RATE_LIMIT_SHORT_TTL", "RATE_LIMIT_MEDIUM_TTL", "RATE_LIMIT_LONG_TTL", "WEBHOOK_RETRY_DELAY",
    "DATABASE_POOL_SIZE", "DATABASE_STATEMENT_TIMEOUT_MS", "DATABASE_IDLE_TIMEOUT_MS",
    "DATABASE_CONNECTION_TIMEOUT_MS", "REDIS_CONNECT_TIMEOUT_MS", "MAX_CONCURRENT_SESSIONS",
    "INGRESS_INSTANCE_TTL", "WEBHOOK_DISPATCH_MAX_QUEUED", "STATS_CACHE_TTL_MS",
    "WEBHOOK_MAX_PER_SESSION", "WEBHOOK_MEDIA_INLINE_MAX_BYTES"]

  const POSITIVE_KEYS: seq<string> := [
    "RATE_LIMIT_SHORT_LIMIT", "RATE_LIMIT_MEDIUM_LIMIT", "RATE_LIMIT_LONG_LIMIT",
    "WS_RATE_LIMIT_FRAME_PER_SECOND", "WS_RATE_LIMIT_FRAME_BURST", "WS_RATE_LIMIT_HANDSHAKE_MAX",
    "WS_RATE_LIMIT_HANDSHAKE_WINDOW_MS", "WS_MAX_SOCKETS_PER_KEY", "WEBHOOK_TIMEOUT",
    "INGRESS_INSTANCE_LIMIT", REQUEST_TIMEOUT_MS, HEADERS_TIMEOUT_MS, KEEPALIVE_TIMEOUT_MS,
    "WEBHOOK_DISPATCH_CONCURRENCY", "WEBHOOK_MAX_PAYLOAD_BYTES", INFLIGHT_BODY_BUDGET_BYTES]

  const REQUEST_TIMEOUT_MS := "REQUEST_TIMEOUT_MS"
  const HEADERS_TIMEOUT_MS := "HEADERS_TIMEOUT_MS"
  const KEEPALIVE_TIMEOUT_MS := "KEEPALIVE_TIMEOUT_MS"
  const INFLIGHT_BODY_BUDGET_BYTES := "INFLIGHT_BODY_BUDGET_BYTES"

  const BOOLEAN_KEYS: seq<string> := [
    "QUEUE_ENABLED", "MCP_ENABLED", "SERVE_DASHBOARD", "AUTO_START_SESSIONS",
    "STORE_EPHEMERAL_MESSAGES", "RESOLVE_LID_TO_PHONE", "SIMULATE_TYPING", "SEARCH_ENABLED",
    "REDIS_ENABLED", "PLUGIN_DOWNLOAD_ALLOW_INSECURE_REDIRECTS"]

  const POSTGRES_REQUIRED_KEYS: seq<string> := ["DATABASE_HOST", "DATABASE_USERNAME", "DATABASE_PASSWORD"]

  const SEARCH_PROVIDERS: seq<string> := ["auto", "builtin-fts", "none"]

  // ---------------------------------------------------------------- the rules

  /** The trimmed value of a key; None when it is unset or blank. */
  function Str(config: Env, key: string): Option<string> {
    if key in config && Trim(config[key]) != "" then Some(Trim(config[key])) else None
  }

  /** How the configuration reads a value: `env[key] || fallback`, not trimmed. */
  function ReadText(config: Env, key: string, fallback: string): string {
    if key in config && config[key] != "" then config[key] else fallback
  }

  /** The number a knob stands for when it is written in decimal digits only and does not overflow to `Infinity`. */
  function Knob(raw: string): Option<nat> {
    if DecimalInteger(raw) && DigitsValue(raw) < INFINITY_THRESHOLD then Some(DigitsValue(raw)) else None
  }

  predicate NumberWithin(config: Env, key: string, low: nat, high: Option<nat>) {
    Str(config, key).Some? ==>
      var n := Knob(Str(config, key).value);
      n.Some? && low <= n.value && (high.Some? ==> n.value <= high.value)
  }

  predicate OneOf(config: Env, key: string, allowed: seq<string>) {
    Str(config, key).Some? ==> Str(config, key).value in allowed
  }

  /** Read raw, not trimmed: absent, blank, or one of the two literals. */
  predicate BooleanOk(config: Env, key: string) {
    key in config && !Blank(config[key]) ==> config[key] == "true" || config[key] == "false"
  }

  predicate UsesPostgres(config: Env) {
    Str(config, "DATABASE_TYPE") == Some("postgres")
  }

  predicate IsLetter(c: char) {
    'a' <= c <= 'z' || 'A' <= c <= 'Z'
  }

  /** `/^[A-Za-z_][A-Za-z0-9_]{0,62}$/` */
  predicate Identifier(s: string) {
    && 1 <= |s| <= 63
    && (IsLetter(s[0]) || s[0] == '_')
    && forall i :: 1 <= i < |s| ==> IsLetter(s[i]) || IsDigit(s[i]) || s[i] == '_'
  }

  predicate ReservedPrefix(s: string) {
    "pg_" <= LowerCase(s)
  }

  predicate EndsWith(s: string, suffix: string) {
    |suffix| <= |s| && s[|s| - |suffix|..] == suffix
  }

  predicate HasSeparator(s: string) {
    '/' in s || '\\' in s
  }

  predicate HasDatabaseSuffix(s: string) {
    EndsWith(LowerCase(s), ".sqlite") || EndsWith(LowerCase(s), ".db")
  }

  /** A name that has neither a path separator nor a database file suffix. */
  predicate BareName(s: string) {
    !HasSeparator(s) && !HasDatabaseSuffix(s)
  }

  lemma IdentifierGrows(s: string, c: char)
    ensures !Identifier("")
    ensures Identifier([c]) <==> 'a' <= c <= 'z' || 'A' <= c <= 'Z' || c == '_'
    ensures s != "" ==>
              (Identifier(s + [c]) <==>
               Identifier(s) && |s| < 63 && ('a' <= c <= 'z' || 'A' <= c <= 'Z' || '0' <= c <= '9' || c == '_'))
  {
    if s != "" {
      assert (s + [c])[0] == s[0] && (s + [c])[|s|] == c;
      assert forall i :: 1 <= i < |s| ==> (s + [c])[i] == s[i];
    }
  }

  lemma ReservedPrefixIff(s: string)
    ensures ReservedPrefix(s) <==>
            |s| >= 3 && (s[0] == 'p' || s[0] == 'P') && (s[1] == 'g' || s[1] == 'G') && s[2] == '_'
  {
    if |s| >= 3 {
      var l := LowerCase(s);
      assert l[..3] == [l[0], l[1], l[2]];
    }
  }

  ghost predicate EndsInAnyCase(s: string, suffix: string) {
    |suffix| <= |s| && InAnyCase(s[|s| - |suffix|..], suffix)
  }

  lemma SuffixIff(s: string, suffix: string)
    requires forall i :: 0 <= i < |suffix| ==> suffix[i] == '.' || 'a' <= suffix[i] <= 'z'
    ensures EndsWith(LowerCase(s), suffix) <==> EndsInAnyCase(s, suffix)
  {
    if |suffix| <= |s| {
      var k := |s| - |suffix|;
      LowerCaseIff(s[k..], suffix);
      assert LowerCase(s)[k..] == LowerCase(s[k..]);
    }
  }

  /** A bare name has no separator and does not end in one of the suffixes, however these are written. */
  lemma BareNameIff(s: string)
    ensures BareName(s) <==>
            '/' !in s && '\\' !in s && !EndsInAnyCase(s, ".sqlite") && !EndsInAnyCase(s, ".db")
  {
    SuffixIff(s, ".sqlite");
    SuffixIff(s, ".db");
  }

  predicate SearchProviderOk(config: Env) {
    "SEARCH_PROVIDER" in config && config["SEARCH_PROVIDER"] != "" ==> config["SEARCH_PROVIDER"] in SEARCH_PROVIDERS
  }

  /** The numeric knobs and their bounds: ports, knobs that may be 0, knobs that may not. */
  predicate Bounded(key: string, low: nat, high: Option<nat>) {
    || (key in PORT_KEYS && low == 1 && high == Some(65535))
    || (key in NON_NEGATIVE_KEYS && low == 0 && high == None)
    || (key in POSITIVE_KEYS && low == 1 && high == None)
  }

  /** Which errors a configuration deserves. */
  ghost predicate Violates(config: Env, e: EnvError) {
    match e
    case UnknownDatabaseType => !OneOf(config, "DATABASE_TYPE", ["sqlite", "postgres"])
    case UnknownChoice(key) =>
      || (key == "ENGINE_TYPE" && !OneOf(config, key, ["baileys"]))
      || (key == "STORAGE_TYPE" && !OneOf(config, key, ["local", "s3"]))
    case Missing(key) => UsesPostgres(config) && key in POSTGRES_REQUIRED_KEYS && Str(config, key).None?
    case SynchronizeWithPostgres =>
      UsesPostgres(config) && "DATABASE_SYNCHRONIZE" in config && config["DATABASE_SYNCHRONIZE"] == "true"
    case InvalidSchema =>
      UsesPostgres(config) && Str(config, "POSTGRES_SCHEMA").Some? && !Identifier(Str(config, "POSTGRES_SCHEMA").value)
    case ReservedSchema =>
      && UsesPostgres(config) && Str(config, "POSTGRES_SCHEMA").Some?
      && Identifier(Str(config, "POSTGRES_SCHEMA").value) && ReservedPrefix(Str(config, "POSTGRES_SCHEMA").value)
    case BareSqliteName =>
      !UsesPostgres(config) && Str(config, "DATABASE_NAME").Some? && BareName(Str(config, "DATABASE_NAME").value)
    case BadNumber(key, low, high) => Bounded(key, low, high) && !NumberWithin(config, key, low, high)
    case NotBoolean(key) => key in BOOLEAN_KEYS && !BooleanOk(config, key)
    case UnknownSearchProvider => !SearchProviderOk(config)
  }

  ghost predicate Accepted(config: Env) {
    forall e :: !Violates(config, e)
  }

  // ---------------------------------------------------------------- the validator

  /** The three numeric checks: digits only, then the bounds on the number they spell. */
  method CheckNumber(config: Env, key: string, low: nat, high: Option<nat>) returns (ok: bool)
    ensures ok <==> NumberWithin(config, key, low, high)
    ensures var blank := key !in config || Blank(config[key]);
            ok <==> (!blank ==>
                       var raw := Trim(config[key]);
                       && raw != "" && (forall i :: 0 <= i < |raw| ==> '0' <= raw[i] <= '9')
                       && low <= DigitsValue(raw) < INFINITY_THRESHOLD
                       && (high.Some? ==> DigitsValue(raw) <= high.value))
  {
    var raw := Str(config, key);
    if raw.None? {
      return true;
    }
    if DecimalInteger(raw.value) {
      NumberOfDigits(raw.value);
    }
    var n := if DecimalInteger(raw.value) then Number(raw.value) else None;
    ok := n.Some? && n.value.IsInteger() && low <= n.value.Floor()
          && (high.None? || n.value.Floor() <= high.value);
  }

  /** One list of numeric knobs with common bounds. */
  method CheckRange(config: Env, keys: seq<string>, low: nat, high: Option<nat>) returns (errors: seq<EnvError>)
    ensures forall e :: e in errors <==>
                          e.BadNumber? && e.low == low && e.high == high && e.key in keys
                          && !NumberWithin(config, e.key, low, high)
  {
    errors := [];
    for i := 0 to |keys|
      invariant forall e :: e in errors <==>
                              e.BadNumber? && e.low == low && e.high == high && e.key in keys[..i]
                              && !NumberWithin(config, e.key, low, high)
    {
      var ok := CheckNumber(config, keys[i], low, high);
      assert keys[..i + 1] == keys[..i] + [keys[i]];
      if !ok {
        errors := errors + [BadNumber(keys[i], low, high)];
      }
    }
    assert keys[..|keys|] == keys;
  }

  method CheckBools(config: Env, keys: seq<string>) returns (errors: seq<EnvError>)
    ensures forall e :: e in errors <==> e.NotBoolean? && e.key in keys && !BooleanOk(config, e.key)
  {
    errors := [];
    for i := 0 to |keys|
      invariant forall e :: e in errors <==> e.NotBoolean? && e.key in keys[..i] && !BooleanOk(config, e.key)
    {
      assert keys[..i + 1] == keys[..i] + [keys[i]];
      if keys[i] in config && Trim(config[keys[i]]) != "" {
        if config[keys[i]] != "true" && config[keys[i]] != "false" {
          errors := errors + [NotBoolean(keys[i])];
        }
      }
    }
    assert keys[..|keys|] == keys;
  }

  /** The rules that hold only for one of the two databases. */
  method CheckDatabase(config: Env) returns (errors: seq<EnvError>)
    ensures forall e :: e in errors <==>
                          && Violates(config, e)
                          && (e.Missing? || e.SynchronizeWithPostgres? || e.InvalidSchema?
                              || e.ReservedSchema? || e.BareSqliteName?)
  {
    errors := [];
    if Str(config, "DATABASE_TYPE") == Some("postgres") {
      var keys := POSTGRES_REQUIRED_KEYS;
      for i := 0 to |keys|
        invariant forall e :: e in errors <==> e.Missing? && e.key in keys[..i] && Str(config, e.key).None?
      {
        assert keys[..i + 1] == keys[..i] + [keys[i]];
        if Str(config, keys[i]).None? {
          errors := errors + [Missing(keys[i])];
        }
      }
      assert keys[..|keys|] == keys;
      if "DATABASE_SYNCHRONIZE" in config && config["DATABASE_SYNCHRONIZE"] == "true" {
        errors := errors + [SynchronizeWithPostgres];
      }
      var schema := Str(config, "POSTGRES_SCHEMA");
      if schema.Some? {
        if !Identifier(schema.value) {
          errors := errors + [InvalidSchema];
        } else if ReservedPrefix(schema.value) {
          errors := errors + [ReservedSchema];
        }
      }
    } else {
      var name := Str(config, "DATABASE_NAME");
      if name.Some? && BareName(name.value) {
        errors := [BareSqliteName];
      }
    }
  }

  /** The enumerated choices. */
  method CheckChoices(config: Env) returns (errors: seq<EnvError>)
    ensures forall e :: e in errors <==>
                          && Violates(config, e)
                          && (e.UnknownDatabaseType? || e.UnknownChoice? || e.UnknownSearchProvider?)
  {
    errors := [];
    var dbType := Str(config, "DATABASE_TYPE");
    if dbType.Some? && dbType.value != "sqlite" && dbType.value != "postgres" {
      errors := errors + [UnknownDatabaseType];
    }
    var engine := Str(config, "ENGINE_TYPE");
    if engine.Some? && engine.value != "baileys" {
      errors := errors + [UnknownChoice("ENGINE_TYPE")];
    }
    var storage := Str(config, "STORAGE_TYPE");
    if storage.Some? && storage.value != "local" && storage.value != "s3" {
      errors := errors + [UnknownChoice("STORAGE_TYPE")];
    }
    if "SEARCH_PROVIDER" in config && config["SEARCH_PROVIDER"] != "" {
      var provider := config["SEARCH_PROVIDER"];
      if provider != "auto" && provider != "builtin-fts" && provider != "none" {
        errors := errors + [UnknownSearchProvider];
      }
    }
  }

  /** The three lists of numeric knobs. */
  method CheckNumbers(config: Env) returns (errors: seq<EnvError>)
    ensures forall e :: e in errors <==> Violates(config, e) && e.BadNumber?
  {
    var ports := CheckRange(config, PORT_KEYS, 1, Some(65535));
    var nonNegative := CheckRange(config, NON_NEGATIVE_KEYS, 0, None);
    var positive := CheckRange(config, POSITIVE_KEYS, 1, None);
    errors := ports + nonNegative + positive;
  }

  /** Validation reports an error exactly where a rule is violated; the boot goes on iff there is none. */
  method ValidateEnv(config: Env) returns (errors: seq<EnvError>)
    ensures forall e :: e in errors <==> Violates(config, e)
    ensures errors == [] <==> Accepted(config)
  {
    var choices := CheckChoices(config);
    var database := CheckDatabase(config);
    var numbers := CheckNumbers(config);
    var booleans := CheckBools(config, BOOLEAN_KEYS);
    errors := choices + database + numbers + booleans;
    if errors != [] {
      assert errors[0] in errors;
    }
  }
}
