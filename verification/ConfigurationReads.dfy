/**
  All numbers that the configuration reads with `parseInt(env[key] || default, 10)`, and the flags
  that are compared with a literal: validation covers every one of them, with the right bound.
 */
module ConfigurationReads {
  import opened Options
  import opened Text
  import opened Numerals
  import opened EnvValidation
  import opened HttpTimeouts

  // ---------------------------------------------------------------- readers with a default

  /** A variable and its default. */
  type Read = (string, string)

  const PORT_READS: seq<Read> := [("PORT", "2785"), ("DATABASE_PORT", "5432"), ("REDIS_PORT", "6379")]

  /** Numbers for which 0 has a meaning of its own. */
  const NON_NEGATIVE_READS: seq<Read> := [
    ("STATS_CACHE_TTL_MS", "30000"), ("REDIS_CONNECT_TIMEOUT_MS", "5000"), ("DATABASE_POOL_SIZE", "10"),
    ("DATABASE_STATEMENT_TIMEOUT_MS", "30000"), ("DATABASE_IDLE_TIMEOUT_MS", "30000"),
    ("DATABASE_CONNECTION_TIMEOUT_MS", "10000"), ("MAX_CONCURRENT_SESSIONS", "0"), ("WEBHOOK_RETRY_DELAY", "5000"),
    ("WEBHOOK_DISPATCH_MAX_QUEUED", "1000"), ("RATE_LIMIT_SHORT_TTL", "1000"), ("RATE_LIMIT_MEDIUM_TTL", "60000"),
    ("RATE_LIMIT_LONG_TTL", "3600000")]

  /** Numbers that would switch a limit or a timeout off, or a service, if they were 0. */
  const POSITIVE_READS: seq<Read> := [
    ("REQUEST_TIMEOUT_MS", "300000"), ("HEADERS_TIMEOUT_MS", "65000"), ("KEEPALIVE_TIMEOUT_MS", "5000"),
    ("WEBHOOK_TIMEOUT", "10000"), ("WEBHOOK_DISPATCH_CONCURRENCY", "16"), ("RATE_LIMIT_SHORT_LIMIT", "10"),
    ("RATE_LIMIT_MEDIUM_LIMIT", "100"), ("RATE_LIMIT_LONG_LIMIT", "1000")]

  lemma PortReadsAreBounded(r: Read)
    requires r in PORT_READS
    ensures r.0 in PORT_KEYS && DecimalInteger(r.1)
  {
  }

  lemma NonNegativeReadsAreBounded(r: Read)
    requires r in NON_NEGATIVE_READS
    ensures r.0 in NON_NEGATIVE_KEYS && DecimalInteger(r.1)
  {
  }

  lemma PositiveReadsAreBounded(r: Read)
    requires r in POSITIVE_READS
    ensures r.0 in POSITIVE_KEYS && DecimalInteger(r.1)
  {
  }

  /** What a validated read yields: the number written, within its bounds, or the default; NaN for white space only. */
  ghost predicate ReadIsSound(env: Env, r: Read, low: nat, high: Option<nat>)
    requires DecimalInteger(r.1)
  {
    var got := ReadInt(env, r.0, r.1);
    if r.0 !in env || env[r.0] == "" then got == Num(DigitsValue(r.1) as real)
    else if AllSpace(env[r.0]) then got == NaN
    else
      var raw := Trim(env[r.0]);
      && DecimalInteger(raw) && got == Num(DigitsValue(raw) as real)
      && low <= DigitsValue(raw) && (high.Some? ==> DigitsValue(raw) <= high.value)
  }

  lemma BoundedReadIsSound(env: Env, r: Read, low: nat, high: Option<nat>)
    requires NumberWithin(env, r.0, low, high) && DecimalInteger(r.1)
    ensures ReadIsSound(env, r, low, high)
  {
    ReadEqualsValidated(env, r.0, low, high, r.1);
    if r.0 in env {
      BlankIffAllSpace(env[r.0]);
    }
  }

  /** Every number of the configuration is validated: no accepted environment makes one of them anything else. */
  lemma EveryReadIsValidated(env: Env, r: Read)
    requires Accepted(env)
    ensures r in PORT_READS ==> DecimalInteger(r.1) && ReadIsSound(env, r, 1, Some(65535))
    ensures r in NON_NEGATIVE_READS ==> DecimalInteger(r.1) && ReadIsSound(env, r, 0, None)
    ensures r in POSITIVE_READS ==> DecimalInteger(r.1) && ReadIsSound(env, r, 1, None)
  {
    if r in PORT_READS {
      PortReadsAreBounded(r);
      assert !Violates(env, BadNumber(r.0, 1, Some(65535)));
      BoundedReadIsSound(env, r, 1, Some(65535));
    }
    if r in NON_NEGATIVE_READS {
      NonNegativeReadsAreBounded(r);
      assert !Violates(env, BadNumber(r.0, 0, None));
      BoundedReadIsSound(env, r, 0, None);
    }
    if r in POSITIVE_READS {
      PositiveReadsAreBounded(r);
      assert !Violates(env, BadNumber(r.0, 1, None));
      BoundedReadIsSound(env, r, 1, None);
    }
  }

  // ---------------------------------------------------------------- readers with a guard

  /** The number an accepted value writes, or the fallback when the key is unset or blank. */
  function Written(env: Env, key: string, fallback: nat): nat {
    if key !in env || Blank(env[key]) || !DecimalInteger(Trim(env[key])) then fallback else DigitsValue(Trim(env[key]))
  }

  /** `parseInt(env[key] ?? '', 10)`, replaced by the fallback when it is not a number or below `low`. */
  function GuardedInt(env: Env, key: string, low: nat, fallback: nat): int {
    match ParseInt(if key in env then env[key] else "")
    case None => fallback
    case Some(n) => if n >= low then n else fallback
  }

  /** `resolveNonNegativeIntEnv`: decimal digits only, everything else is the fallback. */
  function ResolveNonNegativeInt(env: Env, key: string, fallback: nat): int {
    if key !in env || !DecimalInteger(Trim(env[key])) then fallback
    else
      match Number(Trim(env[key]))
      case None => fallback
      case Some(d) => d.Floor()
  }

  /** `parsePositiveInt` of the socket limits: any finite number of at least 1, rounded down. */
  function ParsePositiveInt(env: Env, key: string, fallback: nat): int {
    if key !in env || Blank(env[key]) then fallback
    else
      match Number(env[key])
      case None => fallback
      case Some(d) => if 1 <= d.Floor() < INFINITY_THRESHOLD then d.Floor() else fallback
  }

  const GUARDED_KEYS: seq<string> := [
    "WEBHOOK_MAX_PAYLOAD_BYTES", "WEBHOOK_MAX_PER_SESSION", "WEBHOOK_MEDIA_INLINE_MAX_BYTES"]
  const INGRESS_KEYS: seq<string> := ["INGRESS_INSTANCE_LIMIT", "INGRESS_INSTANCE_TTL"]
  const SOCKET_KEYS: seq<string> := [
    "WS_RATE_LIMIT_FRAME_PER_SECOND", "WS_RATE_LIMIT_FRAME_BURST", "WS_RATE_LIMIT_HANDSHAKE_MAX",
    "WS_RATE_LIMIT_HANDSHAKE_WINDOW_MS", "WS_MAX_SOCKETS_PER_KEY"]

  lemma NumberOfPadded(s: string)
    requires DecimalInteger(Trim(s))
    ensures Number(s) == Some(Decimal(DigitsValue(Trim(s)), 0))
  {
    NumberOfDigits(Trim(s));
    DigitsAreTrimmed(Trim(s));
  }

  /** On values within bounds the three readers, which differ on others, read the number that is written. */
  lemma GuardedReadersAgree(env: Env, key: string, low: nat, fallback: nat)
    requires NumberWithin(env, key, low, None)
    ensures GuardedInt(env, key, low, fallback) == Written(env, key, fallback)
    ensures ResolveNonNegativeInt(env, key, fallback) == Written(env, key, fallback)
    ensures low >= 1 ==> ParsePositiveInt(env, key, fallback) == Written(env, key, fallback)
  {
    if key in env && !Blank(env[key]) {
      ParseIntOfDigits(env[key]);
      NumberOfPadded(env[key]);
      NumberOfDigits(Trim(env[key]));
      WholeDecimal(DigitsValue(Trim(env[key])));
    } else if key in env {
      ParseIntOfBlank(env[key]);
    } else {
      TrimOfTrimmed("");
      ParseIntOfBlank("");
    }
  }

  lemma GuardedKeysAreBounded(key: string)
    ensures key in GUARDED_KEYS + INGRESS_KEYS ==> key in POSITIVE_KEYS || key in NON_NEGATIVE_KEYS
    ensures key in SOCKET_KEYS ==> key in POSITIVE_KEYS
    ensures key == "WEBHOOK_MAX_PAYLOAD_BYTES" || key == "INGRESS_INSTANCE_LIMIT" ==> key in POSITIVE_KEYS
  {
  }

  /**
    The remaining numeric variables: on every accepted environment their readers yield the number
    that is written or the fallback, for white space only as well, and the bounds hold.
   */
  lemma GuardedReadsAreExact(env: Env, key: string, fallback: nat)
    requires Accepted(env)
    ensures key == "WEBHOOK_MAX_PAYLOAD_BYTES" ==> GuardedInt(env, key, 1, fallback) == Written(env, key, fallback)
    ensures key in GUARDED_KEYS ==> GuardedInt(env, key, 0, fallback) == Written(env, key, fallback)
    ensures key in INGRESS_KEYS ==> ResolveNonNegativeInt(env, key, fallback) == Written(env, key, fallback)
    ensures key in SOCKET_KEYS ==> ParsePositiveInt(env, key, fallback) == Written(env, key, fallback)
    ensures key in SOCKET_KEYS || key == "WEBHOOK_MAX_PAYLOAD_BYTES" || key == "INGRESS_INSTANCE_LIMIT" ==>
              (fallback >= 1 ==> Written(env, key, fallback) >= 1)
  {
    GuardedKeysAreBounded(key);
    if key in POSITIVE_KEYS {
      assert !Violates(env, BadNumber(key, 1, None));
      GuardedReadersAgree(env, key, 1, fallback);
      GuardedReadersAgree(env, key, 0, fallback);
    } else if key in NON_NEGATIVE_KEYS {
      assert !Violates(env, BadNumber(key, 0, None));
      GuardedReadersAgree(env, key, 0, fallback);
    }
  }

  // ---------------------------------------------------------------- flags

  const FLAG_READS: seq<string> := [
    "QUEUE_ENABLED", "MCP_ENABLED", "SERVE_DASHBOARD", "AUTO_START_SESSIONS", "STORE_EPHEMERAL_MESSAGES",
    "RESOLVE_LID_TO_PHONE", "SIMULATE_TYPING", "SEARCH_ENABLED", "REDIS_ENABLED",
    "PLUGIN_DOWNLOAD_ALLOW_INSECURE_REDIRECTS"]

  /**
    A flag that an accepted environment sets to more than white space means the same to a reader
    that asks for "true" and to one that asks for anything but "false".
   */
  lemma FlagReadsAgree(env: Env, key: string)
    requires Accepted(env) && key in FLAG_READS
    requires key in env && !AllSpace(env[key])
    ensures env[key] == "true" <==> env[key] != "false"
  {
    assert !Violates(env, NotBoolean(key));
    BlankIffAllSpace(env[key]);
  }
}
