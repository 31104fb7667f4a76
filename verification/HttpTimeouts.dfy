/**
  From the validated environment to the timeouts the server runs with: the configuration reads
  each value with `parseInt(value || default, 10)`, and the applicator writes three fields of the
  server. JavaScript's not-a-number is kept as a value of its own.
 */
module HttpTimeouts {
  import opened Options
  import opened Text
  import opened Numerals
  import opened EnvValidation
  import BodyLimits

  // ---------------------------------------------------------------- numbers with NaN

  datatype JsNumber = NaN | Num(value: real) {
    function Floor(): JsNumber {
      match this
      case NaN => NaN
      case Num(v) => Num(v.Floor as real)
    }

    predicate Greater(other: JsNumber) {
      Num? && other.Num? && value > other.value
    }

    function Plus(n: int): JsNumber {
      match this
      case NaN => NaN
      case Num(v) => Num(v + n as real)
    }
  }

  // ---------------------------------------------------------------- the applicator

  datatype HttpTimeoutConfig = HttpTimeoutConfig(
    requestTimeoutMs: JsNumber, headersTimeoutMs: JsNumber, keepAliveTimeoutMs: JsNumber)

  class HttpTimeoutSink {
    var requestTimeout: JsNumber
    var headersTimeout: JsNumber
    var keepAliveTimeout: JsNumber

    constructor () {
      requestTimeout, headersTimeout, keepAliveTimeout := Num(0.0), Num(0.0), Num(0.0);
    }

    /** What the server is set to. */
    function Settings(): HttpTimeoutConfig
      reads this
    {
      HttpTimeoutConfig(requestTimeout, headersTimeout, keepAliveTimeout)
    }
  }

  function Resolved(cfg: HttpTimeoutConfig): HttpTimeoutConfig {
    var keepAlive := cfg.keepAliveTimeoutMs.Floor();
    var headers := cfg.headersTimeoutMs.Floor();
    HttpTimeoutConfig(cfg.requestTimeoutMs.Floor(),
                      if headers.Greater(keepAlive) then headers else keepAlive.Plus(1000),
                      keepAlive)
  }

  method ApplyHttpTimeouts(server: HttpTimeoutSink, cfg: HttpTimeoutConfig) returns (report: HttpTimeoutConfig)
    modifies server
    ensures report == server.Settings() == Resolved(cfg)
  {
    var requestTimeoutMs := cfg.requestTimeoutMs.Floor();
    var keepAliveTimeoutMs := cfg.keepAliveTimeoutMs.Floor();
    var requestedHeadersMs := cfg.headersTimeoutMs.Floor();
    var headersTimeoutMs :=
      if requestedHeadersMs.Greater(keepAliveTimeoutMs) then requestedHeadersMs else keepAliveTimeoutMs.Plus(1000);

    server.requestTimeout := requestTimeoutMs;
    server.headersTimeout := headersTimeoutMs;
    server.keepAliveTimeout := keepAliveTimeoutMs;

    report := HttpTimeoutConfig(requestTimeoutMs, headersTimeoutMs, keepAliveTimeoutMs);
  }

  // ---------------------------------------------------------------- the configuration reads

  /** `parseInt(env[key] || fallback, 10)` */
  function ReadInt(env: Env, key: string, fallback: string): JsNumber {
    match ParseInt(ReadText(env, key, fallback))
    case None => NaN
    case Some(n) => Num(n as real)
  }

  function ReadHttpConfig(env: Env): HttpTimeoutConfig {
    HttpTimeoutConfig(ReadInt(env, REQUEST_TIMEOUT_MS, "300000"),
                      ReadInt(env, HEADERS_TIMEOUT_MS, "65000"),
                      ReadInt(env, KEEPALIVE_TIMEOUT_MS, "5000"))
  }

  /** Present, not empty, and nothing but white space: unset for the validator, but not for `||`. */
  predicate BlankButSet(env: Env, key: string) {
    key in env && env[key] != "" && Blank(env[key])
  }

  /** What an accepted value means: the decimal number written, or the default when it is unset or empty. */
  function Meant(env: Env, key: string, fallback: nat): nat {
    if Str(env, key).Some? && DecimalInteger(Str(env, key).value) then DigitsValue(Str(env, key).value) else fallback
  }

  /**
    A value that passed validation is read back as the number the validator saw, or as the default
    when it is unset or empty, except when it is white space only, which reads as NaN. This holds
    for every key the validator checks as a number, whatever its bounds and default.
   */
  lemma ReadEqualsValidated(env: Env, key: string, low: nat, high: Option<nat>, fallback: string)
    requires NumberWithin(env, key, low, high) && DecimalInteger(fallback)
    ensures ReadInt(env, key, fallback) ==
            if BlankButSet(env, key) then NaN else Num(Meant(env, key, DigitsValue(fallback)) as real)
  {
    if key in env && env[key] != "" {
      if Blank(env[key]) {
        ParseIntOfBlank(env[key]);
      } else {
        ParseIntOfDigits(env[key]);
      }
    } else {
      DigitsAreTrimmed(fallback);
      ParseIntOfDigits(fallback);
      if key in env {
        TrimOfTrimmed("");
      }
    }
  }

  lemma AppendZeros(s: string)
    requires DecimalInteger(s)
    ensures DecimalInteger(s + "000") && DigitsValue(s + "000") == 1000 * DigitsValue(s)
  {
    assert (s + "000")[..|s| + 2] == s + "00" && (s + "00")[..|s| + 1] == s + "0" && (s + "0")[..|s|] == s;
    assert DigitsValue(s + "0") == 10 * DigitsValue(s);
    assert DigitsValue(s + "00") == 10 * DigitsValue(s + "0");
  }

  lemma KeepAliveDefault()
    ensures DecimalInteger("5000") && DigitsValue("5000") == 5000
  {
    AppendZeros("5");
    assert "5000" == "5" + "000" && "5"[..0] == "";
  }

  lemma HeadersDefault()
    ensures DecimalInteger("65000") && DigitsValue("65000") == 65000
  {
    AppendZeros("65");
    assert "65000" == "65" + "000" && "65"[..1] == "6" && "6"[..0] == "";
    assert DigitsValue("6") == 6;
  }

  lemma RequestDefault()
    ensures DecimalInteger("300000") && DigitsValue("300000") == 300000
  {
    AppendZeros("300");
    assert "300000" == "300" + "000" && "300"[..2] == "30" && "30"[..1] == "3" && "3"[..0] == "";
    assert DigitsValue("3") == 3 && DigitsValue("30") == 30;
  }

  lemma AcceptedIsPositive(env: Env, key: string)
    requires Accepted(env) && key in POSITIVE_KEYS
    ensures NumberWithin(env, key, 1, None)
  {
    assert !Violates(env, BadNumber(key, 1, None));
  }

  lemma TimeoutKeysArePositive()
    ensures REQUEST_TIMEOUT_MS in POSITIVE_KEYS && HEADERS_TIMEOUT_MS in POSITIVE_KEYS
    ensures KEEPALIVE_TIMEOUT_MS in POSITIVE_KEYS
  {
    assert POSITIVE_KEYS[10..13] == [REQUEST_TIMEOUT_MS, HEADERS_TIMEOUT_MS, KEEPALIVE_TIMEOUT_MS];
  }

  lemma ReadIsMeant(env: Env, key: string, fallback: string)
    requires Accepted(env) && key in POSITIVE_KEYS && DecimalInteger(fallback)
    ensures var n := Meant(env, key, DigitsValue(fallback));
            && ReadInt(env, key, fallback) == (if BlankButSet(env, key) then NaN else Num(n as real))
            && (DigitsValue(fallback) > 0 ==> n > 0)
  {
    AcceptedIsPositive(env, key);
    ReadEqualsValidated(env, key, 1, None, fallback);
  }

  lemma ReadsAreMeant(env: Env)
    requires Accepted(env)
    ensures var cfg := ReadHttpConfig(env);
            var request, headers, keepAlive :=
              Meant(env, REQUEST_TIMEOUT_MS, 300000), Meant(env, HEADERS_TIMEOUT_MS, 65000),
              Meant(env, KEEPALIVE_TIMEOUT_MS, 5000);
            && cfg.requestTimeoutMs == (if BlankButSet(env, REQUEST_TIMEOUT_MS) then NaN else Num(request as real))
            && cfg.headersTimeoutMs == (if BlankButSet(env, HEADERS_TIMEOUT_MS) then NaN else Num(headers as real))
            && cfg.keepAliveTimeoutMs == (
                 if BlankButSet(env, KEEPALIVE_TIMEOUT_MS) then NaN else Num(keepAlive as real))
            && request > 0 && headers > 0 && keepAlive > 0
  {
    RequestDefault();
    HeadersDefault();
    KeepAliveDefault();
    TimeoutKeysArePositive();
    ReadIsMeant(env, REQUEST_TIMEOUT_MS, "300000");
    ReadIsMeant(env, HEADERS_TIMEOUT_MS, "65000");
    ReadIsMeant(env, KEEPALIVE_TIMEOUT_MS, "5000");
  }

  /** Rounding down leaves whole numbers alone. */
  lemma FloorOfWhole(x: JsNumber, n: int)
    requires x.Num? ==> x.value == n as real
    ensures x.Floor() == x
  {
  }

  /** The applicator on whole numbers and NaN. */
  lemma ResolvedOfWhole(cfg: HttpTimeoutConfig, request: int, headers: int, keepAlive: int)
    requires cfg.requestTimeoutMs.Num? ==> cfg.requestTimeoutMs.value == request as real
    requires cfg.headersTimeoutMs.Num? ==> cfg.headersTimeoutMs.value == headers as real
    requires cfg.keepAliveTimeoutMs.Num? ==> cfg.keepAliveTimeoutMs.value == keepAlive as real
    ensures Resolved(cfg).requestTimeoutMs == cfg.requestTimeoutMs
    ensures Resolved(cfg).keepAliveTimeoutMs == cfg.keepAliveTimeoutMs
    ensures Resolved(cfg).headersTimeoutMs ==
            if cfg.keepAliveTimeoutMs.NaN? then NaN
            else if cfg.headersTimeoutMs.Num? && headers > keepAlive then Num(headers as real)
            else Num((keepAlive + 1000) as real)
  {
    FloorOfWhole(cfg.requestTimeoutMs, request);
    FloorOfWhole(cfg.headersTimeoutMs, headers);
    FloorOfWhole(cfg.keepAliveTimeoutMs, keepAlive);
  }

  /**
    Validated equals applied, over every accepted environment. The request and keep-alive timeouts
    the server runs with are the numbers written (or the defaults), and not-a-number exactly for a
    value of white space only. The headers timeout is the number written when that exceeds the
    keep-alive, and a second above the keep-alive otherwise, a white-space value included; it is
    lost only together with the keep-alive.
   */
  lemma ValidatedEqualsApplied(env: Env)
    requires Accepted(env)
    ensures var applied := Resolved(ReadHttpConfig(env));
            var request, headers, keepAlive :=
              Meant(env, REQUEST_TIMEOUT_MS, 300000), Meant(env, HEADERS_TIMEOUT_MS, 65000),
              Meant(env, KEEPALIVE_TIMEOUT_MS, 5000);
            && applied.requestTimeoutMs == (if BlankButSet(env, REQUEST_TIMEOUT_MS) then NaN else Num(request as real))
            && applied.keepAliveTimeoutMs == (
                 if BlankButSet(env, KEEPALIVE_TIMEOUT_MS) then NaN else Num(keepAlive as real))
            && applied.headersTimeoutMs == (
                 if BlankButSet(env, KEEPALIVE_TIMEOUT_MS) then NaN
                 else if !BlankButSet(env, HEADERS_TIMEOUT_MS) && headers > keepAlive then Num(headers as real)
                 else Num((keepAlive + 1000) as real))
            && request > 0 && headers > 0 && keepAlive > 0
  {
    ReadsAreMeant(env);
    ResolvedOfWhole(ReadHttpConfig(env), Meant(env, REQUEST_TIMEOUT_MS, 300000),
                    Meant(env, HEADERS_TIMEOUT_MS, 65000), Meant(env, KEEPALIVE_TIMEOUT_MS, 5000));
  }

  /** The server ends up with three positive timeouts, headers above keep-alive, unless a value is white space only. */
  lemma AppliedTimeoutsAreSound(env: Env)
    requires Accepted(env)
    ensures var applied := Resolved(ReadHttpConfig(env));
            (&& applied.requestTimeoutMs.Greater(Num(0.0))
             && applied.keepAliveTimeoutMs.Greater(Num(0.0))
             && applied.headersTimeoutMs.Greater(applied.keepAliveTimeoutMs))
            <==> !BlankButSet(env, REQUEST_TIMEOUT_MS) && !BlankButSet(env, KEEPALIVE_TIMEOUT_MS)
  {
    ValidatedEqualsApplied(env);
  }

  /** Such a value is accepted and does disable the bound: REQUEST_TIMEOUT_MS set to one space. */
  lemma BlankTimeoutIsAccepted()
    ensures var env := map[REQUEST_TIMEOUT_MS := " "];
            Accepted(env) && Resolved(ReadHttpConfig(env)).requestTimeoutMs == NaN
  {
    var env := map[REQUEST_TIMEOUT_MS := " "];
    BlankIffAllSpace(" ");
    assert forall key :: Str(env, key).None?;
    ValidatedEqualsApplied(env);
  }

  /** Applying the report again changes nothing, and the headers timeout always clears a real keep-alive. */
  lemma ResolvedIsStable(cfg: HttpTimeoutConfig)
    ensures Resolved(Resolved(cfg)) == Resolved(cfg)
    ensures cfg.keepAliveTimeoutMs.Num? ==> Resolved(cfg).headersTimeoutMs.Greater(Resolved(cfg).keepAliveTimeoutMs)
  {
    var floor := (x: JsNumber) => if x.Num? then x.value.Floor else 0;
    var request, headers, keepAlive :=
      floor(cfg.requestTimeoutMs), floor(cfg.headersTimeoutMs), floor(cfg.keepAliveTimeoutMs);
    var whole := HttpTimeoutConfig(
      cfg.requestTimeoutMs.Floor(), cfg.headersTimeoutMs.Floor(), cfg.keepAliveTimeoutMs.Floor());
    ResolvedOfWhole(whole, request, headers, keepAlive);
    FloorOfWhole(whole.requestTimeoutMs, request);
    FloorOfWhole(whole.headersTimeoutMs, headers);
    FloorOfWhole(whole.keepAliveTimeoutMs, keepAlive);
    assert Resolved(whole) == Resolved(cfg);
    var appliedHeaders := if whole.headersTimeoutMs.Num? && headers > keepAlive then headers else keepAlive + 1000;
    ResolvedOfWhole(Resolved(cfg), request, appliedHeaders, keepAlive);
  }

  lemma ExplicitDigits(raw: string)
    requires DecimalInteger(Trim(raw)) && 0 < DigitsValue(Trim(raw)) < INFINITY_THRESHOLD
    ensures BodyLimits.ExplicitBudget(Some(raw)) == Some(DigitsValue(Trim(raw)))
  {
    NumberOfDigits(Trim(raw));
    WholeDecimal(DigitsValue(Trim(raw)));
  }

  /** An accepted explicit in-flight budget is exactly the number written; unset or blank, it is four body limits. */
  lemma AcceptedBudgetIsUsed(env: Env, limit: Option<string>)
    requires Accepted(env)
    ensures var raw := if INFLIGHT_BODY_BUDGET_BYTES in env then Some(env[INFLIGHT_BODY_BUDGET_BYTES]) else None;
            BodyLimits.ResolveInflightBodyBudgetBytes(raw, limit) ==
            match Str(env, INFLIGHT_BODY_BUDGET_BYTES)
            case Some(digits) => Meant(env, INFLIGHT_BODY_BUDGET_BYTES, 0)
            case None => 4 * BodyLimits.ParseBodyLimitBytes(BodyLimits.ResolveBodyLimit(limit))
  {
    AcceptedIsPositive(env, INFLIGHT_BODY_BUDGET_BYTES);
    if Str(env, INFLIGHT_BODY_BUDGET_BYTES).Some? {
      ExplicitDigits(env[INFLIGHT_BODY_BUDGET_BYTES]);
    }
  }
}
