/**
  Layered environment loading: host variables over `.env` over the generated file. The code edits
  one environment in place (clear blanks, record the keys, merge twice without overriding); what
  comes out is proved to be one precedence rule per key, the same for the application and for the
  migration command line. A file is the key/value map it holds.
 */
module EnvLayers {
  import opened Options
  import opened Text

  type Env = map<string, string>

  const BLANK_SHADOWED_ENV_KEYS: seq<string> := [
    "ENGINE_TYPE", "DATABASE_TYPE", "DATABASE_HOST", "DATABASE_PORT", "DATABASE_USERNAME",
    "DATABASE_NAME", "DATABASE_PASSWORD", "POSTGRES_SCHEMA", "STORAGE_TYPE", "STORAGE_LOCAL_PATH",
    "S3_BUCKET", "S3_ENDPOINT", "S3_REGION", "S3_ACCESS_KEY_ID", "S3_SECRET_ACCESS_KEY",
    "S3_ACCESS_KEY", "S3_SECRET_KEY", "REDIS_ENABLED", "REDIS_HOST", "REDIS_PORT",
    "RATE_LIMIT_SHORT_TTL", "RATE_LIMIT_SHORT_LIMIT", "RATE_LIMIT_MEDIUM_TTL",
    "RATE_LIMIT_MEDIUM_LIMIT", "RATE_LIMIT_LONG_TTL", "RATE_LIMIT_LONG_LIMIT",
    "AUTO_START_SESSIONS", "BODY_SIZE_LIMIT", "API_MASTER_KEY", "TRUSTED_PROXIES",
    "CSP_UPGRADE_INSECURE_REQUESTS"]

  function Lookup(env: Env, key: string): Option<string> {
    if key in env then Some(env[key]) else None
  }

  function Layer(file: Option<Env>): Env {
    if file.Some? then file.value else map[]
  }

  // ---------------------------------------------------------------- the steps

  predicate IsListedBlank(env: Env, keys: seq<string>, key: string)
    requires key in env
  {
    key in keys && Blank(env[key])
  }

  /** The environment without its blank values among `keys`. */
  function Cleared(env: Env, keys: seq<string>): Env {
    map k | k in env && !IsListedBlank(env, keys, k) :: env[k]
  }

  /** dotenv's merge with `override: false`: keys already present are kept. */
  function MergeKeep(env: Env, file: Env): Env {
    file + env
  }

  /** What the generated file says on the first run, whatever the environment holds. */
  const FIXED: Env := map[
    "DATABASE_TYPE" := "postgres", "DATABASE_SYNCHRONIZE" := "false", "ENGINE_TYPE" := "baileys",
    "REDIS_ENABLED" := "false", "REDIS_BUILTIN" := "false", "QUEUE_ENABLED" := "false",
    "STORAGE_TYPE" := "local", "MINIO_BUILTIN" := "false", "STORAGE_LOCAL_PATH" := "./data/media"]

  /** Flags: the one literal that is kept, and what everything else becomes. */
  const FLAGS: map<string, (string, string)> := map[
    "POSTGRES_BUILTIN" := ("true", "false"), "DATABASE_SSL" := ("true", "false"),
    "DATABASE_SSL_REJECT_UNAUTHORIZED" := ("false", "true"), "DATABASE_LOGGING" := ("true", "false")]

  /** Values that are persisted, with the fallback for an unset or empty one. */
  const PERSISTED: Env := map[
    "DATABASE_HOST" := "localhost", "DATABASE_PORT" := "5432", "DATABASE_USERNAME" := "smartConfirm",
    "DATABASE_PASSWORD" := "", "DATABASE_NAME" := "smartConfirm", "POSTGRES_SCHEMA" := "public",
    "DATABASE_POOL_SIZE" := "10", "DATABASE_CONNECTION_TIMEOUT_MS" := "10000",
    "DATABASE_IDLE_TIMEOUT_MS" := "30000", "DATABASE_STATEMENT_TIMEOUT_MS" := "30000",
    "BAILEYS_AUTH_DIR" := "./data/baileys"]

  /** The line written for `key` when the environment holds `current` for it. */
  function GeneratedValue(key: string, current: Option<string>): Option<string> {
    if key in PERSISTED then
      Some(if current.Some? && current.value != "" then current.value else PERSISTED[key])
    else if key in FLAGS then Some(if current == Some(FLAGS[key].0) then FLAGS[key].0 else FLAGS[key].1)
    else Lookup(FIXED, key)
  }

  function MinimalConfig(env: Env): Env {
    map k | k in FIXED.Keys + FLAGS.Keys + PERSISTED.Keys :: GeneratedValue(k, Lookup(env, k)).value
  }

  // ---------------------------------------------------------------- the loaders

  function AfterUserLayer(host: Env, user: Option<Env>): Env {
    MergeKeep(Cleared(host, BLANK_SHADOWED_ENV_KEYS), Layer(user))
  }

  /** The generated layer in force: the existing file, or the one the first run writes. */
  function GeneratedLayer(host: Env, user: Option<Env>, generated: Option<Env>): Env {
    if generated.Some? then generated.value else MinimalConfig(AfterUserLayer(host, user))
  }

  function Loaded(host: Env, user: Option<Env>, generated: Option<Env>): Env {
    MergeKeep(AfterUserLayer(host, user), GeneratedLayer(host, user, generated))
  }

  function CliLoaded(host: Env, user: Option<Env>, generated: Option<Env>): Env {
    MergeKeep(AfterUserLayer(host, user), Layer(generated))
  }

  /** The host supplied a value for the key, other than a blank forward of a listed key. */
  predicate HostSupplies(host: Env, key: string) {
    key in host && !(key in BLANK_SHADOWED_ENV_KEYS && Blank(host[key]))
  }

  class ProcessEnv {
    var vars: Env

    constructor (vars: Env)
      ensures this.vars == vars
    {
      this.vars := vars;
    }

    /** Deletes every blank value among `keys`. */
    method ClearBlankEnv(keys: seq<string>)
      modifies this
      ensures vars == Cleared(old(vars), keys)
    {
      for i := 0 to |keys|
        invariant vars == Cleared(old(vars), keys[..i])
      {
        var key := keys[i];
        assert keys[..i + 1] == keys[..i] + [key];
        if key in vars && Trim(vars[key]) == "" {
          vars := vars - {key};
        }
      }
      assert keys[..|keys|] == keys;
    }

    method DotenvConfig(file: Env)
      modifies this
      ensures vars == MergeKeep(old(vars), file)
    {
      vars := file + vars;
    }
  }

  /** The module-level record of the keys the host supplied. */
  class EnvPrecedence {
    var osEnvKeys: Option<set<string>>

    constructor ()
      ensures osEnvKeys == None && forall key :: IsOsProvidedEnv(key)
    {
      osEnvKeys := None;
    }

    method RecordOsEnvKeys(env: ProcessEnv)
      modifies this
      ensures osEnvKeys == Some(env.vars.Keys)
    {
      osEnvKeys := Some(env.vars.Keys);
    }

    predicate IsOsProvidedEnv(key: string)
      reads this
    {
      osEnvKeys.None? || key in osEnvKeys.value
    }
  }

  /** The two files in the working directory, as maps; None when the file does not exist. */
  class EnvFiles {
    var user: Option<Env>
    var generated: Option<Env>

    constructor (user: Option<Env>, generated: Option<Env>)
      ensures this.user == user && this.generated == generated
    {
      this.user, this.generated := user, generated;
    }
  }

  /** Merges the generated file, writing it first when there is none. */
  method LoadGenerated(env: ProcessEnv, files: EnvFiles)
    modifies env, files`generated
    ensures files.generated ==
            Some(if old(files.generated).Some? then old(files.generated).value else MinimalConfig(old(env.vars)))
    ensures env.vars == MergeKeep(old(env.vars), files.generated.value)
  {
    if files.generated.None? {
      files.generated := Some(MinimalConfig(env.vars));
    }
    env.DotenvConfig(files.generated.value);
  }

  lemma ClearedKeepsSupplied(host: Env)
    ensures forall k :: k in Cleared(host, BLANK_SHADOWED_ENV_KEYS) <==> HostSupplies(host, k)
  {
  }

  method LoadEnvironment(env: ProcessEnv, precedence: EnvPrecedence, files: EnvFiles)
    modifies env, precedence, files`generated
    ensures env.vars == Loaded(old(env.vars), files.user, old(files.generated))
    ensures files.generated == Some(GeneratedLayer(old(env.vars), files.user, old(files.generated)))
    ensures precedence.osEnvKeys.Some?
    ensures forall k :: precedence.IsOsProvidedEnv(k) <==> HostSupplies(old(env.vars), k)
  {
    env.ClearBlankEnv(BLANK_SHADOWED_ENV_KEYS);
    precedence.RecordOsEnvKeys(env);
    ClearedKeepsSupplied(old(env.vars));
    if files.user.Some? {
      env.DotenvConfig(files.user.value);
    }
    assert env.vars == AfterUserLayer(old(env.vars), files.user);
    LoadGenerated(env, files);
  }

  method LoadCliEnv(env: ProcessEnv, files: EnvFiles)
    modifies env
    ensures env.vars == CliLoaded(old(env.vars), files.user, files.generated)
  {
    env.ClearBlankEnv(BLANK_SHADOWED_ENV_KEYS);
    if files.user.Some? {
      env.DotenvConfig(files.user.value);
    }
    if files.generated.Some? {
      env.DotenvConfig(files.generated.value);
    }
  }

  // ---------------------------------------------------------------- the precedence rule

  /**
    The rule, for every key, host environment, `.env` and generated file: the host's value if the
    host supplies one, else the value in `.env` even when blank, else the generated value (on the
    first run: the one that is being generated), else unset.
   */
  lemma LayerPrecedence(host: Env, user: Option<Env>, generated: Option<Env>, key: string)
    ensures Lookup(Loaded(host, user, generated), key) ==
            if HostSupplies(host, key) then Some(host[key])
            else if user.Some? && key in user.value then Some(user.value[key])
            else if generated.Some? then Lookup(generated.value, key)
            else GeneratedValue(key, None)
  {
    if !HostSupplies(host, key) && key !in Layer(user) {
      assert Lookup(AfterUserLayer(host, user), key) == None;
    }
  }

  lemma EqualByLookup(a: Env, b: Env)
    requires forall k :: Lookup(a, k) == Lookup(b, k)
    ensures a == b
  {
    forall k | k in a.Keys + b.Keys ensures (k in a <==> k in b) && (k in a ==> a[k] == b[k]) {
      assert Lookup(a, k) == Lookup(b, k);
    }
  }

  /**
    The migration command line sees what the application sees: with the generated file in place,
    and also when the application's own first run has just written it.
   */
  lemma CliAgreesWithApp(host: Env, user: Option<Env>, generated: Option<Env>)
    ensures CliLoaded(host, user, Some(GeneratedLayer(host, user, generated))) == Loaded(host, user, generated)
    ensures generated.Some? ==> CliLoaded(host, user, generated) == Loaded(host, user, generated)
  {
  }

  /** Before the first run they agree on exactly the keys that host or `.env` decide or no first run would write. */
  lemma CliBeforeFirstRunIff(host: Env, user: Option<Env>, key: string)
    ensures Lookup(CliLoaded(host, user, None), key) == Lookup(Loaded(host, user, None), key) <==>
            HostSupplies(host, key) || key in Layer(user) || GeneratedValue(key, None).None?
  {
    LayerPrecedence(host, user, None, key);
    LayerPrecedence(host, user, Some(map[]), key);
    CliAgreesWithApp(host, user, Some(map[]));
  }

  lemma DatabaseTypeIsNotPersisted()
    ensures "DATABASE_TYPE" !in PERSISTED
  {
    assert forall k :: k in PERSISTED ==> |k| != 13 || k[9] != 'T';
  }

  lemma DatabaseTypeIsNoFlag()
    ensures "DATABASE_TYPE" !in FLAGS
  {
    assert forall k :: k in FLAGS ==> |k| != 13;
  }

  lemma FirstRunSelectsPostgres()
    ensures GeneratedValue("DATABASE_TYPE", None) == Some("postgres")
  {
    DatabaseTypeIsNotPersisted();
    DatabaseTypeIsNoFlag();
  }

  /** With nothing configured at all the application's first run selects PostgreSQL, and the command line nothing. */
  lemma CliBeforeFirstRunDiffers()
    ensures Lookup(Loaded(map[], None, None), "DATABASE_TYPE") == Some("postgres")
    ensures Lookup(CliLoaded(map[], None, None), "DATABASE_TYPE") == None
  {
    FirstRunSelectsPostgres();
    LayerPrecedence(map[], None, None, "DATABASE_TYPE");
  }

  /** Loading again, in the environment that loading produced and with the file it left, changes nothing. */
  lemma LoadIsIdempotent(host: Env, user: Option<Env>, generated: Option<Env>)
    ensures var env, file := Loaded(host, user, generated), Some(GeneratedLayer(host, user, generated));
            Loaded(env, user, file) == env && CliLoaded(env, user, file) == env
  {
    var env, file := Loaded(host, user, generated), Some(GeneratedLayer(host, user, generated));
    forall k ensures Lookup(Loaded(env, user, file), k) == Lookup(env, k) {
      LayerPrecedence(env, user, file, k);
      LayerPrecedence(host, user, generated, k);
      LayerPrecedence(host, user, file, k);
      CliAgreesWithApp(host, user, generated);
    }
    EqualByLookup(Loaded(env, user, file), env);
    CliAgreesWithApp(env, user, file);
  }

  /** A blank forward of a listed key is as good as no variable at all. */
  lemma BlankForwardIsInvisible(host: Env, user: Option<Env>, generated: Option<Env>, key: string, blank: string)
    requires key in BLANK_SHADOWED_ENV_KEYS && Blank(blank) && key !in host
    ensures Loaded(host[key := blank], user, generated) == Loaded(host, user, generated)
  {
    forall k
      ensures Lookup(Loaded(host[key := blank], user, generated), k) == Lookup(Loaded(host, user, generated), k)
    {
      LayerPrecedence(host[key := blank], user, generated, k);
      LayerPrecedence(host, user, generated, k);
    }
    EqualByLookup(Loaded(host[key := blank], user, generated), Loaded(host, user, generated));
  }

  // ---------------------------------------------------------------- provenance

  /** When the record says the host supplied a key, its final value is the host's, whatever the files hold. */
  lemma HostValueWins(host: Env, user: Option<Env>, generated: Option<Env>, key: string)
    requires HostSupplies(host, key)
    ensures Lookup(Loaded(host, user, generated), key) == Some(host[key])
  {
    LayerPrecedence(host, user, generated, key);
  }

  /** When it says otherwise, the final value depends on the files alone: any two such hosts get the same. */
  lemma FileValueIgnoresHost(host: Env, other: Env, user: Option<Env>, generated: Option<Env>, key: string)
    requires !HostSupplies(host, key) && !HostSupplies(other, key)
    ensures Lookup(Loaded(host, user, generated), key) == Lookup(Loaded(other, user, generated), key)
  {
    LayerPrecedence(host, user, generated, key);
    LayerPrecedence(other, user, generated, key);
  }

  /** What the two files say about a key that the host does not supply. */
  function FileValue(user: Option<Env>, generated: Option<Env>, key: string): Option<string> {
    if key in Layer(user) then Lookup(Layer(user), key)
    else if generated.Some? then Lookup(generated.value, key)
    else GeneratedValue(key, None)
  }

  /** The files have a value for the key that is not a blank one of a listed key. */
  predicate FileSupplies(user: Option<Env>, generated: Option<Env>, key: string) {
    var v := FileValue(user, generated, key);
    v.Some? && !(key in BLANK_SHADOWED_ENV_KEYS && Blank(v.value))
  }

  /**
    The record tells the host's values from the files' only for the first load of a process: after
    a second one it holds, besides the host's keys, exactly those that a file supplies.
   */
  lemma ReloadRecordIff(host: Env, user: Option<Env>, generated: Option<Env>, key: string)
    ensures HostSupplies(Loaded(host, user, generated), key) <==>
            HostSupplies(host, key) || FileSupplies(user, generated, key)
  {
    LayerPrecedence(host, user, generated, key);
  }

  /** A key from `.env` alone: not recorded by the first load, recorded by the second. */
  lemma ReloadMistakesFileForHost(generated: Option<Env>)
    ensures var user := Some(map["X" := "1"]);
            !HostSupplies(map[], "X") && HostSupplies(Loaded(map[], user, generated), "X")
  {
    TrimOfTrimmed("1");
    ReloadRecordIff(map[], Some(map["X" := "1"]), generated, "X");
  }

  /** The variables that the bundled compose file forwards as `KEY=${KEY:-}`, blank when they are not set. */
  const COMPOSE_FORWARDS: seq<string> := [
    "DATABASE_TYPE", "DATABASE_NAME", "DATABASE_HOST", "DATABASE_PORT", "DATABASE_USERNAME",
    "DATABASE_PASSWORD", "POSTGRES_SCHEMA", "ENGINE_TYPE", "AUTO_START_SESSIONS", "STORAGE_TYPE",
    "STORAGE_LOCAL_PATH", "S3_ENDPOINT", "S3_ACCESS_KEY_ID", "S3_SECRET_ACCESS_KEY", "S3_ACCESS_KEY",
    "S3_SECRET_KEY", "S3_REGION", "S3_BUCKET", "REDIS_ENABLED", "REDIS_HOST", "REDIS_PORT",
    "RATE_LIMIT_SHORT_TTL", "RATE_LIMIT_SHORT_LIMIT", "RATE_LIMIT_MEDIUM_TTL", "RATE_LIMIT_MEDIUM_LIMIT",
    "RATE_LIMIT_LONG_TTL", "RATE_LIMIT_LONG_LIMIT", "BODY_SIZE_LIMIT", "API_MASTER_KEY", "TRUSTED_PROXIES",
    "CSP_UPGRADE_INSECURE_REQUESTS"]

  lemma ForwardsAreListed(key: string)
    ensures key in COMPOSE_FORWARDS <==> key in BLANK_SHADOWED_ENV_KEYS
  {
  }

  /** The environment of the container: what the operator sets, and a blank for every other forwarded variable. */
  function Forwarded(operator: Env): Env {
    (map k | k in COMPOSE_FORWARDS :: "") + operator
  }

  /** The compose file is invisible: the container loads what the operator's own variables would give. */
  lemma ComposeIsInvisible(operator: Env, user: Option<Env>, generated: Option<Env>)
    ensures Loaded(Forwarded(operator), user, generated) == Loaded(operator, user, generated)
    ensures forall k :: HostSupplies(Forwarded(operator), k) <==> HostSupplies(operator, k)
  {
    BlankIffAllSpace("");
    forall k
      ensures HostSupplies(Forwarded(operator), k) <==> HostSupplies(operator, k)
      ensures Lookup(Loaded(Forwarded(operator), user, generated), k) == Lookup(Loaded(operator, user, generated), k)
    {
      ForwardsAreListed(k);
      LayerPrecedence(Forwarded(operator), user, generated, k);
      LayerPrecedence(operator, user, generated, k);
    }
    EqualByLookup(Loaded(Forwarded(operator), user, generated), Loaded(operator, user, generated));
  }

  /**
    The loaders at work: the application boots, the migration command line starts in a process of
    its own with the same host variables and whatever files the boot left, and the application
    loads once more. All three end with the same environment; the records of the two loads are
    those of the host and of the loaded environment.
   */
  method BootMigrateReload(host: Env, user: Option<Env>, generated: Option<Env>)
    returns (app: Env, cli: Env, again: Env, hostKeys: set<string>, reloadKeys: set<string>)
    ensures app == cli == again == Loaded(host, user, generated)
    ensures forall k :: k in hostKeys <==> HostSupplies(host, k)
    ensures forall k :: k in reloadKeys <==> HostSupplies(host, k) || FileSupplies(user, generated, k)
  {
    var files := new EnvFiles(user, generated);
    var process := new ProcessEnv(host);
    var precedence := new EnvPrecedence();
    LoadEnvironment(process, precedence, files);
    app, hostKeys := process.vars, precedence.osEnvKeys.value;
    assert forall k :: k in hostKeys <==> precedence.IsOsProvidedEnv(k);

    var migration := new ProcessEnv(host);
    CliAgreesWithApp(host, user, generated);
    LoadCliEnv(migration, files);
    cli := migration.vars;

    LoadIsIdempotent(host, user, generated);
    LoadEnvironment(process, precedence, files);
    again, reloadKeys := process.vars, precedence.osEnvKeys.value;
    assert forall k :: k in reloadKeys <==> precedence.IsOsProvidedEnv(k);
    forall k ensures k in reloadKeys <==> HostSupplies(host, k) || FileSupplies(user, generated, k) {
      ReloadRecordIff(host, user, generated, k);
    }
  }

  // ---------------------------------------------------------------- what the first run persists

  /** What host and `.env` say about a key, before any generated file. */
  function InForce(host: Env, user: Option<Env>, key: string): Option<string> {
    if HostSupplies(host, key) then Some(host[key]) else Lookup(Layer(user), key)
  }

  lemma FirstRunLine(host: Env, user: Option<Env>, key: string)
    ensures Lookup(GeneratedLayer(host, user, None), key) == GeneratedValue(key, InForce(host, user, key))
  {
    assert Lookup(AfterUserLayer(host, user), key) == InForce(host, user, key);
  }

  /** Length and first letter that tell the flags from the persisted values. */
  ghost predicate LooksLikeFlag(k: string) {
    |k| == 12 || |k| == 32 || (|k| == 16 && k[0] != 'B')
  }

  lemma FlagsLookLikeIt()
    ensures forall k :: k in FLAGS ==> LooksLikeFlag(k)
  {
  }

  lemma PersistedAreNoFlags()
    ensures forall k :: k in PERSISTED ==> !LooksLikeFlag(k)
  {
  }

  lemma FlagIsNotPersisted(key: string)
    requires key in FLAGS
    ensures key !in PERSISTED
  {
    FlagsLookLikeIt();
    PersistedAreNoFlags();
  }

  lemma FlagTable()
    ensures FLAGS.Keys == {"POSTGRES_BUILTIN", "DATABASE_SSL", "DATABASE_SSL_REJECT_UNAUTHORIZED", "DATABASE_LOGGING"}
    ensures FLAGS["POSTGRES_BUILTIN"] == FLAGS["DATABASE_SSL"] == FLAGS["DATABASE_LOGGING"] == ("true", "false")
    ensures FLAGS["DATABASE_SSL_REJECT_UNAUTHORIZED"] == ("false", "true")
  {
  }

  /**
    The flags of the first run, for every host and `.env`: three are on exactly when they are set to
    "true", the check of the server's certificate is off exactly when it is set to "false".
   */
  lemma FirstRunFlags(host: Env, user: Option<Env>, key: string)
    ensures key in {"POSTGRES_BUILTIN", "DATABASE_SSL", "DATABASE_LOGGING"} ==>
              Lookup(GeneratedLayer(host, user, None), key) ==
              Some(if InForce(host, user, key) == Some("true") then "true" else "false")
    ensures key == "DATABASE_SSL_REJECT_UNAUTHORIZED" ==>
              Lookup(GeneratedLayer(host, user, None), key) ==
              Some(if InForce(host, user, key) == Some("false") then "false" else "true")
  {
    FlagTable();
    FirstRunLine(host, user, key);
    if key in FLAGS {
      FlagIsNotPersisted(key);
    }
  }

  /** So a flag that the host sets to "true" or "false", and `.env` does not mention, outlives the host's variables. */
  lemma FlagsArePersisted(host: Env, user: Option<Env>, key: string)
    requires key in {"POSTGRES_BUILTIN", "DATABASE_SSL", "DATABASE_LOGGING", "DATABASE_SSL_REJECT_UNAUTHORIZED"}
    requires HostSupplies(host, key) && key !in Layer(user) && (host[key] == "true" || host[key] == "false")
    ensures Lookup(Loaded(map[], user, Some(GeneratedLayer(host, user, None))), key) == Some(host[key])
  {
    FirstRunFlags(host, user, key);
    LayerPrecedence(map[], user, Some(GeneratedLayer(host, user, None)), key);
  }

  /** The value in force, or the fallback when there is none or it is empty. */
  function OrElse(value: Option<string>, fallback: string): string {
    if value.Some? && value.value != "" then value.value else fallback
  }

  lemma FirstRunValue(host: Env, user: Option<Env>, key: string)
    requires key in PERSISTED
    ensures Lookup(GeneratedLayer(host, user, None), key) == Some(OrElse(InForce(host, user, key), PERSISTED[key]))
  {
    FirstRunLine(host, user, key);
  }

  /** Host, port and name of the database keep the value in force, or fall back when there is none. */
  lemma FirstRunDatabase(host: Env, user: Option<Env>, key: string)
    ensures var line, value := Lookup(GeneratedLayer(host, user, None), key), InForce(host, user, key);
            && (key == "DATABASE_HOST" ==> line == Some(OrElse(value, "localhost")))
            && (key == "DATABASE_PORT" ==> line == Some(OrElse(value, "5432")))
            && (key == "DATABASE_NAME" ==> line == Some(OrElse(value, "smartConfirm")))
  {
    if key in PERSISTED {
      FirstRunValue(host, user, key);
    }
  }

  /** So do user, password and schema. */
  lemma FirstRunCredentials(host: Env, user: Option<Env>, key: string)
    ensures var line, value := Lookup(GeneratedLayer(host, user, None), key), InForce(host, user, key);
            && (key == "DATABASE_USERNAME" ==> line == Some(OrElse(value, "smartConfirm")))
            && (key == "DATABASE_PASSWORD" ==> line == Some(OrElse(value, "")))
            && (key == "POSTGRES_SCHEMA" ==> line == Some(OrElse(value, "public")))
  {
    if key in PERSISTED {
      FirstRunValue(host, user, key);
    }
  }

  /** So do the limits of the connection pool and the place of the engine's credentials. */
  lemma FirstRunTuning(host: Env, user: Option<Env>, key: string)
    ensures var line, value := Lookup(GeneratedLayer(host, user, None), key), InForce(host, user, key);
            && (key == "DATABASE_POOL_SIZE" ==> line == Some(OrElse(value, "10")))
            && (key == "DATABASE_CONNECTION_TIMEOUT_MS" ==> line == Some(OrElse(value, "10000")))
            && (key == "DATABASE_IDLE_TIMEOUT_MS" ==> line == Some(OrElse(value, "30000")))
            && (key == "DATABASE_STATEMENT_TIMEOUT_MS" ==> line == Some(OrElse(value, "30000")))
            && (key == "BAILEYS_AUTH_DIR" ==> line == Some(OrElse(value, "./data/baileys")))
  {
    if key in PERSISTED {
      FirstRunValue(host, user, key);
    }
  }

  /** Length and letters that tell the selections from all other keys of the file. */
  ghost predicate LooksLikeSelection(k: string) {
    || |k| == 11 || |k| == 20
    || (|k| == 13 && (k[0] != 'D' || k[9] == 'T'))
    || ((|k| == 12 || |k| == 18) && k[0] == 'S')
  }

  lemma SelectionsLookLikeIt()
    ensures forall k :: k in FIXED ==> LooksLikeSelection(k)
  {
  }

  lemma PersistedLookOtherwise()
    ensures forall k :: k in PERSISTED ==> !LooksLikeSelection(k)
  {
  }

  lemma FlagsLookOtherwise()
    ensures forall k :: k in FLAGS ==> !LooksLikeSelection(k)
  {
  }

  lemma SelectionIsFixed(host: Env, user: Option<Env>, key: string)
    requires key in FIXED
    ensures Lookup(GeneratedLayer(host, user, None), key) == Some(FIXED[key])
  {
    SelectionsLookLikeIt();
    PersistedLookOtherwise();
    FlagsLookOtherwise();
    FirstRunLine(host, user, key);
  }

  /** The lines that are the same whatever host and `.env` say. */
  lemma FirstRunSelections(host: Env, user: Option<Env>, key: string)
    ensures var line := Lookup(GeneratedLayer(host, user, None), key);
            && (key == "DATABASE_TYPE" ==> line == Some("postgres"))
            && (key == "DATABASE_SYNCHRONIZE" ==> line == Some("false"))
            && (key == "ENGINE_TYPE" ==> line == Some("baileys"))
            && (key == "REDIS_ENABLED" ==> line == Some("false"))
            && (key == "REDIS_BUILTIN" ==> line == Some("false"))
            && (key == "QUEUE_ENABLED" ==> line == Some("false"))
            && (key == "STORAGE_TYPE" ==> line == Some("local"))
            && (key == "MINIO_BUILTIN" ==> line == Some("false"))
            && (key == "STORAGE_LOCAL_PATH" ==> line == Some("./data/media"))
  {
    if key in FIXED {
      SelectionIsFixed(host, user, key);
    }
  }

  /**
    After a first run, does a later boot without any host variable come to the same value for a
    key? Exactly when the host did not supply it in the first place, or `.env` says the same as the
    host, or `.env` is silent and the generated line repeats the host's value.
   */
  lemma SurvivesHostLossIff(host: Env, user: Option<Env>, key: string)
    ensures var first := Loaded(host, user, None);
            var later := Loaded(map[], user, Some(GeneratedLayer(host, user, None)));
            Lookup(first, key) == Lookup(later, key) <==>
            || !HostSupplies(host, key)
            || (if key in Layer(user) then Layer(user)[key] == host[key]
                else GeneratedValue(key, Some(host[key])) == Some(host[key]))
  {
    var file := Some(GeneratedLayer(host, user, None));
    LayerPrecedence(host, user, None, key);
    LayerPrecedence(map[], user, file, key);
    if HostSupplies(host, key) {
      assert Lookup(AfterUserLayer(host, user), key) == Some(host[key]);
    } else if key !in Layer(user) {
      assert Lookup(AfterUserLayer(host, user), key) == None;
    }
  }

  /** So every non-empty connection value from the host that `.env` does not mention outlives the host's environment. */
  lemma ConnectionValuesArePersisted(host: Env, user: Option<Env>, key: string)
    requires key in PERSISTED
    requires HostSupplies(host, key) && host[key] != "" && key !in Layer(user)
    ensures Lookup(Loaded(map[], user, Some(GeneratedLayer(host, user, None))), key) == Some(host[key])
  {
    SurvivesHostLossIff(host, user, key);
    HostValueWins(host, user, None, key);
  }

  lemma StorageTypeIsFixed()
    ensures GeneratedValue("STORAGE_TYPE", None) == Some("local")
    ensures GeneratedValue("STORAGE_TYPE", Some("s3")) == Some("local")
  {
    assert forall k :: k in PERSISTED ==> k[0] != 'S';
    assert forall k :: k in FLAGS ==> k[0] != 'S';
  }

  /** The selections are not: a host that boots once with s3 storage leaves local storage behind. */
  lemma StorageTypeIsNotPersisted()
    ensures var host := map["STORAGE_TYPE" := "s3"];
            && Lookup(Loaded(host, None, None), "STORAGE_TYPE") == Some("s3")
            && Lookup(Loaded(map[], None, Some(GeneratedLayer(host, None, None))), "STORAGE_TYPE") == Some("local")
  {
    var host := map["STORAGE_TYPE" := "s3"];
    TrimOfTrimmed("s3");
    StorageTypeIsFixed();
    assert Lookup(AfterUserLayer(host, None), "STORAGE_TYPE") == Some("s3");
    LayerPrecedence(host, None, None, "STORAGE_TYPE");
    LayerPrecedence(map[], None, Some(GeneratedLayer(host, None, None)), "STORAGE_TYPE");
  }
}
