/**
  Which database an accepted environment runs with. The validator looks at trimmed values, while
  the configuration reads the same variables as they stand (`env[key] || fallback`), so a value
  with white space around it is checked as one text and used as another.
 */
module DatabaseSelection {
  import opened Options
  import opened Text
  import opened EnvValidation

  /** The text the validator checks, or the fallback when it takes the key for unset. */
  function Validated(env: Env, key: string, fallback: string): string {
    if Str(env, key).Some? then Str(env, key).value else fallback
  }

  /** Set, and with white space at one end at least; a value of white space only is padded too. */
  predicate Padded(env: Env, key: string) {
    key in env && !Trimmed(env[key])
  }

  predicate RunsPostgres(env: Env) {
    ReadText(env, "DATABASE_TYPE", "sqlite") == "postgres"
  }

  function SchemaName(env: Env): string {
    ReadText(env, "POSTGRES_SCHEMA", "public")
  }

  function SqliteFile(env: Env): string {
    ReadText(env, "DATABASE_NAME", "./data/smartConfirm.sqlite")
  }

  /** What is used when the variables are unset or empty. */
  lemma Defaults(env: Env)
    ensures "DATABASE_TYPE" !in env || env["DATABASE_TYPE"] == "" ==> !RunsPostgres(env)
    ensures "POSTGRES_SCHEMA" !in env || env["POSTGRES_SCHEMA"] == "" ==> SchemaName(env) == "public"
    ensures "DATABASE_NAME" !in env || env["DATABASE_NAME"] == "" ==> SqliteFile(env) == "./data/smartConfirm.sqlite"
  {
    assert "sqlite"[0] != "postgres"[0];
  }

  // ---------------------------------------------------------------- read equals validated

  lemma TrimIsIdentityIff(s: string)
    ensures Trim(s) == s <==> Trimmed(s)
    ensures Trimmed(Trim(s))
  {
    var before, after := TrimSplits(s);
    if Trimmed(s) {
      TrimOfTrimmed(s);
    }
  }

  /** The configuration uses the text that was validated exactly when that text stands there without padding. */
  lemma ReadIsValidatedIff(env: Env, key: string, fallback: string)
    requires fallback != "" && Trimmed(fallback)
    ensures ReadText(env, key, fallback) == Validated(env, key, fallback) <==> !Padded(env, key)
  {
    if key in env {
      TrimIsIdentityIff(env[key]);
    }
  }

  /** PostgreSQL runs exactly when the validator took the environment for PostgreSQL and the type has no padding. */
  lemma RunsPostgresIff(env: Env)
    ensures RunsPostgres(env) <==> UsesPostgres(env) && !Padded(env, "DATABASE_TYPE")
  {
    ReadIsValidatedIff(env, "DATABASE_TYPE", "sqlite");
    if "DATABASE_TYPE" in env {
      TrimIsIdentityIff(env["DATABASE_TYPE"]);
    }
  }

  // ---------------------------------------------------------------- quoted identifiers

  function Prepend(c: char, r: Option<(string, string)>): Option<(string, string)> {
    match r
    case None => None
    case Some((name, rest)) => Some(([c] + name, rest))
  }

  /** SQL's quoted identifier after its opening quote: up to the closing quote, two quotes standing for one. */
  function ReadQuoted(s: string): Option<(string, string)> {
    if s == "" then None
    else if s[0] != '"' then Prepend(s[0], ReadQuoted(s[1..]))
    else if |s| > 1 && s[1] == '"' then Prepend('"', ReadQuoted(s[2..]))
    else Some(("", s[1..]))
  }

  lemma {:induction false} QuotedRoundTrip(name: string, rest: string)
    requires '"' !in name && (rest != "" ==> rest[0] != '"')
    ensures ReadQuoted(name + ("\"" + rest)) == Some((name, rest))
  {
    var s := name + ("\"" + rest);
    if name == "" {
      assert s == "\"" + rest;
      assert s[1..] == rest;
    } else {
      assert s[1..] == name[1..] + ("\"" + rest);
      QuotedRoundTrip(name[1..], rest);
      assert [name[0]] + name[1..] == name;
    }
  }

  /** An identifier in padding holds no character with a meaning in SQL or in a list of options. */
  lemma PaddedIdentifierIsPlain(s: string)
    requires Identifier(Trim(s)) || AllSpace(s)
    ensures '"' !in s && '\\' !in s && ',' !in s
  {
    var before, after := TrimSplits(s);
    forall i | 0 <= i < |s| ensures s[i] != '"' && s[i] != '\\' && s[i] != ',' {
      if |before| <= i < |before| + |Trim(s)| {
        assert s[i] == Trim(s)[i - |before|];
      } else if i < |before| {
        assert s[i] == before[i];
      } else {
        assert s[i] == after[i - |before| - |Trim(s)|];
      }
    }
  }

  // ---------------------------------------------------------------- what acceptance gives

  lemma AcceptedSchema(env: Env)
    requires Accepted(env) && UsesPostgres(env)
    ensures Identifier(Validated(env, "POSTGRES_SCHEMA", "public"))
    ensures !ReservedPrefix(Validated(env, "POSTGRES_SCHEMA", "public"))
    ensures '"' !in SchemaName(env) && '\\' !in SchemaName(env) && ',' !in SchemaName(env)
  {
    assert !Violates(env, InvalidSchema);
    assert !Violates(env, ReservedSchema);
    if "POSTGRES_SCHEMA" in env {
      BlankIffAllSpace(env["POSTGRES_SCHEMA"]);
      if env["POSTGRES_SCHEMA"] != "" {
        PaddedIdentifierIsPlain(env["POSTGRES_SCHEMA"]);
      }
    }
    assert LowerCase("public")[0] != "pg_"[0] || LowerCase("public")[1] != "pg_"[1];
  }

  /** When PostgreSQL runs on an accepted environment, its connection values are not blank and `synchronize` is off. */
  lemma AcceptedPostgresIsSound(env: Env)
    requires Accepted(env) && RunsPostgres(env)
    ensures forall key :: key in ["DATABASE_HOST", "DATABASE_USERNAME", "DATABASE_PASSWORD"] ==>
                            key in env && !Blank(env[key])
    ensures ReadText(env, "DATABASE_SYNCHRONIZE", "false") != "true"
  {
    RunsPostgresIff(env);
    forall key | key in ["DATABASE_HOST", "DATABASE_USERNAME", "DATABASE_PASSWORD"]
      ensures key in env && !Blank(env[key])
    {
      assert !Violates(env, Missing(key));
    }
    assert !Violates(env, SynchronizeWithPostgres);
  }

  lemma IdentifierIsTrimmed(s: string)
    requires Identifier(s)
    ensures Trimmed(s)
  {
  }

  /** The schema that is used is a legal, unreserved identifier exactly when its value has no padding. */
  lemma SchemaIsIdentifierIff(env: Env)
    requires Accepted(env) && RunsPostgres(env)
    ensures Identifier(SchemaName(env)) && !ReservedPrefix(SchemaName(env)) <==> !Padded(env, "POSTGRES_SCHEMA")
  {
    RunsPostgresIff(env);
    AcceptedSchema(env);
    ReadIsValidatedIff(env, "POSTGRES_SCHEMA", "public");
    if Identifier(SchemaName(env)) {
      IdentifierIsTrimmed(SchemaName(env));
    }
  }

  /**
    The schema between SQL's quotes, as the comment of the validator has it: the reader finds the
    name and the text after it, provided that text does not begin with a quote of its own.
   */
  lemma SchemaIsInertInQuotes(env: Env, rest: string)
    requires Accepted(env) && RunsPostgres(env)
    requires rest != "" ==> rest[0] != '"'
    ensures ReadQuoted(SchemaName(env) + ("\"" + rest)) == Some((SchemaName(env), rest))
  {
    RunsPostgresIff(env);
    AcceptedSchema(env);
    QuotedRoundTrip(SchemaName(env), rest);
  }

  // ---------------------------------------------------------------- the search path option

  /** White space that separates the words of PostgreSQL's `options` parameter. */
  predicate Separates(c: char) {
    '\t' <= c <= '\r' || c == ' '
  }

  /** None of tab, line feed, vertical tab, form feed, carriage return (9 to 13) and space (32). */
  ghost predicate OneWord(s: string) {
    forall c :: c in s ==> !(9 <= c as int <= 13) && c as int != 32
  }

  function WordLength(s: string): (n: nat)
    ensures n <= |s| && (n < |s| ==> Separates(s[n]))
    ensures forall i :: 0 <= i < n ==> !Separates(s[i])
  {
    if s == "" || Separates(s[0]) then 0 else 1 + WordLength(s[1..])
  }

  /** The words of a text; a backslash, which would escape the character after it, is not read. */
  function Words(s: string): seq<string> {
    if s == "" then []
    else if Separates(s[0]) then Words(s[1..])
    else
      var n := WordLength(s);
      [s[..n]] + Words(s[n..])
  }

  lemma {:induction false} WordLengthOf(word: string, rest: string)
    requires OneWord(word) && (rest != "" ==> Separates(rest[0]))
    ensures WordLength(word + rest) == |word|
  {
    if word == "" {
      assert word + rest == rest;
    } else {
      assert word[0] in word && forall c :: c in word[1..] ==> c in word;
      assert (word + rest)[1..] == word[1..] + rest;
      WordLengthOf(word[1..], rest);
    }
  }

  lemma WordsOf(word: string, rest: string)
    requires word != "" && OneWord(word) && (rest != "" ==> Separates(rest[0]))
    ensures Words(word + rest) == [word] + Words(rest)
  {
    var s := word + rest;
    WordLengthOf(word, rest);
    assert s[0] == word[0] && word[0] in word;
    assert s[..|word|] == word && s[|word|..] == rest;
  }

  lemma {:induction false} WordsAreWords(s: string)
    ensures forall w :: w in Words(s) ==> OneWord(w)
  {
    if s == "" {
    } else if Separates(s[0]) {
      WordsAreWords(s[1..]);
    } else {
      WordsAreWords(s[WordLength(s)..]);
    }
  }

  function SearchPathSetting(schema: string): string {
    "search_path=" + schema + ",public"
  }

  /** The one text that is made of the schema name. */
  function SearchPathOption(schema: string): string {
    "-c" + (" " + SearchPathSetting(schema))
  }

  lemma SettingIsOneWordIff(schema: string)
    ensures OneWord(SearchPathSetting(schema)) <==> OneWord(schema)
  {
    var s := SearchPathSetting(schema);
    assert OneWord("search_path=") && OneWord(",public");
    assert forall c :: c in s <==> c in "search_path=" || c in schema || c in ",public";
  }

  /** The option arrives as the two words that are meant exactly when the schema name holds no separator. */
  lemma OptionIsIntactIff(schema: string)
    ensures Words(SearchPathOption(schema)) == ["-c", "search_path=" + schema + ",public"] <==> OneWord(schema)
  {
    var setting := SearchPathSetting(schema);
    SettingIsOneWordIff(schema);
    WordsAreWords(SearchPathOption(schema));
    if OneWord(setting) {
      WordsOf("-c", " " + setting);
      assert (" " + setting)[1..] == setting;
      WordsOf(setting, "");
      assert setting + "" == setting;
    } else {
      assert setting in ["-c", setting];
    }
  }

  lemma IdentifierIsOneWord(s: string)
    requires Identifier(s)
    ensures OneWord(s)
  {
  }

  /** In an accepted schema without other white space than the separators, these and padding are the same thing. */
  lemma SchemaIsOneWordIff(env: Env)
    requires Accepted(env) && RunsPostgres(env)
    ensures !Padded(env, "POSTGRES_SCHEMA") ==> OneWord(SchemaName(env))
    ensures (forall c :: c in SchemaName(env) && IsSpace(c) ==> Separates(c)) && OneWord(SchemaName(env)) ==>
              !Padded(env, "POSTGRES_SCHEMA")
  {
    RunsPostgresIff(env);
    AcceptedSchema(env);
    ReadIsValidatedIff(env, "POSTGRES_SCHEMA", "public");
    if !Padded(env, "POSTGRES_SCHEMA") {
      IdentifierIsOneWord(SchemaName(env));
    } else {
      var schema := SchemaName(env);
      assert schema == env["POSTGRES_SCHEMA"] && schema[0] in schema && schema[|schema| - 1] in schema;
    }
  }

  /**
    On an accepted environment that runs PostgreSQL the search path arrives as it is meant whenever
    the schema value has no padding; with padding of the six separating characters it never does.
    Other white space stays in the word, and only makes the name illegal.
   */
  lemma SearchPathIsIntactIff(env: Env)
    requires Accepted(env) && RunsPostgres(env)
    ensures var schema := SchemaName(env);
            var intact := Words(SearchPathOption(schema)) == ["-c", "search_path=" + schema + ",public"];
            && (intact <==> OneWord(schema))
            && (!Padded(env, "POSTGRES_SCHEMA") ==> intact)
            && ((forall c :: c in SchemaName(env) && IsSpace(c) ==> Separates(c)) ==>
                  (intact <==> !Padded(env, "POSTGRES_SCHEMA")))
  {
    OptionIsIntactIff(SchemaName(env));
    SchemaIsOneWordIff(env);
  }

  // ---------------------------------------------------------------- the SQLite file

  lemma SuffixOfTail(before: string, tail: string, suffix: string)
    requires EndsWith(LowerCase(tail), suffix)
    ensures EndsWith(LowerCase(before + tail), suffix)
  {
    var k, n := |tail| - |suffix|, |before|;
    var whole := LowerCase(before + tail);
    forall i | 0 <= i < |suffix| ensures whole[n + k..][i] == suffix[i] {
      assert whole[n + k + i] == LowerCase(tail)[k + i] == LowerCase(tail)[k..][i];
    }
  }

  /** A name with a path separator or, at its very end, a suffix has them before trimming too. */
  lemma NotBareBeforeTrimming(s: string)
    requires !BareName(Trim(s)) && s != "" && !IsSpace(s[|s| - 1])
    ensures !BareName(s)
  {
    var before := TrimStartSplits(s);
    assert s == before + Trim(s);
    if EndsWith(LowerCase(Trim(s)), ".sqlite") {
      SuffixOfTail(before, Trim(s), ".sqlite");
    } else if EndsWith(LowerCase(Trim(s)), ".db") {
      SuffixOfTail(before, Trim(s), ".db");
    }
  }

  lemma LastOfSuffix(s: string, suffix: string)
    requires suffix != "" && EndsWith(s, suffix)
    ensures s[|s| - 1] == suffix[|suffix| - 1]
  {
    assert s[|s| - |suffix|..][|suffix| - 1] == s[|s| - 1];
  }

  lemma TrailingSpaceHidesSuffix(s: string)
    requires s != "" && IsSpace(s[|s| - 1])
    ensures !HasDatabaseSuffix(s)
  {
    var l := LowerCase(s);
    if EndsWith(l, ".sqlite") {
      LastOfSuffix(l, ".sqlite");
    } else if EndsWith(l, ".db") {
      LastOfSuffix(l, ".db");
    }
  }

  lemma SetNameIsBareIff(env: Env, name: string)
    requires Accepted(env) && "DATABASE_NAME" in env && name == env["DATABASE_NAME"] != ""
    ensures BareName(name) <==>
            !HasSeparator(name) && (IsSpace(name[|name| - 1]) || (UsesPostgres(env) && !HasDatabaseSuffix(name)))
  {
    if IsSpace(name[|name| - 1]) {
      TrailingSpaceHidesSuffix(name);
    } else if !UsesPostgres(env) {
      assert !Violates(env, BareSqliteName);
      BlankIffAllSpace(name);
      NotBareBeforeTrimming(name);
    }
  }

  lemma DefaultFileIsNotBare()
    ensures !BareName("./data/smartConfirm.sqlite")
  {
    assert "./data/smartConfirm.sqlite"[1] == '/';
  }

  /**
    The rule on SQLite file names keeps a database name of PostgreSQL from being opened as a file.
    On an accepted environment that runs SQLite a bare name is opened all the same exactly when it
    has no separator and either ends in white space, which the rule trims away, or has no suffix
    while the type is "postgres" with padding, so that the rule was not applied.
   */
  lemma SqliteFileIsBareIff(env: Env)
    requires Accepted(env) && !RunsPostgres(env)
    ensures BareName(SqliteFile(env)) <==>
            && "DATABASE_NAME" in env && env["DATABASE_NAME"] != ""
            && var name := env["DATABASE_NAME"];
               && !HasSeparator(name)
               && (|| IsSpace(name[|name| - 1])
                   || (UsesPostgres(env) && Padded(env, "DATABASE_TYPE") && !HasDatabaseSuffix(name)))
  {
    RunsPostgresIff(env);
    DefaultFileIsNotBare();
    if "DATABASE_NAME" in env && env["DATABASE_NAME"] != "" {
      SetNameIsBareIff(env, env["DATABASE_NAME"]);
    }
  }

  // ---------------------------------------------------------------- two accepted environments

  const CONNECTION: Env := map["DATABASE_HOST" := "h", "DATABASE_USERNAME" := "u", "DATABASE_PASSWORD" := "p"]

  /** The keys of the two environments are neither numeric nor boolean knobs. */
  lemma NoKnob(key: string)
    requires || (key != "" && key[0] == 'D' && |key| <= 17 && (|key| == 13 ==> key[9] != 'P'))
             || key == "POSTGRES_SCHEMA"
    ensures key !in PORT_KEYS && key !in NON_NEGATIVE_KEYS && key !in POSITIVE_KEYS && key !in BOOLEAN_KEYS
  {
  }

  /** Only database keys are set, and the connection. */
  ghost predicate DatabaseOnly(env: Env) {
    && env.Keys <= CONNECTION.Keys + {"DATABASE_TYPE", "DATABASE_NAME", "POSTGRES_SCHEMA"}
    && forall key :: key in CONNECTION ==> key in env && env[key] == CONNECTION[key]
  }

  lemma DatabaseOnlyHasNoKnob(env: Env, key: string)
    requires DatabaseOnly(env) && key in env
    ensures key !in PORT_KEYS && key !in NON_NEGATIVE_KEYS && key !in POSITIVE_KEYS && key !in BOOLEAN_KEYS
    ensures key != "ENGINE_TYPE" && key != "STORAGE_TYPE" && key != "SEARCH_PROVIDER" && key != "DATABASE_SYNCHRONIZE"
  {
    NoKnob(key);
  }

  lemma ConnectionIsSet(env: Env, key: string)
    requires DatabaseOnly(env) && key in POSTGRES_REQUIRED_KEYS
    ensures Str(env, key).Some?
  {
    TrimOfTrimmed("h");
    TrimOfTrimmed("u");
    TrimOfTrimmed("p");
    assert key in CONNECTION;
  }

  lemma DatabaseOnlyIsAccepted(env: Env)
    requires DatabaseOnly(env) && UsesPostgres(env)
    requires var schema := Str(env, "POSTGRES_SCHEMA");
             schema.Some? ==> Identifier(schema.value) && !ReservedPrefix(schema.value)
    ensures Accepted(env)
  {
    forall e ensures !Violates(env, e) {
      match e
      case Missing(key) =>
        if key in POSTGRES_REQUIRED_KEYS {
          ConnectionIsSet(env, key);
        }
      case UnknownChoice(key) =>
        if key in env { DatabaseOnlyHasNoKnob(env, key); }
      case BadNumber(key, low, high) =>
        if key in env { DatabaseOnlyHasNoKnob(env, key); }
      case NotBoolean(key) =>
        if key in env { DatabaseOnlyHasNoKnob(env, key); }
      case _ =>
        if "SEARCH_PROVIDER" in env { DatabaseOnlyHasNoKnob(env, "SEARCH_PROVIDER"); }
        if "DATABASE_SYNCHRONIZE" in env { DatabaseOnlyHasNoKnob(env, "DATABASE_SYNCHRONIZE"); }
    }
  }

  function PaddedTypeEnv(): Env {
    CONNECTION["DATABASE_TYPE" := "postgres "]["DATABASE_NAME" := "app"]
  }

  lemma BareApp()
    ensures BareName("app")
  {
    var l := LowerCase("app");
    assert l[0..][0] == 'a' && ".db"[0] == '.';
  }

  /** The type is "postgres" followed by a space: the environment is accepted, and SQLite opens the file "app". */
  lemma PaddedTypeOpensBareFile()
    ensures var env := PaddedTypeEnv();
            Accepted(env) && !RunsPostgres(env) && SqliteFile(env) == "app" && BareName("app")
  {
    TrimOfPadded("", "postgres", " ");
    assert "" + "postgres" + " " == "postgres ";
    BareApp();
    DatabaseOnlyIsAccepted(PaddedTypeEnv());
  }

  function PaddedSchemaEnv(): Env {
    CONNECTION["DATABASE_TYPE" := "postgres"]["POSTGRES_SCHEMA" := "app "]
  }

  lemma PaddedSchemaIsRead()
    ensures Str(PaddedSchemaEnv(), "DATABASE_TYPE") == Some("postgres")
    ensures Str(PaddedSchemaEnv(), "POSTGRES_SCHEMA") == Some("app")
  {
    TrimOfTrimmed("postgres");
    TrimOfPadded("", "app", " ");
    assert "" + "app" + " " == "app ";
  }

  lemma PaddedSchemaIsAccepted()
    ensures Accepted(PaddedSchemaEnv())
  {
    PaddedSchemaIsRead();
    assert LowerCase("app")[0] != "pg_"[0];
    DatabaseOnlyIsAccepted(PaddedSchemaEnv());
  }

  lemma AppSpaceFallsApart()
    ensures !Identifier("app ") && Words(SearchPathOption("app ")) != ["-c", "search_path=app ,public"]
  {
    OptionIsIntactIff("app ");
    assert "app "[3] == ' ' && ' ' in "app ";
    assert "search_path=" + "app " + ",public" == "search_path=app ,public";
  }

  /**
    The schema is "app" followed by a space: the environment is accepted and runs PostgreSQL, and
    the name in use is no identifier and tears its search path apart.
   */
  lemma PaddedSchemaIsUsed()
    ensures var env := PaddedSchemaEnv();
            && Accepted(env) && RunsPostgres(env)
            && SchemaName(env) == "app " && !Identifier("app ")
            && Words(SearchPathOption("app ")) != ["-c", "search_path=app ,public"]
  {
    PaddedSchemaIsAccepted();
    AppSpaceFallsApart();
  }
}
