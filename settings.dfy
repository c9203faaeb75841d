/**
 * The application configuration object (`AppConfig`): boolean and numeric
 * flags read from the process environment with fallbacks, the environment
 * name and the two flags derived from it, and the performance-config
 * dictionary. The environment is a map from variable names to values;
 * parsing a number is a parameter, since floating point is not modelled.
 */
module Settings {
  import opened Common

  type Env = map<string, string>

  /** `os.getenv(key, default)`. */
  function GetEnv(env: Env, key: string, default: string): (r: string)
    ensures key in env ==> r == env[key]
    ensures key !in env ==> r == default
  {
    if key in env then env[key] else default
  }

  const TrueWords: seq<string> := ["true", "1", "yes", "on"]
  const FalseWords: seq<string> := ["false", "0", "no", "off"]

  /** `_get_bool_env`: the lower-cased value decides when it is a known word, else the default. */
  function GetBoolEnv(env: Env, key: string, default: bool): (b: bool)
  {
    var value := Lower(GetEnv(env, key, ""));
    if value in TrueWords then true
    else if value in FalseWords then false
    else default
  }

  /** The words recognised as true and as false never overlap, so the value alone decides. */
  lemma BoolEnvCases(env: Env, key: string, default: bool)
    ensures key in env && Lower(env[key]) in TrueWords ==> GetBoolEnv(env, key, default)
    ensures key in env && Lower(env[key]) in FalseWords ==> !GetBoolEnv(env, key, default)
    ensures (key !in env || Lower(env[key]) !in TrueWords + FalseWords) ==> GetBoolEnv(env, key, default) == default
  {
    assert Lower("") == "";
  }

  lemma LowerUpperChar(c: char)
    ensures LowerChar(UpperChar(c)) == LowerChar(c)
  {
  }

  /** A string without upper-case letters is its own lower-case form. */
  lemma LowerOfLower(s: string)
    requires forall i :: 0 <= i < |s| ==> !('A' <= s[i] <= 'Z')
    ensures Lower(s) == s
  {
  }

  /** A string without lower-case letters is its own upper-case form. */
  lemma UpperOfUpper(s: string)
    requires forall i :: 0 <= i < |s| ==> !('a' <= s[i] <= 'z')
    ensures Upper(s) == s
  {
  }

  /** Upper-casing a value first does not change what it lower-cases to. */
  lemma LowerOfUpper(s: string)
    ensures Lower(Upper(s)) == Lower(s)
  {
    forall i | 0 <= i < |s| ensures Lower(Upper(s))[i] == Lower(s)[i] {
      LowerUpperChar(s[i]);
    }
  }

  /** The flag ignores letter case: "TRUE", "On" and "yes" read like their lower-case forms. */
  lemma BoolEnvIgnoresCase(env: Env, key: string, v: string, default: bool)
    ensures GetBoolEnv(env[key := Upper(v)], key, default) == GetBoolEnv(env[key := v], key, default)
    ensures GetBoolEnv(env[key := Lower(v)], key, default) == GetBoolEnv(env[key := v], key, default)
  {
    LowerOfUpper(v);
    LowerIdempotent(v);
  }

  /** Mixed-case spellings of the known words. */
  lemma BoolEnvSpellings(env: Env, key: string, default: bool)
    ensures GetBoolEnv(env[key := "YES"], key, default)
    ensures GetBoolEnv(env[key := "On"], key, default)
    ensures !GetBoolEnv(env[key := "Off"], key, default)
    ensures GetBoolEnv(env[key := "maybe"], key, default) == default
  {
    assert Lower("YES") == "yes";
    assert Lower("On") == "on";
    assert Lower("Off") == "off";
    LowerOfLower("maybe");
  }

  /** `_get_float_env`: an unset or unparsable value gives the default. */
  function GetFloatEnv(env: Env, key: string, default: real, parse: string -> Option<real>): (r: real)
  {
    if key !in env then default
    else match parse(env[key])
      case Some(v) => v
      case None => default
  }

  /** The float reader falls back exactly when the variable is missing or does not parse. */
  lemma FloatEnvCases(env: Env, key: string, default: real, parse: string -> Option<real>)
    ensures (key !in env || parse(env[key]).None?) ==> GetFloatEnv(env, key, default, parse) == default
    ensures key in env && parse(env[key]).Some? ==> GetFloatEnv(env, key, default, parse) == parse(env[key]).value
  {
  }

  datatype AppConfig = AppConfig(
    performanceMonitoring: bool,
    slowQueryThreshold: real,
    slowOperationThreshold: real,
    slowChartThreshold: real,
    environment: string,
    isProduction: bool,
    isDevelopment: bool,
    logLevel: string,
    fileLogging: bool)

  /** `AppConfig.__init__` over a given environment. */
  function LoadConfig(env: Env, parse: string -> Option<real>): (c: AppConfig)
    ensures c.isProduction <==> c.environment == "production"
    ensures c.isDevelopment <==> c.environment == "development"
    ensures !(c.isProduction && c.isDevelopment)
    ensures c.environment == Lower(c.environment)
  {
    var environment := Lower(GetEnv(env, "ENVIRONMENT", "development"));
    LowerIdempotent(GetEnv(env, "ENVIRONMENT", "development"));
    AppConfig(
      GetBoolEnv(env, "ENABLE_PERFORMANCE_MONITORING", true),
      GetFloatEnv(env, "SLOW_QUERY_THRESHOLD", 3.0, parse),
      GetFloatEnv(env, "SLOW_OPERATION_THRESHOLD", 5.0, parse),
      GetFloatEnv(env, "SLOW_CHART_THRESHOLD", 2.0, parse),
      environment,
      environment == "production",
      environment == "development",
      Upper(GetEnv(env, "LOG_LEVEL", "INFO")),
      GetBoolEnv(env, "ENABLE_FILE_LOGGING", false))
  }

  /** With nothing set, the configuration is the development defaults. */
  lemma DefaultConfig(parse: string -> Option<real>)
    ensures LoadConfig(map[], parse) == AppConfig(true, 3.0, 5.0, 2.0, "development", false, true, "INFO", false)
  {
    BoolEnvCases(map[], "ENABLE_PERFORMANCE_MONITORING", true);
    BoolEnvCases(map[], "ENABLE_FILE_LOGGING", false);
    DevelopmentWord();
    InfoWord();
  }

  lemma DevelopmentWord()
    ensures Lower("development") == "development"
  {
    LowerOfLower("development");
  }

  lemma InfoWord()
    ensures Upper("INFO") == "INFO"
  {
    UpperOfUpper("INFO");
  }

  /** ENVIRONMENT is compared case-insensitively: "PRODUCTION" selects production. */
  lemma ProductionAnyCase(env: Env, parse: string -> Option<real>)
    requires "ENVIRONMENT" in env && Lower(env["ENVIRONMENT"]) == "production"
    ensures LoadConfig(env, parse).isProduction && !LoadConfig(env, parse).isDevelopment
  {
  }

  datatype PerformanceConfig = PerformanceConfig(
    enabled: bool,
    queryThreshold: real,
    operationThreshold: real,
    chartThreshold: real,
    environment: string)

  /** `get_performance_config`: the five performance-related attributes, unchanged. */
  function GetPerformanceConfig(c: AppConfig): (p: PerformanceConfig)
    ensures p.enabled == c.performanceMonitoring && p.environment == c.environment
    ensures p.queryThreshold == c.slowQueryThreshold && p.operationThreshold == c.slowOperationThreshold
    ensures p.chartThreshold == c.slowChartThreshold
  {
    PerformanceConfig(c.performanceMonitoring, c.slowQueryThreshold, c.slowOperationThreshold,
      c.slowChartThreshold, c.environment)
  }
}
