/**
 * The configuration classes of config.py: the settings each environment class
 * carries, the choice of class from BOT_ENV, the validity check run before the
 * bot starts, and the per-user time zone.
 */
module Config {
  import opened Wrappers
  import opened Text

  datatype Environment = Development | Production | Testing

  /** The attributes of a configuration class that the core reads. */
  datatype Settings = Settings(
    token: string,
    databaseName: string,
    logLevel: string,
    timezone: string,
    maxTaskLength: int,
    maxCategoryLength: int,
    remindersEnabled: bool)

  /** The time zone every configuration class carries (config.py:19). */
  const Timezone: string := "Asia/Jerusalem"

  /**
   * The class for an environment (config.py:141-156). The token is the value of
   * TELEGRAM_BOT_TOKEN when config.py was imported, or "" when it was unset.
   */
  function SettingsFor(env: Environment, token: string): (s: Settings)
    ensures s.token == token && s.timezone == Timezone
    ensures s.maxTaskLength == 500 && s.maxCategoryLength == 50
    ensures s.remindersEnabled <==> env != Testing
  {
    match env
    case Development => Settings(token, "todo_tasks_dev.db", "DEBUG", Timezone, 500, 50, true)
    case Production => Settings(token, "todo_tasks_prod.db", "WARNING", Timezone, 500, 50, true)
    case Testing => Settings(token, ":memory:", "ERROR", Timezone, 500, 50, false)
  }

  /** os.getenv('BOT_ENV', 'development').lower() picks the class (config.py:159-166). */
  function SelectEnvironment(botEnv: Option<string>): Environment
  {
    var name := AsciiLower(botEnv.GetOr("development"));
    if name == "production" then Production
    else if name == "testing" then Testing
    else Development
  }

  /** Unset, and every value that lowers to neither name, selects development. */
  lemma SelectEnvironmentSpec(botEnv: Option<string>)
    ensures botEnv.None? ==> SelectEnvironment(botEnv) == Development
    ensures botEnv.Some? ==>
      (SelectEnvironment(botEnv) == Production <==> AsciiLower(botEnv.value) == "production")
    ensures botEnv.Some? ==>
      (SelectEnvironment(botEnv) == Testing <==> AsciiLower(botEnv.value) == "testing")
    ensures SelectEnvironment(Some("PRODUCTION")) == Production
    ensures SelectEnvironment(Some("Testing")) == Testing
  {
    assert AsciiLower("development") == "development";
    assert AsciiLower("PRODUCTION") == "production";
    assert AsciiLower("Testing") == "testing";
  }

  const TokenError: string := "TELEGRAM_BOT_TOKEN is required"
  const TaskLengthError: string := "MAX_TASK_LENGTH must be positive"
  const CategoryLengthError: string := "MAX_CATEGORY_LENGTH must be positive"

  /**
   * validate (config.py:115-132): the errors are collected in the order token,
   * task length, category length; any error raises ValueError with them joined
   * by ", ", and otherwise the result is True.
   */
  method Validate(s: Settings) returns (r: Result<bool, string>)
    ensures r.Failure? <==> (s.token == "" || s.maxTaskLength <= 0 || s.maxCategoryLength <= 0)
    ensures r.Success? ==> r.value
    ensures r.Failure? ==> r.error == "Configuration errors: " + Join(ValidationErrors(s), ", ")
  {
    var errors: seq<string> := [];
    if s.token == "" {
      errors := errors + [TokenError];
    }
    if s.maxTaskLength <= 0 {
      errors := errors + [TaskLengthError];
    }
    if s.maxCategoryLength <= 0 {
      errors := errors + [CategoryLengthError];
    }
    ValidationErrorsSpec(s);
    assert errors == ValidationErrors(s);
    if errors != [] {
      r := Failure("Configuration errors: " + Join(errors, ", "));
    } else {
      r := Success(true);
    }
  }

  /** The failed checks, in the order they are made. */
  function ValidationErrors(s: Settings): seq<string>
  {
    (if s.token == "" then [TokenError] else [])
    + (if s.maxTaskLength <= 0 then [TaskLengthError] else [])
    + (if s.maxCategoryLength <= 0 then [CategoryLengthError] else [])
  }

  /**
   * Each failed check is listed once and no other message is: the list is empty
   * exactly when every check passes, and the token message comes first when present.
   */
  lemma ValidationErrorsSpec(s: Settings)
    ensures var e := ValidationErrors(s);
      && (TokenError in e <==> s.token == "")
      && (TaskLengthError in e <==> s.maxTaskLength <= 0)
      && (CategoryLengthError in e <==> s.maxCategoryLength <= 0)
      && (forall m :: m in e ==> m == TokenError || m == TaskLengthError || m == CategoryLengthError)
      && |e| == (if s.token == "" then 1 else 0) + (if s.maxTaskLength <= 0 then 1 else 0) + (if s.maxCategoryLength <= 0 then 1 else 0)
      && (e == [] <==> (s.token != "" && s.maxTaskLength > 0 && s.maxCategoryLength > 0))
      && (s.token == "" ==> e[0] == TokenError)
  {
    assert TokenError != TaskLengthError && TokenError != CategoryLengthError && TaskLengthError != CategoryLengthError by {
      assert TokenError[0] != TaskLengthError[0];
      assert TokenError[0] != CategoryLengthError[0];
      assert TaskLengthError[4] != CategoryLengthError[4];
    }
  }

  /**
   * Every shipped class has positive limits, so the only way validate fails is
   * an empty token, and then the message names only the token.
   */
  lemma ShippedSettingsValidate(env: Environment, token: string)
    ensures ValidationErrors(SettingsFor(env, token)) == if token == "" then [TokenError] else []
    ensures Join(ValidationErrors(SettingsFor(env, "")), ", ") == TokenError
  {
  }

  /** get_user_timezone (config.py:134-138): the configured zone, whoever asks. */
  function GetUserTimezone(s: Settings, user: int): (tz: string)
  {
    s.timezone
  }

  /**
   * No per-user zones exist yet: under every environment each user gets the
   * same zone, Asia/Jerusalem.
   */
  lemma UserTimezoneFixed(env: Environment, token: string, u: int, v: int)
    ensures var s := SettingsFor(env, token);
      GetUserTimezone(s, u) == GetUserTimezone(s, v) == Timezone == "Asia/Jerusalem"
  {
  }
}
