/** The session settings read from the environment, with their defaults. */
module SessionConfig {
  import opened Wrappers
  import opened JsValues
  import opened ConfigService

  /** The session store implementation to use. */
  datatype StoreType = Local | Redis

  /** getStoreType: SESSION_STORE_TYPE when it is 'local' or 'redis', else 'local'. */
  function GetStoreType(env: Env): (t: StoreType)
    ensures t == Redis <==> Lookup(env, "SESSION_STORE_TYPE") == Some("redis")
  {
    var storeType := Get(env, "SESSION_STORE_TYPE", "local");
    if storeType != "local" && storeType != "redis" then Local
    else if storeType == "local" then Local
    else Redis
  }

  /** Anything but 'redis', an unset variable included, selects the local store. */
  lemma LocalIsTheFallback(env: Env)
    requires Lookup(env, "SESSION_STORE_TYPE") != Some("redis")
    ensures GetStoreType(env) == Local
  {
  }

  /** getSecret: SESSION_SECRET, which must be set. */
  function GetSecret(env: Env): (r: Result<string, Missing>)
    ensures r.Err? <==> "SESSION_SECRET" !in env
    ensures r.Ok? ==> r.value == env["SESSION_SECRET"]
  {
    GetOrThrow(env, "SESSION_SECRET")
  }

  /** getCookieName: SESSION_COOKIE_NAME, by default 'diagram_session'. */
  function GetCookieName(env: Env): (name: string)
    ensures "SESSION_COOKIE_NAME" !in env ==> name == "diagram_session"
    ensures "SESSION_COOKIE_NAME" in env ==> name == env["SESSION_COOKIE_NAME"]
  {
    Get(env, "SESSION_COOKIE_NAME", "diagram_session")
  }

  const HourMs: int := 60 * 60 * 1000

  /**
   * getMaxAge: SESSION_MAX_AGE_HOURS hours in milliseconds, 24 hours when unset.
   * A set variable is text, which the multiplication converts to a number.
   */
  function GetMaxAge(env: Env): (ms: JsNumber)
    ensures "SESSION_MAX_AGE_HOURS" !in env ==> ms == Finite(86400000)
    ensures "SESSION_MAX_AGE_HOURS" in env ==> ms == Times(NumberOfText(env["SESSION_MAX_AGE_HOURS"]), HourMs)
  {
    var hours := if "SESSION_MAX_AGE_HOURS" in env then NumberOfText(env["SESSION_MAX_AGE_HOURS"]) else Finite(24);
    Times(Times(Times(hours, 60), 60), 1000)
  }

  /** A whole number of hours h gives h * 3600000 ms; an empty variable gives 0 and a non-numeric one NaN. */
  lemma MaxAgeOfHours(env: Env)
    requires "SESSION_MAX_AGE_HOURS" in env
    ensures GoNumbers.AllDigits(env["SESSION_MAX_AGE_HOURS"]) ==>
              GetMaxAge(env) == Finite(GoNumbers.DigitsValue(env["SESSION_MAX_AGE_HOURS"]) * 3600000)
    ensures env["SESSION_MAX_AGE_HOURS"] == "" ==> GetMaxAge(env) == Finite(0)
    ensures env["SESSION_MAX_AGE_HOURS"] == "24h" ==> GetMaxAge(env).NaN?
  {
    var text := env["SESSION_MAX_AGE_HOURS"];
    if text == "24h" {
      assert text[2] == 'h' && !GoNumbers.IsDigit(text[2]);
    }
  }

  /** isProduction: NODE_ENV is exactly 'production'. */
  function IsProduction(env: Env): (p: bool)
    ensures p <==> "NODE_ENV" in env && env["NODE_ENV"] == "production"
  {
    Lookup(env, "NODE_ENV") == Some("production")
  }

  /** getRedisUrl: REDIS_URL, by default the local Redis server. */
  function GetRedisUrl(env: Env): (url: string)
    ensures "REDIS_URL" !in env ==> url == "redis://localhost:6379"
    ensures "REDIS_URL" in env ==> url == env["REDIS_URL"]
  {
    Get(env, "REDIS_URL", "redis://localhost:6379")
  }
}
