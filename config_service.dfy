/**
 * The configuration service of the TypeScript half: environment variables by
 * name. A variable that is set always holds a string, possibly empty.
 */
module ConfigService {
  import opened Wrappers

  /** The process environment. */
  type Env = map<string, string>

  /** get(key, default): the variable's text when it is set, else the default. */
  function Get(env: Env, key: string, default: string): (v: string)
    ensures key in env ==> v == env[key]
    ensures key !in env ==> v == default
  {
    if key in env then env[key] else default
  }

  /** get(key) without a default: the variable's text or undefined. */
  function Lookup(env: Env, key: string): (v: Option<string>)
    ensures v.Some? <==> key in env
    ensures v.Some? ==> v.value == env[key]
  {
    if key in env then Some(env[key]) else None
  }

  /** Why getOrThrow failed: the variable is not set. */
  datatype Missing = Missing(key: string)

  /** getOrThrow(key): the variable's text, or an error naming the missing variable. */
  function GetOrThrow(env: Env, key: string): (r: Result<string, Missing>)
    ensures r.Ok? <==> key in env
    ensures r.Ok? ==> r.value == env[key]
    ensures r.Err? ==> r.error == Missing(key)
  {
    if key in env then Ok(env[key]) else Err(Missing(key))
  }
}
