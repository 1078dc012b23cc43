/**
 * The HTTP authentication middleware: the session gate, the user id read back
 * from the request locals, the JWT middleware's configuration and error
 * replies, and the claims of an issued access token. Times are Unix nanosecond
 * counts; token times are whole seconds.
 */
module AuthMiddleware {
  import opened Wrappers
  import opened GoNumbers
  import opened Config
  import GoSession

  /** A value stored in the request locals, by its dynamic Go type. */
  datatype LocalValue = U64(u: nat) | Int(i: int) | Other

  /** The value fits its Go type (uint64 or 64-bit int). */
  predicate WellTyped(v: LocalValue) {
    match v
    case U64(u) => u <= MaxUint64
    case Int(i) => InInt64(i)
    case Other => true
  }

  const UserIdKey: string := "user_id"

  /** Request locals: values set by earlier handlers, keyed by name. */
  class RequestContext {
    var locals: map<string, LocalValue>

    constructor (locals: map<string, LocalValue>)
      ensures this.locals == locals
    {
      this.locals := locals;
    }
  }

  /** The user id a locals value denotes: uint64 as is, int converted, anything else 0. */
  function UserIdOf(v: LocalValue): (id: nat)
    requires WellTyped(v)
    ensures id <= MaxUint64
    ensures v.U64? ==> id == v.u
    ensures v.Int? ==> id == ToUint64(v.i) && (v.i >= 0 ==> id == v.i)
    ensures v.Other? ==> id == 0
  {
    match v
    case U64(u) => u
    case Int(i) => ToUint64(i)
    case Other => 0
  }

  /** GetUserID: the id stored under "user_id", or 0 when none is stored. */
  function GetUserID(locals: map<string, LocalValue>): (id: nat)
    requires UserIdKey in locals ==> WellTyped(locals[UserIdKey])
    ensures id <= MaxUint64
    ensures UserIdKey !in locals ==> id == 0
    ensures UserIdKey in locals && locals[UserIdKey].U64? ==> id == locals[UserIdKey].u
    ensures UserIdKey in locals && locals[UserIdKey].Int? ==> id == ToUint64(locals[UserIdKey].i)
    ensures UserIdKey in locals && locals[UserIdKey].Other? ==> id == 0
  {
    if UserIdKey in locals then UserIdOf(locals[UserIdKey]) else 0
  }

  /** The id is 0 exactly when nothing is stored, the value has another type, or it is itself zero. */
  lemma GetUserIDZero(locals: map<string, LocalValue>)
    requires UserIdKey in locals ==> WellTyped(locals[UserIdKey])
    ensures GetUserID(locals) == 0 <==>
              UserIdKey !in locals || locals[UserIdKey] in {Other, U64(0), Int(0)}
  {
  }

  /** A negative int id converts to a large non-zero uint64, so it passes a "non-zero id" check. */
  lemma NegativeIntIdIsNonZero(i: int)
    requires MinInt64 <= i < 0
    ensures UserIdOf(Int(i)) > MaxInt64
  {
  }

  /** What a middleware does with the request: answer it, or pass it on. */
  datatype HandlerResult = Respond(status: nat, error: string) | Continue

  /**
   * RequireAuth: without a session store the request fails with 500; a session
   * that cannot be loaded or holds no user id fails with 401; otherwise the id is
   * copied into the locals and the request continues.
   */
  method RequireAuth(hasStore: bool, session: Result<map<string, LocalValue>, string>, ctx: RequestContext)
    returns (r: HandlerResult)
    modifies ctx
    ensures !hasStore ==> r == Respond(500, "Session store not initialized") && ctx.locals == old(ctx.locals)
    ensures hasStore && (session.Err? || UserIdKey !in session.value) ==>
              r == Respond(401, "Unauthorized") && ctx.locals == old(ctx.locals)
    ensures hasStore && session.Ok? && UserIdKey in session.value ==>
              r == Continue && ctx.locals == old(ctx.locals)[UserIdKey := session.value[UserIdKey]]
  {
    if !hasStore {
      return Respond(500, "Session store not initialized");
    }
    if session.Err? {
      return Respond(401, "Unauthorized");
    }
    var sess := session.value;
    if UserIdKey !in sess {
      return Respond(401, "Unauthorized");
    }
    ctx.locals := ctx.locals[UserIdKey := sess[UserIdKey]];
    r := Continue;
  }

  /** After RequireAuth lets a request through, handlers read back the session's user id. */
  lemma PassedRequestCarriesSessionUser(locals: map<string, LocalValue>, v: LocalValue)
    requires WellTyped(v)
    ensures GetUserID(locals[UserIdKey := v]) == UserIdOf(v)
  {
  }

  /** The JWT middleware's settings. */
  datatype JwtSettings = JwtSettings(signingKey: string, tokenLookup: string)

  /** Protected: refuses to start (a panic) without a secret; tokens are read from the header, then the cookie. */
  function Protected(cfg: Config): (r: Result<JwtSettings, string>)
    ensures r.Err? <==> cfg.middleware.jwt.secret == ""
    ensures r.Err? ==> r.error == "JWT secret is not set"
    ensures r.Ok? ==> r.value.signingKey == cfg.middleware.jwt.secret
    ensures r.Ok? ==> r.value.tokenLookup == "header:Authorization," + "cookie:" + cfg.cookie.name
  {
    if cfg.middleware.jwt.secret == "" then Err("JWT secret is not set")
    else Ok(JwtSettings(cfg.middleware.jwt.secret, "header:Authorization,cookie:" + cfg.cookie.name))
  }

  /** A JWT middleware error reply: status and message. */
  datatype JwtReply = JwtReply(status: nat, message: string)

  /** jwtError: 400 for a missing or malformed token, 401 for every other failure. */
  function JwtError(err: string): (r: JwtReply)
    ensures r.status == 400 <==> err == "Missing or malformed JWT"
    ensures r.status == 400 || r.status == 401
  {
    if err == "Missing or malformed JWT" then JwtReply(400, "Missing or malformed JWT")
    else JwtReply(401, "Invalid or expired JWT")
  }

  /** Every failure other than a missing or malformed token gets the same reply. */
  lemma JwtErrorsOtherwiseAlike(a: string, b: string)
    requires a != "Missing or malformed JWT" && b != "Missing or malformed JWT"
    ensures JwtError(a) == JwtError(b) == JwtReply(401, "Invalid or expired JWT")
  {
  }

  /** The token lifetime: values below 1000000 are seconds, the rest nanoseconds (0 stays 0). */
  function TokenExpiration(e: int): (d: int)
    requires InInt64(e)
    ensures InInt64(d)
    ensures 0 <= e < GoSession.SecondsThreshold ==> d == e * GoSession.Second
    ensures e >= GoSession.SecondsThreshold ==> d == e
  {
    if e < GoSession.SecondsThreshold then WrapInt64(e * GoSession.Second) else e
  }

  /** jwt.NewNumericDate: the time truncated to whole seconds. */
  function NumericDate(t: int): int {
    t / GoSession.Second
  }

  /** The claims of an access token, times in Unix seconds. */
  datatype Claims = Claims(
    token: string,
    tokenType: string,
    userId: nat,
    expiresAt: int,
    issuedAt: int,
    notBefore: int,
    issuer: string)

  /**
   * GenerateTokenAccess: a Bearer token for the user, issued and valid from now
   * and expiring after the configured lifetime. `signed` is the outcome of signing
   * the claims, which is not modelled.
   */
  function GenerateTokenAccess(cfg: Config, userId: nat, now: int, signed: Result<string, string>): (r: Result<Claims, string>)
    requires InInt64(cfg.middleware.jwt.expiration)
    ensures signed.Err? ==> r == Err(signed.error)
    ensures signed.Ok? ==> r.Ok? && r.value.token == signed.value
    ensures r.Ok? ==> r.value.tokenType == "Bearer" && r.value.userId == userId && r.value.issuer == cfg.middleware.jwt.issuer
    ensures r.Ok? ==> r.value.issuedAt == r.value.notBefore == NumericDate(now)
    ensures r.Ok? ==> r.value.expiresAt == NumericDate(now + TokenExpiration(cfg.middleware.jwt.expiration))
  {
    var expiration := TokenExpiration(cfg.middleware.jwt.expiration);
    var claims := Claims("", "Bearer", userId, NumericDate(now + expiration), NumericDate(now), NumericDate(now), cfg.middleware.jwt.issuer);
    match signed
    case Err(e) => Err(e)
    case Ok(ss) => Ok(claims.(token := ss))
  }

  /** A lifetime given in seconds makes the token expire exactly that many seconds after issue. */
  lemma {:induction false} ExpiryIsSecondsAfterIssue(cfg: Config, userId: nat, now: int, signed: Result<string, string>)
    requires InInt64(cfg.middleware.jwt.expiration) && 0 <= cfg.middleware.jwt.expiration < GoSession.SecondsThreshold
    requires signed.Ok?
    ensures var c := GenerateTokenAccess(cfg, userId, now, signed).value;
            c.expiresAt == c.issuedAt + cfg.middleware.jwt.expiration
  {
    var e := cfg.middleware.jwt.expiration;
    var q := now / GoSession.Second;
    var m := now % GoSession.Second;
    assert now == q * GoSession.Second + m && 0 <= m < GoSession.Second;
    assert now + e * GoSession.Second == (q + e) * GoSession.Second + m;
    SecondsOfWholePlusFraction(q + e, m);
  }

  lemma SecondsOfWholePlusFraction(q: int, m: int)
    requires 0 <= m < GoSession.Second
    ensures (q * GoSession.Second + m) / GoSession.Second == q
  {
  }

  /** An unset (zero) lifetime gives a token that expires in the second it is issued. */
  lemma ZeroLifetimeExpiresAtIssue(cfg: Config, userId: nat, now: int, signed: Result<string, string>)
    requires cfg.middleware.jwt.expiration == 0 && signed.Ok?
    ensures var c := GenerateTokenAccess(cfg, userId, now, signed).value;
            c.expiresAt == c.issuedAt
  {
  }
}
