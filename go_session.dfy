/**
 * Creation of the server-side session store: the storage driver choice, the
 * Redis address and the normalisation of the configured expiration.
 * Durations are int64 nanosecond counts, as Go's time.Duration.
 */
module GoSession {
  import opened GoNumbers
  import opened Config

  const Second: int := 1_000_000_000
  const Hour: int := 3600 * Second
  const DefaultExpiration: int := 24 * Hour
  /** Configured durations below this are read as a number of seconds. */
  const SecondsThreshold: int := 1_000_000

  /** Where session data is kept. `reset` is whether the Redis database is flushed on start. */
  datatype Storage = Memory | Redis(addr: string, password: string, database: int, reset: bool)

  /** The settings the session store is created with. */
  datatype StoreConfig = StoreConfig(
    keyLookup: string,
    cookieHttpOnly: bool,
    cookieSecure: bool,
    cookieSameSite: string,
    cookiePath: string,
    expiration: int,
    storage: Storage)

  /** host:port as %s:%d formats it. */
  function RedisAddress(s: SessionConfig): string {
    s.redisHost + ":" + IntToString(s.redisPort)
  }

  /** Redis only when asked for by name and given a host; memory in every other case. */
  function StorageFor(s: SessionConfig): (st: Storage)
    ensures st.Redis? <==> s.driver == "redis" && s.redisHost != ""
  {
    if s.driver == "redis" && s.redisHost != "" then Redis(RedisAddress(s), s.redisPasswd, s.redisDb, false)
    else Memory
  }

  /** The store's expiration: 0 means 24 hours, small values are seconds, the rest nanoseconds. */
  function SessionExpiration(e: int): (d: int)
    requires InInt64(e)
    ensures InInt64(d)
    ensures e == 0 ==> d == DefaultExpiration
    ensures 0 < e < SecondsThreshold ==> d == e * Second
    ensures e >= SecondsThreshold ==> d == e
  {
    if e == 0 then DefaultExpiration
    else if e < SecondsThreshold then WrapInt64(e * Second)
    else e
  }

  /** session.NewStore: the store configuration derived from the application configuration. */
  method NewStore(cfg: Config) returns (store: StoreConfig)
    requires InInt64(cfg.middleware.session.expiration)
    ensures store.storage == StorageFor(cfg.middleware.session)
    ensures store.expiration == SessionExpiration(cfg.middleware.session.expiration)
    ensures store.keyLookup == "cookie:" + cfg.middleware.session.name
    ensures store.cookiePath == "/"
    ensures store.cookieHttpOnly == cfg.cookie.httpOnly && store.cookieSecure == cfg.cookie.secure
    ensures store.cookieSameSite == cfg.cookie.sameSite
  {
    var s := cfg.middleware.session;
    var storage: Storage;
    var driver := s.driver;
    if driver == "" {
      driver := "memory";
    }
    if driver == "redis" {
      if s.redisHost == "" {
        storage := Memory;
      } else {
        var redisAddr := s.redisHost + ":" + IntToString(s.redisPort);
        storage := Redis(redisAddr, s.redisPasswd, s.redisDb, false);
      }
    } else {
      storage := Memory;
    }
    var expiration := s.expiration;
    if expiration == 0 {
      expiration := 24 * Hour;
    } else if expiration < 1000000 {
      expiration := WrapInt64(expiration * Second);
    }
    store := StoreConfig("cookie:" + s.name, cfg.cookie.httpOnly, cfg.cookie.secure, cfg.cookie.sameSite, "/", expiration, storage);
  }

  /** An empty driver and any unknown driver name give memory storage, as does Redis without a host. */
  lemma MemoryIsTheFallback(s: SessionConfig)
    ensures s.driver != "redis" ==> StorageFor(s) == Memory
    ensures s.redisHost == "" ==> StorageFor(s) == Memory
  {
  }

  /** The Redis address splits back into the configured host and port. */
  lemma RedisAddressParses(s: SessionConfig)
    requires StorageFor(s).Redis?
    ensures ParseAddress(StorageFor(s).addr) == (s.redisHost, IntToString(s.redisPort))
  {
    IntToStringHasNoColon(s.redisPort);
    ParseAddressOfHostPort(s.redisHost, IntToString(s.redisPort));
  }

  /** Normalising an already normalised non-negative expiration changes nothing. */
  lemma SessionExpirationIdempotent(e: int)
    requires 0 <= e <= MaxInt64
    ensures SessionExpiration(SessionExpiration(e)) == SessionExpiration(e)
  {
    if 0 < e < SecondsThreshold {
      assert e * Second >= Second;
    }
  }

  /** A negative configured expiration stays negative: it is scaled as seconds like any small value. */
  lemma NegativeExpirationStaysNegative(e: int)
    requires -9_223_372_036 <= e < 0
    ensures SessionExpiration(e) == e * Second < 0
  {
    assert MinInt64 <= e * Second < 0;
  }
}
