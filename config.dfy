/**
 * The application configuration (the parts later checks and components read),
 * its start-up validation, and the host:port splitter.
 */
module Config {
  import opened Wrappers
  import opened GoNumbers
  import opened GoStrings

  datatype TlsConfig = TlsConfig(enable: bool, certFile: string, keyFile: string)
  datatype AppConfig = AppConfig(name: string, port: string, frontendUrl: string, production: bool, tls: TlsConfig)
  datatype DbConfig = DbConfig(mysqlDsn: string, postgresDsn: string)
  /** expiration is a time.Duration: a count of nanoseconds, or of seconds when small (see the session and token code). */
  datatype JwtConfig = JwtConfig(secret: string, issuer: string, expiration: int)
  datatype CorsConfig = CorsConfig(enable: bool, allowOrigins: string, allowHeaders: string)
  datatype SessionConfig = SessionConfig(
    enable: bool, name: string, driver: string, expiration: int,
    redisHost: string, redisPort: int, redisPasswd: string, redisDb: int)
  datatype MiddlewareConfig = MiddlewareConfig(jwt: JwtConfig, cors: CorsConfig, session: SessionConfig)
  datatype CookieConfig = CookieConfig(name: string, httpOnly: bool, secure: bool, sameSite: string)
  datatype FtpConfig = FtpConfig(host: string, port: int, user: string, password: string, baseDir: string, publicUrl: string)
  datatype S3Config = S3Config(endpoint: string, accessKey: string, secretKey: string, bucket: string, region: string, useSsl: bool)
  datatype StorageConfig = StorageConfig(driver: string, localPath: string, ftp: FtpConfig, s3: S3Config)
  datatype Config = Config(app: AppConfig, db: DbConfig, middleware: MiddlewareConfig, cookie: CookieConfig, storage: StorageConfig)

  /** One failed check of Validate; Message is the text it reports. */
  datatype ConfigError =
    | NameRequired
    | PortRequired
    | InvalidPort(port: string)
    | DatabaseRequired
    | SecretRequired
    | SecretTooShort
    | CertRequired
    | KeyRequired
    | SessionNameRequired
    | InvalidDriver(driver: string)
    | LocalPathRequired
    | BucketRequired
    | S3KeysRequired
    | FtpHostRequired
  {
    function Message(): string {
      match this
      case NameRequired => "app.name is required"
      case PortRequired => "app.port is required"
      case InvalidPort(port) => "app.port '" + port + "' is not a valid port number"
      case DatabaseRequired => "database configuration is required (either postgres or mysql)"
      case SecretRequired => "middleware.jwt.secret is required when session is disabled"
      case SecretTooShort => "middleware.jwt.secret should be at least 32 characters for security"
      case CertRequired => "app.tls.cert_file is required when TLS is enabled"
      case KeyRequired => "app.tls.key_file is required when TLS is enabled"
      case SessionNameRequired => "middleware.session.name is required when session is enabled"
      case InvalidDriver(driver) => "storage.driver '" + driver + "' is not valid (must be: local, ftp, or s3)"
      case LocalPathRequired => "storage.local.path is required when storage driver is 'local'"
      case BucketRequired => "storage.s3.bucket is required when storage driver is 's3'"
      case S3KeysRequired => "storage.s3.access_key and secret_key are required when storage driver is 's3'"
      case FtpHostRequired => "storage.ftp.host is required when storage driver is 'ftp'"
    }
  }

  /** len(secret) is counted in bytes. */
  const SecretMinBytes: nat := 32

  /** The text the port check parses: the piece after the first colon when there is one. */
  function PortText(port: string): string {
    if ':' in port then Split(port, ':')[1] else port
  }

  predicate PortParses(port: string) {
    Atoi(PortText(port)).Some?
  }

  predicate KnownStorageDriver(d: string) {
    d == "" || d == "local" || d == "ftp" || d == "s3"
  }

  /** The failures of each group of checks, in the order they are reported. */
  function AppFailures(c: Config): seq<ConfigError> {
    (if c.app.name == "" then [NameRequired] else [])
    + (if c.app.port == "" then [PortRequired]
       else if !PortParses(c.app.port) then [InvalidPort(c.app.port)]
       else [])
  }

  function DbFailures(c: Config): seq<ConfigError> {
    if c.db.postgresDsn == "" && c.db.mysqlDsn == "" then [DatabaseRequired] else []
  }

  function JwtFailures(c: Config): seq<ConfigError> {
    if c.middleware.session.enable then []
    else
      (if c.middleware.jwt.secret == "" then [SecretRequired] else [])
      + (if Utf8Len(c.middleware.jwt.secret) < SecretMinBytes then [SecretTooShort] else [])
  }

  function TlsFailures(c: Config): seq<ConfigError> {
    if !c.app.tls.enable then []
    else
      (if c.app.tls.certFile == "" then [CertRequired] else [])
      + (if c.app.tls.keyFile == "" then [KeyRequired] else [])
  }

  function SessionFailures(c: Config): seq<ConfigError> {
    if c.middleware.session.enable && c.middleware.session.name == "" then [SessionNameRequired] else []
  }

  function DriverFailures(c: Config): seq<ConfigError> {
    if !KnownStorageDriver(c.storage.driver) then [InvalidDriver(c.storage.driver)] else []
  }

  function LocalFailures(c: Config): seq<ConfigError> {
    if c.storage.driver == "local" && c.storage.localPath == "" then [LocalPathRequired] else []
  }

  function S3Failures(c: Config): seq<ConfigError> {
    var s3 := c.storage.s3;
    if c.storage.driver != "s3" then []
    else
      (if s3.bucket == "" then [BucketRequired] else [])
      + (if s3.accessKey == "" || s3.secretKey == "" then [S3KeysRequired] else [])
  }

  function FtpFailures(c: Config): seq<ConfigError> {
    if c.storage.driver == "ftp" && c.storage.ftp.host == "" then [FtpHostRequired] else []
  }

  function StorageFailures(c: Config): seq<ConfigError> {
    DriverFailures(c) + LocalFailures(c) + S3Failures(c) + FtpFailures(c)
  }

  /** Every failed check of the configuration, in order. */
  function Failures(c: Config): seq<ConfigError> {
    AppFailures(c) + DbFailures(c) + JwtFailures(c) + TlsFailures(c) + SessionFailures(c) + StorageFailures(c)
  }

  /** The single error that reports every failure. */
  function Report(errs: seq<ConfigError>): string {
    "configuration validation failed:\n  - " + Join(seq(|errs|, i requires 0 <= i < |errs| => errs[i].Message()), "\n  - ")
  }

  /** The production CORS wildcard only produces a log warning. */
  predicate CorsWarning(c: Config) {
    c.middleware.cors.enable && c.app.production
    && (c.middleware.cors.allowOrigins == "" || c.middleware.cors.allowOrigins == "*")
  }

  /** Every condition Validate checks, stated positively. */
  predicate Acceptable(c: Config) {
    && c.app.name != ""
    && c.app.port != "" && PortParses(c.app.port)
    && (c.db.postgresDsn != "" || c.db.mysqlDsn != "")
    && (!c.middleware.session.enable ==> Utf8Len(c.middleware.jwt.secret) >= SecretMinBytes)
    && (c.app.tls.enable ==> c.app.tls.certFile != "" && c.app.tls.keyFile != "")
    && (c.middleware.session.enable ==> c.middleware.session.name != "")
    && KnownStorageDriver(c.storage.driver)
    && (c.storage.driver == "local" ==> c.storage.localPath != "")
    && (c.storage.driver == "s3" ==> c.storage.s3.bucket != "" && c.storage.s3.accessKey != "" && c.storage.s3.secretKey != "")
    && (c.storage.driver == "ftp" ==> c.storage.ftp.host != "")
  }

  /** The app checks of Validate, appended to errs. */
  method CheckApp(c: Config, errs: seq<ConfigError>) returns (out: seq<ConfigError>)
    ensures out == errs + AppFailures(c)
  {
    out := errs;
    if c.app.name == "" {
      out := out + [NameRequired];
    }
    if c.app.port == "" {
      out := out + [PortRequired];
    } else {
      var portStr := c.app.port;
      if ':' in portStr {
        portStr := Split(portStr, ':')[1];
      }
      if Atoi(portStr).None? {
        out := out + [InvalidPort(c.app.port)];
      }
    }
  }

  /** The database and JWT checks of Validate, appended to errs. */
  method CheckSecrets(c: Config, errs: seq<ConfigError>) returns (out: seq<ConfigError>)
    ensures out == errs + DbFailures(c) + JwtFailures(c)
  {
    out := errs;
    if c.db.postgresDsn == "" && c.db.mysqlDsn == "" {
      out := out + [DatabaseRequired];
    }
    ghost var afterDb := out;
    if !c.middleware.session.enable {
      if c.middleware.jwt.secret == "" {
        out := out + [SecretRequired];
      }
      if Utf8Len(c.middleware.jwt.secret) < SecretMinBytes {
        out := out + [SecretTooShort];
      }
    }
    assert out == afterDb + JwtFailures(c);
  }

  /** The TLS and session checks of Validate, appended to errs. */
  method CheckTlsAndSession(c: Config, errs: seq<ConfigError>) returns (out: seq<ConfigError>)
    ensures out == errs + TlsFailures(c) + SessionFailures(c)
  {
    out := errs;
    if c.app.tls.enable {
      if c.app.tls.certFile == "" {
        out := out + [CertRequired];
      }
      if c.app.tls.keyFile == "" {
        out := out + [KeyRequired];
      }
    }
    ghost var afterTls := out;
    if c.middleware.session.enable && c.middleware.session.name == "" {
      out := out + [SessionNameRequired];
    }
    assert out == afterTls + SessionFailures(c);
  }

  /** The storage checks of Validate, appended to errs. */
  method CheckStorage(c: Config, errs: seq<ConfigError>) returns (out: seq<ConfigError>)
    ensures out == errs + StorageFailures(c)
  {
    out := errs;
    var s := c.storage;
    if s.driver != "" && s.driver != "local" && s.driver != "ftp" && s.driver != "s3" {
      out := out + [InvalidDriver(s.driver)];
    }
    if s.driver == "local" && s.localPath == "" {
      out := out + [LocalPathRequired];
    }
    ghost var afterLocal := out;
    if s.driver == "s3" {
      if s.s3.bucket == "" {
        out := out + [BucketRequired];
      }
      if s.s3.accessKey == "" || s.s3.secretKey == "" {
        out := out + [S3KeysRequired];
      }
    }
    assert out == afterLocal + S3Failures(c);
    if s.driver == "ftp" {
      if s.ftp.host == "" {
        out := out + [FtpHostRequired];
      }
    }
  }

  /**
   * Config.Validate: runs every check, collecting each failure, and fails with one
   * error listing them all; the CORS check only warns.
   */
  method Validate(c: Config) returns (r: Outcome<string>, warned: bool)
    ensures r == (if Failures(c) == [] then Pass else Fail(Report(Failures(c))))
    ensures warned == CorsWarning(c)
  {
    var errs := CheckApp(c, []);
    assert errs == AppFailures(c);
    errs := CheckSecrets(c, errs);
    errs := CheckTlsAndSession(c, errs);
    errs := CheckStorage(c, errs);
    assert errs == Failures(c);
    warned := false;
    if c.middleware.cors.enable && c.app.production {
      if c.middleware.cors.allowOrigins == "" || c.middleware.cors.allowOrigins == "*" {
        warned := true;
      }
    }
    if |errs| > 0 {
      return Fail(Report(errs)), warned;
    }
    r := Pass;
  }

  /** Validation passes exactly when every check holds. */
  lemma ValidateAcceptsExactly(c: Config)
    ensures Failures(c) == [] <==> Acceptable(c)
  {
    if Acceptable(c) {
      assert c.middleware.jwt.secret != "" || c.middleware.session.enable;
    }
  }

  /** With sessions disabled, an empty secret is reported as missing and as too short. */
  lemma EmptySecretFailsTwice(c: Config)
    requires !c.middleware.session.enable && c.middleware.jwt.secret == ""
    ensures SecretRequired in Failures(c) && SecretTooShort in Failures(c)
  {
    assert JwtFailures(c) == [SecretRequired, SecretTooShort];
    assert SecretRequired in JwtFailures(c) && SecretTooShort in JwtFailures(c);
  }

  /** A secret of 32 or more bytes triggers neither secret check, whatever else fails. */
  lemma LongSecretPasses(c: Config)
    requires Utf8Len(c.middleware.jwt.secret) >= SecretMinBytes
    ensures SecretRequired !in Failures(c) && SecretTooShort !in Failures(c)
  {
    assert JwtFailures(c) == [];
    OnlyJwtChecksSecret(c);
    var a, d, t, n, st := AppFailures(c), DbFailures(c), TlsFailures(c), SessionFailures(c), StorageFailures(c);
    assert Failures(c) == a + d + [] + t + n + st;
  }

  /** No group but the JWT checks reports a secret failure. */
  lemma OnlyJwtChecksSecret(c: Config)
    ensures SecretRequired !in AppFailures(c) && SecretTooShort !in AppFailures(c)
    ensures SecretRequired !in DbFailures(c) && SecretTooShort !in DbFailures(c)
    ensures SecretRequired !in TlsFailures(c) && SecretTooShort !in TlsFailures(c)
    ensures SecretRequired !in SessionFailures(c) && SecretTooShort !in SessionFailures(c)
    ensures SecretRequired !in StorageFailures(c) && SecretTooShort !in StorageFailures(c)
  {
    AppChecksNoSecret(c);
    StorageChecksNoSecret(c);
  }

  lemma AppChecksNoSecret(c: Config)
    ensures SecretRequired !in AppFailures(c) && SecretTooShort !in AppFailures(c)
  {
  }

  lemma StorageChecksNoSecret(c: Config)
    ensures SecretRequired !in StorageFailures(c) && SecretTooShort !in StorageFailures(c)
  {
  }

  /** The CORS settings and the production flag never cause a validation failure. */
  lemma CorsNeverFails(c: Config, cors: CorsConfig, production: bool)
    ensures Failures(c.(middleware := c.middleware.(cors := cors), app := c.app.(production := production))) == Failures(c)
  {
    var c2 := c.(middleware := c.middleware.(cors := cors), app := c.app.(production := production));
    assert c2.app.name == c.app.name && c2.app.port == c.app.port && c2.app.tls == c.app.tls;
    assert c2.db == c.db && c2.storage == c.storage;
    assert c2.middleware.jwt == c.middleware.jwt && c2.middleware.session == c.middleware.session;
    assert AppFailures(c2) == AppFailures(c);
    assert DbFailures(c2) == DbFailures(c);
    assert JwtFailures(c2) == JwtFailures(c);
    assert TlsFailures(c2) == TlsFailures(c);
    assert SessionFailures(c2) == SessionFailures(c);
    assert StorageFailures(c2) == StorageFailures(c);
  }

  /** The port check accepts any integer, including negative numbers and numbers above 65535. */
  lemma PortRangeIsNotChecked()
    ensures PortParses("-1") && PortParses("99999") && !PortParses("http")
  {
    NegativePortParses();
    LargePortParses();
    assert !IsDigit("http"[0]);
  }

  lemma NegativePortParses()
    ensures PortParses("-1")
  {
    AtoiReadsFormat(-1);
    assert IntToString(-1) == "-1";
  }

  lemma LargePortParses()
    ensures PortParses("99999")
  {
    AtoiReadsFormat(99999);
    assert NatToString(99999) == "99999";
  }

  /** "host:port" is judged by the port, and a bare number by itself. */
  lemma HostPortIsJudgedByPort(host: string, n: int)
    requires ':' !in host && InInt64(n)
    ensures PortParses(host + ":" + IntToString(n))
    ensures PortParses(IntToString(n))
  {
    AtoiReadsFormat(n);
    IntToStringHasNoColon(n);
    var s := IntToString(n);
    SplitJoin([host, s], ':');
    assert Join([host, s], ":") == host + ":" + s;
    assert ':' in host + ":" + s by {
      assert (host + ":" + s)[|host|] == ':';
    }
  }

  /** ParseAddress: splits at the last colon when it is not the first character. */
  function ParseAddress(raw: string): (r: (string, string))
    ensures LastIndexOf(raw, ':') > 0 ==> r.0 + ":" + r.1 == raw && ':' !in r.1
    ensures LastIndexOf(raw, ':') <= 0 ==> r == (raw, "")
  {
    var i := LastIndexOf(raw, ':');
    if i > 0 then
      assert raw == raw[..i] + ":" + raw[i + 1..];
      var port := raw[i + 1..];
      assert forall k :: 0 <= k < |port| ==> port[k] == raw[i + 1 + k];
      (raw[..i], raw[i + 1..])
    else (raw, "")
  }

  /** A non-empty host joined to a colon-free port is split back into the two. */
  lemma ParseAddressOfHostPort(host: string, port: string)
    requires host != "" && ':' !in port
    ensures ParseAddress(host + ":" + port) == (host, port)
  {
    var raw := host + ":" + port;
    assert raw[|host|] == ':';
    assert forall k :: |host| < k < |raw| ==> raw[k] == port[k - |host| - 1];
    assert LastIndexOf(raw, ':') == |host|;
    assert raw[..|host|] == host;
    assert raw[|host| + 1..] == port;
  }

  /** A leading colon does not count, so ":8080" is all host and no port. */
  lemma ParseAddressLeadingColon()
    ensures ParseAddress(":8080") == (":8080", "")
  {
    var raw := ":8080";
    assert raw[0] == ':';
    assert forall k :: 0 < k < |raw| ==> raw[k] != ':';
    assert LastIndexOf(raw, ':') == 0;
  }
}
