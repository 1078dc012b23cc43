/**
 * The Logto client settings: four required environment variables, read once,
 * and the OAuth endpoints derived from the Logto endpoint.
 */
module LogtoConfig {
  import opened Wrappers
  import opened ConfigService

  /** The OAuth settings passed to the Logto strategy. */
  datatype OAuthConfig = OAuthConfig(
    clientId: string,
    clientSecret: string,
    authorizationUrl: string,
    tokenUrl: string,
    userInfoUrl: string,
    callbackUrl: string,
    scope: seq<string>)

  /** LogtoConfigService with the values its constructor read. */
  datatype LogtoConfigService = LogtoConfigService(appId: string, appSecret: string, endpoint: string, redirectUri: string) {
    function GetAppId(): string { appId }
    function GetAppSecret(): string { appSecret }
    function GetEndpoint(): string { endpoint }
    function GetRedirectUri(): string { redirectUri }

    /** getOAuthConfig: the client credentials, the three OIDC endpoints under the Logto endpoint, the callback and the scopes. */
    function GetOAuthConfig(): (c: OAuthConfig)
      ensures c.clientId == appId && c.clientSecret == appSecret && c.callbackUrl == redirectUri
      ensures c.scope == ["openid", "profile", "email"]
      ensures c.authorizationUrl == endpoint + "/oidc/auth"
      ensures c.tokenUrl == endpoint + "/oidc/token"
      ensures c.userInfoUrl == endpoint + "/oidc/me"
    {
      OAuthConfig(appId, appSecret, endpoint + "/oidc/auth", endpoint + "/oidc/token", endpoint + "/oidc/me", redirectUri, ["openid", "profile", "email"])
    }
  }

  /** The constructor: each variable read with getOrThrow, in order; the first missing one aborts construction. */
  function NewLogtoConfigService(env: Env): (r: Result<LogtoConfigService, Missing>)
    ensures r.Ok? <==> "LOGTO_APP_ID" in env && "LOGTO_APP_SECRET" in env && "LOGTO_ENDPOINT" in env && "LOGTO_REDIRECT_URI" in env
    ensures "LOGTO_APP_ID" !in env ==> r == Err(Missing("LOGTO_APP_ID"))
  {
    var appId := GetOrThrow(env, "LOGTO_APP_ID");
    if appId.Err? then Err(appId.error)
    else
      var appSecret := GetOrThrow(env, "LOGTO_APP_SECRET");
      if appSecret.Err? then Err(appSecret.error)
      else
        var endpoint := GetOrThrow(env, "LOGTO_ENDPOINT");
        if endpoint.Err? then Err(endpoint.error)
        else
          var redirectUri := GetOrThrow(env, "LOGTO_REDIRECT_URI");
          if redirectUri.Err? then Err(redirectUri.error)
          else Ok(LogtoConfigService(appId.value, appSecret.value, endpoint.value, redirectUri.value))
  }

  /** The getters give back exactly the environment values the constructor read. */
  lemma GettersReturnEnvironment(env: Env)
    requires NewLogtoConfigService(env).Ok?
    ensures var s := NewLogtoConfigService(env).value;
            && s.GetAppId() == env["LOGTO_APP_ID"]
            && s.GetAppSecret() == env["LOGTO_APP_SECRET"]
            && s.GetEndpoint() == env["LOGTO_ENDPOINT"]
            && s.GetRedirectUri() == env["LOGTO_REDIRECT_URI"]
  {
  }

  /** The error names the first missing variable in reading order, at each of the four positions. */
  lemma FirstMissingIsReported(env: Env)
    ensures "LOGTO_APP_ID" !in env ==> NewLogtoConfigService(env) == Err(Missing("LOGTO_APP_ID"))
    ensures "LOGTO_APP_ID" in env && "LOGTO_APP_SECRET" !in env ==>
              NewLogtoConfigService(env) == Err(Missing("LOGTO_APP_SECRET"))
    ensures "LOGTO_APP_ID" in env && "LOGTO_APP_SECRET" in env && "LOGTO_ENDPOINT" !in env ==>
              NewLogtoConfigService(env) == Err(Missing("LOGTO_ENDPOINT"))
    ensures "LOGTO_APP_ID" in env && "LOGTO_APP_SECRET" in env && "LOGTO_ENDPOINT" in env && "LOGTO_REDIRECT_URI" !in env ==>
              NewLogtoConfigService(env) == Err(Missing("LOGTO_REDIRECT_URI"))
  {
  }

  /** The three OIDC endpoints are distinct and all lie under the Logto endpoint. */
  lemma OidcEndpointsAreDistinct(s: LogtoConfigService)
    ensures var c := s.GetOAuthConfig();
            && c.authorizationUrl != c.tokenUrl && c.tokenUrl != c.userInfoUrl && c.userInfoUrl != c.authorizationUrl
            && c.authorizationUrl[..|s.endpoint|] == c.tokenUrl[..|s.endpoint|] == c.userInfoUrl[..|s.endpoint|] == s.endpoint
  {
    var c := s.GetOAuthConfig();
    var k := |s.endpoint| + 6;
    assert c.authorizationUrl[k] == 'a';
    assert c.tokenUrl[k] == 't';
    assert c.userInfoUrl[k] == 'm';
  }
}
