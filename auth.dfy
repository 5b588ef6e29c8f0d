/**
 * `AuthService` of bridge-react/src/services/auth.service.ts: builds the
 * authorization URL (section 4.1.1 of RFC 6749), exchanges the code the
 * callback brings for a token triple, and offers a refresh that returns the
 * new triple without storing it.
 *
 * The browser's origin and its presence are a parameter `window`
 * (None when there is no `window`); the current page address that `login`
 * assigns is the field `location`.
 */
module Auth {
  import opened Base
  import opened Uri
  import opened Config
  import opened Tokens

  const NotInitialized := "AuthService has not been properly initialized."
  const NoCode := "No authorization code provided"

  /** A request the service sends: the code exchange, or a refresh. */
  datatype Request =
    | CodeExchange(url: string, code: string)
    | Refresh(refresh: RefreshRequest)

  /**
   * The redirect URI of createLoginUrl: the caller's when non-empty, else the
   * configured callback URL when non-empty, else the origin's OAuth callback
   * path.
   */
  function ResolveRedirectUri(explicit: Option<string>, config: BridgeConfig, origin: string): (r: string)
    ensures Truthy(explicit) ==> r == explicit.value
    ensures !Truthy(explicit) && Truthy(config.callbackUrl) ==> r == config.callbackUrl.value
    ensures !Truthy(explicit) && !Truthy(config.callbackUrl) ==> r == origin + "/auth/oauth-callback"
    ensures r != ""
  {
    OrElse(explicit, OrElse(config.callbackUrl, Some(origin + "/auth/oauth-callback"))).value
  }

  /** Everything of the login URL before the encoded redirect URI. */
  function LoginUrlPrefix(config: BridgeConfig): string {
    Interpolate(config.authBaseUrl) + "/url/login/" + Interpolate(config.appId) + "?cv_env=bridge&redirect_uri="
  }

  /** The login URL for a resolved redirect URI. */
  function LoginUrl(config: BridgeConfig, redirectUri: string): string {
    LoginUrlPrefix(config) + EncodeURIComponent(redirectUri)
  }

  /**
   * The redirect URI travels intact: what follows `redirect_uri=` holds no
   * raw `&`, `=`, `?`, `/` or `#`, so it is the whole of the last query
   * parameter, and it decodes back to the redirect URI.
   */
  lemma LoginUrlCarriesRedirect(config: BridgeConfig, redirectUri: string)
    ensures var url, p := LoginUrl(config, redirectUri), LoginUrlPrefix(config);
      && |p| <= |url| && url[..|p|] == p
      && DecodeURIComponent(url[|p|..]) == Some(redirectUri)
      && (forall i :: |p| <= i < |url| ==> url[i] !in "&=?/#")
  {
    var url, p := LoginUrl(config, redirectUri), LoginUrlPrefix(config);
    assert url[|p|..] == EncodeURIComponent(redirectUri);
    DecodeEncode(Component, redirectUri);
    EncodedHasNoDelimiters(Component, redirectUri);
    forall i | |p| <= i < |url|
      ensures url[i] !in "&=?/#"
    {
      assert url[i] == Encode(Component, redirectUri)[i - |p|];
    }
  }

  /**
   * Under the provider's merged configuration the base URL is always present,
   * so the login URL never starts with "undefined".
   */
  lemma MergedLoginUrlBase(src: EnvSource, props: Option<BridgeConfig>, redirectUri: string)
    ensures var c := MergedConfig(src, props);
      LoginUrl(c, redirectUri) == c.authBaseUrl.value + "/url/login/" + Interpolate(c.appId)
        + "?cv_env=bridge&redirect_uri=" + EncodeURIComponent(redirectUri)
  {
    MergedKeepsDefaults(src, props);
  }

  /** The code-exchange endpoint. */
  function CodeExchangeUrl(config: BridgeConfig): string {
    Interpolate(config.authBaseUrl) + "/token/code/" + Interpolate(config.appId)
  }

  /** The message thrown for a non-ok code exchange. */
  function ExchangeFailure(status: int, statusText: string, text: string): string {
    "Failed to exchange code for tokens: " + IntToString(status) + " " + statusText + " - " + text
  }

  class AuthService {
    const tokens: TokenService
    var config: Option<BridgeConfig>
    var initialized: bool
    var location: Option<string>
    var requests: seq<Request>

    ghost predicate Valid()
      reads this, tokens, tokens.store
    {
      tokens.Valid()
    }

    /** `initialized` is set and a configuration is held. */
    predicate Ready()
      reads this
    {
      initialized && config.Some?
    }

    constructor (tokens: TokenService)
      requires tokens.Valid()
      ensures Valid() && this.tokens == tokens
      ensures config == None && !initialized && location == None && requests == []
    {
      this.tokens := tokens;
      config := None;
      initialized := false;
      location := None;
      requests := [];
    }

    method Init(cfg: BridgeConfig)
      modifies this
      ensures Ready() && config == Some(cfg)
      ensures location == old(location) && requests == old(requests)
    {
      config := Some(cfg);
      initialized := true;
    }

    /** createLoginUrl. */
    function CreateLoginUrl(redirectUri: Option<string>, window: Option<string>): (r: Outcome<string>)
      reads this
      ensures r.Thrown? <==> !Ready()
      ensures r.Thrown? ==> r.message == NotInitialized
      ensures r.Returned? ==>
        r.value == LoginUrl(config.value, ResolveRedirectUri(redirectUri, config.value, window.GetOr("")))
    {
      if !Ready() then Thrown(NotInitialized)
      else Returned(LoginUrl(config.value, ResolveRedirectUri(redirectUri, config.value, window.GetOr(""))))
    }

    /** login: navigate the window to the login URL. */
    method Login(redirectUri: Option<string>, window: Option<string>) returns (r: Outcome<()>)
      modifies this
      ensures r.Thrown? <==> !Ready()
      ensures r.Thrown? ==> r.message == NotInitialized && location == old(location)
      ensures r.Returned? && window.Some? ==> location == Some(CreateLoginUrl(redirectUri, window).value)
      ensures r.Returned? && window.None? ==> location == old(location)
      ensures config == old(config) && initialized == old(initialized) && requests == old(requests)
    {
      if !Ready() {
        return Thrown(NotInitialized);
      }
      var loginUrl := CreateLoginUrl(redirectUri, window);
      if window.Some? {
        location := Some(loginUrl.value);
      }
      r := Returned(());
    }

    /**
     * handleCallback: exchange a non-empty code and store the tokens that
     * come back. It neither starts nor restarts the expiry check.
     */
    method HandleCallback(code: string, response: Response<TokenSet>) returns (r: Outcome<()>)
      requires Valid()
      modifies this, tokens.store
      ensures Valid()
      ensures !old(Ready()) ==> r == Thrown(NotInitialized) && requests == old(requests)
      ensures old(Ready()) && code == "" ==> r == Thrown(NoCode) && requests == old(requests)
      ensures old(Ready()) && code != "" ==>
        requests == old(requests) + [CodeExchange(CodeExchangeUrl(old(config).value), code)]
      ensures old(Ready()) && code != "" ==> match response
        case Ok(t) => r == Returned(()) && tokens.store.storage == WithTokens(old(tokens.store.storage), t)
                      && tokens.store.accessToken == Some(t.accessToken)
                      && tokens.store.refreshToken == Some(t.refreshToken)
                      && tokens.store.idToken == Some(t.idToken)
        case NotOk(status, statusText, text) =>
          r == Thrown(ExchangeFailure(status, statusText, text)) && tokens.store.storage == old(tokens.store.storage)
        case Throws(m) => r == Thrown(m) && tokens.store.storage == old(tokens.store.storage)
      ensures r.Thrown? ==> tokens.store.storage == old(tokens.store.storage)
      ensures config == old(config) && initialized == old(initialized) && location == old(location)
    {
      if !Ready() {
        return Thrown(NotInitialized);
      }
      if code == "" {
        return Thrown(NoCode);
      }
      requests := requests + [CodeExchange(CodeExchangeUrl(config.value), code)];
      match response {
        case Ok(t) =>
          tokens.SetTokens(t);
          r := Returned(());
        case NotOk(status, statusText, text) =>
          r := Thrown(ExchangeFailure(status, statusText, text));
        case Throws(m) =>
          r := Thrown(m);
      }
    }

    /** logout: clear the tokens. The expiry check, if armed, stays armed. */
    method Logout()
      requires Valid()
      modifies tokens.store
      ensures Valid()
      ensures tokens.store.accessToken == None && tokens.store.refreshToken == None && tokens.store.idToken == None
      ensures tokens.store.storage == WithoutTokens(old(tokens.store.storage))
    {
      tokens.ClearTokens();
    }

    /** isAuthenticated: the token store's answer, once initialized. */
    function IsAuthenticated(now: int, decode: Decoder): (r: Outcome<bool>)
      reads this, tokens, tokens.store
      ensures r.Thrown? <==> !Ready()
      ensures r.Returned? ==> (r.value <==> Authenticated(tokens.store.accessToken, now, decode))
    {
      if !Ready() then Thrown(NotInitialized) else Returned(tokens.IsAuthenticated(now, decode))
    }

    /**
     * refreshToken: exchange a refresh token for a new triple and return it;
     * null (None) for an empty token or any failure. Nothing is stored.
     */
    method RefreshToken(refreshToken: string, response: Response<TokenSet>) returns (r: Outcome<Option<TokenSet>>)
      modifies this
      ensures !old(Ready()) ==> r == Thrown(NotInitialized) && requests == old(requests)
      ensures old(Ready()) && refreshToken == "" ==> r == Returned(None) && requests == old(requests)
      ensures old(Ready()) && refreshToken != "" ==>
        && requests == old(requests) + [Refresh(RefreshRequestFor(old(config).value, refreshToken))]
        && r == Returned(if response.Ok? then Some(response.body) else None)
      ensures config == old(config) && initialized == old(initialized) && location == old(location)
    {
      if !Ready() {
        return Thrown(NotInitialized);
      }
      if refreshToken == "" {
        return Returned(None);
      }
      requests := requests + [Refresh(RefreshRequestFor(config.value, refreshToken))];
      match response {
        case Ok(t) => r := Returned(Some(t));
        case NotOk(_, _, _) => r := Returned(None);
        case Throws(_) => r := Returned(None);
      }
    }
  }
}
