/**
 * The token store (`useTokenStore`) and the token lifecycle manager
 * (`TokenService`) of bridge-react/src/services/token.service.ts.
 *
 * The store keeps the access/refresh/ID token triple in three fields and
 * mirrors it into three localStorage keys. The manager adds a single-flight
 * refresh-token exchange (the grant of section 6 of RFC 6749, sent as JSON)
 * and a self-rescheduling expiry check that holds at most one timer.
 *
 * The clock is a parameter `now` (milliseconds), reading a token's `exp`
 * claim (section 4.1.4 of RFC 7519) is a parameter `decode`, and each HTTP
 * exchange is a `Response` given to the method that issues it.
 */
module Tokens {
  import opened Base
  import opened Config

  datatype TokenSet = TokenSet(accessToken: string, refreshToken: string, idToken: string)

  const AccessKey := "bridge_access_token"
  const RefreshKey := "bridge_refresh_token"
  const IdKey := "bridge_id_token"

  /**
   * What `(jwtDecode(token) as any).exp` yields: decoding throws, the claim
   * is undefined or does not coerce to a number (so `exp * 1000` is NaN), or
   * a number of seconds, which is what a claim that coerces (a number, a
   * numeric string, null as 0) reads as. Nothing is verified about the
   * signature.
   */
  datatype ExpClaim = Undecodable | NotANumber | Seconds(s: int)

  type Decoder = string -> ExpClaim

  // ---------------------------------------------------------------------
  // Persisted state
  // ---------------------------------------------------------------------

  /** localStorage after the three `setItem` calls of setTokens. */
  function WithTokens(storage: map<string, string>, t: TokenSet): (m: map<string, string>)
    ensures Lookup(m, AccessKey) == Some(t.accessToken)
    ensures Lookup(m, RefreshKey) == Some(t.refreshToken)
    ensures Lookup(m, IdKey) == Some(t.idToken)
    ensures forall k :: k != AccessKey && k != RefreshKey && k != IdKey ==> Lookup(m, k) == Lookup(storage, k)
  {
    storage[AccessKey := t.accessToken][RefreshKey := t.refreshToken][IdKey := t.idToken]
  }

  /** localStorage after the three `removeItem` calls of clearTokens. */
  function WithoutTokens(storage: map<string, string>): (m: map<string, string>)
    ensures Lookup(m, AccessKey) == None && Lookup(m, RefreshKey) == None && Lookup(m, IdKey) == None
    ensures forall k :: k != AccessKey && k != RefreshKey && k != IdKey ==> Lookup(m, k) == Lookup(storage, k)
  {
    storage - {AccessKey, RefreshKey, IdKey}
  }

  /** Clearing twice leaves localStorage as clearing once does. */
  lemma ClearIsIdempotent(storage: map<string, string>)
    ensures WithoutTokens(WithoutTokens(storage)) == WithoutTokens(storage)
  {
  }

  /** `setTokens(t); clearTokens(); setTokens(t)` persists what one `setTokens(t)` does. */
  lemma SetClearSetIsSet(storage: map<string, string>, t: TokenSet)
    ensures WithTokens(WithoutTokens(WithTokens(storage, t)), t) == WithTokens(storage, t)
  {
    var a, b := WithTokens(WithoutTokens(WithTokens(storage, t)), t), WithTokens(storage, t);
    assert forall k :: Lookup(a, k) == Lookup(b, k);
    assert forall k :: k in a <==> Lookup(a, k).Some?;
  }

  // ---------------------------------------------------------------------
  // Expiry
  // ---------------------------------------------------------------------

  /** A JavaScript `number | null` as getTokenExpiryTime returns it. */
  datatype Expiry = Null | NaN | Ms(ms: int)

  /** `!expiry`: null, NaN and 0 are falsy. */
  predicate Falsy(e: Expiry) {
    e.Null? || e.NaN? || e.ms == 0
  }

  /** getTokenExpiryTime: the `exp` claim in milliseconds. */
  function ExpiryTime(token: string, decode: Decoder): (r: Expiry)
    ensures r.Null? <==> decode(token).Undecodable?
    ensures r.NaN? <==> decode(token).NotANumber?
    ensures r.Ms? ==> r.ms == decode(token).s * 1000
  {
    match decode(token)
    case Undecodable => Null
    case NotANumber => NaN
    case Seconds(exp) => Ms(exp * 1000)
  }

  /**
   * The store's isAuthenticated, which hasValidAccessToken and isValidToken
   * repeat: a non-empty access token whose expiry is still ahead. A NaN
   * expiry compares false.
   */
  predicate Authenticated(token: Option<string>, now: int, decode: Decoder)
    ensures Authenticated(token, now, decode) <==>
      Truthy(token) && decode(token.value).Seconds? && now < decode(token.value).s * 1000
  {
    Truthy(token) && ExpiryTime(token.value, decode).Ms? && now < ExpiryTime(token.value, decode).ms
  }

  /**
   * isAccessTokenExpired: no token, a token that does not decode, or an
   * expiry reached. `now >= NaN` is false, so a token without a numeric
   * `exp` does not count as expired.
   */
  predicate AccessTokenExpired(token: Option<string>, now: int, decode: Decoder)
    ensures AccessTokenExpired(token, now, decode) <==>
      || !Truthy(token)
      || ExpiryTime(token.value, decode).Null?
      || (ExpiryTime(token.value, decode).Ms? && now >= ExpiryTime(token.value, decode).ms)
  {
    if !Truthy(token) then true
    else match decode(token.value)
      case Undecodable => true
      case NotANumber => false
      case Seconds(exp) => now >= exp * 1000
  }

  /**
   * The two checks are negations of each other except on a token without a
   * numeric `exp`, which is neither valid nor expired.
   */
  lemma ValidIsNotExpired(token: Option<string>, now: int, decode: Decoder)
    ensures Authenticated(token, now, decode) ==> !AccessTokenExpired(token, now, decode)
    ensures !Authenticated(token, now, decode) && !AccessTokenExpired(token, now, decode)
            <==> Truthy(token) && decode(token.value).NotANumber?
  {
  }

  /** Once a token reads as expired it stays expired: liveness only ends as time passes. */
  lemma ExpiryIsPermanent(token: Option<string>, now: int, later: int, decode: Decoder)
    requires now <= later && !Authenticated(token, now, decode)
    ensures !Authenticated(token, later, decode)
  {
  }

  /** A token expiring a minute from now is live; one that expired a minute ago is not. */
  lemma MinuteEitherSideOfExpiry(token: string, now: int, decode: Decoder)
    requires token != "" && decode(token).Seconds?
    ensures decode(token).s * 1000 == now + 60000 ==> Authenticated(Some(token), now, decode)
    ensures decode(token).s * 1000 == now - 60000 ==> !Authenticated(Some(token), now, decode)
    ensures decode(token).s * 1000 == now - 60000 ==> AccessTokenExpired(Some(token), now, decode)
  {
  }

  // ---------------------------------------------------------------------
  // Scheduling arithmetic
  // ---------------------------------------------------------------------

  /** REFRESH_THRESHOLD: five minutes, in milliseconds. */
  const RefreshThreshold := 5 * 60 * 1000

  function Min(a: real, b: real): real {
    if a <= b then a else b
  }

  /**
   * getNextCheckInterval: `Math.min(t - REFRESH_THRESHOLD, t / 2)`, with the
   * division in floating point, hence a `real` result.
   */
  function NextCheckInterval(t: int): (r: real)
    ensures r <= (t - RefreshThreshold) as real && r <= t as real / 2.0
    ensures r == (t - RefreshThreshold) as real || r == t as real / 2.0
  {
    Min((t - RefreshThreshold) as real, t as real / 2.0)
  }

  /** A check on a live token is always scheduled before the token expires. */
  lemma CheckPrecedesExpiry(t: int)
    requires t > 0
    ensures NextCheckInterval(t) < t as real
  {
  }

  /** Above ten minutes the check falls at the midpoint of the remaining time. */
  lemma LongTokenCheckAtMidpoint(t: int)
    requires t >= 2 * RefreshThreshold
    ensures NextCheckInterval(t) == t as real / 2.0
  {
  }

  /** Up to ten minutes the check falls five minutes before expiry. */
  lemma ShortTokenCheckAtThreshold(t: int)
    requires t <= 2 * RefreshThreshold
    ensures NextCheckInterval(t) == (t - RefreshThreshold) as real
  {
  }

  /**
   * Under five minutes the delay is negative, so the host fires the timer at
   * once: a token four minutes from expiry is checked after -60 s, not after
   * two minutes.
   */
  lemma ShortTokenDelayIsNegative(t: int)
    requires 0 < t < RefreshThreshold
    ensures NextCheckInterval(t) < 0.0
    ensures t == 4 * 60 * 1000 ==> NextCheckInterval(t) == -60000.0
  {
  }

  /**
   * The decision of _startTokenExpiryCheck after it cancels the old timer:
   * the delay of the timer to arm, or None when the token is absent or empty,
   * has a falsy expiry (null, NaN or 0), or has expired.
   */
  function ScheduledDelay(token: Option<string>, now: int, decode: Decoder): (r: Option<real>)
    ensures r.Some? ==> Truthy(token) && ExpiryTime(token.value, decode).Ms?
    ensures r.Some? ==> r.value == NextCheckInterval(ExpiryTime(token.value, decode).ms - now)
  {
    if !Truthy(token) then None
    else
      var expiry := ExpiryTime(token.value, decode);
      if Falsy(expiry) then None
      else
        var timeUntilExpiry := expiry.ms - now;
        if timeUntilExpiry <= 0 then None
        else Some(NextCheckInterval(timeUntilExpiry))
  }

  /**
   * At any time after the epoch, a timer is armed exactly when the store
   * reports the session authenticated, and it is due before the token expires.
   */
  lemma ScheduledIffAuthenticated(token: Option<string>, now: int, decode: Decoder)
    requires now >= 0
    ensures ScheduledDelay(token, now, decode).Some? <==> Authenticated(token, now, decode)
    ensures ScheduledDelay(token, now, decode).Some? ==>
      ScheduledDelay(token, now, decode).value < (ExpiryTime(token.value, decode).ms - now) as real
  {
    if ScheduledDelay(token, now, decode).Some? {
      CheckPrecedesExpiry(ExpiryTime(token.value, decode).ms - now);
    }
  }

  // ---------------------------------------------------------------------
  // Display helper
  // ---------------------------------------------------------------------

  /** JavaScript's `%` on integers: the remainder takes the sign of the dividend. */
  function JsRem(a: int, b: int): (r: int)
    requires b > 0
    ensures a >= 0 ==> 0 <= r < b
    ensures a < 0 ==> -b < r <= 0
    ensures a >= 0 ==> r == a % b
  {
    if a >= 0 then a % b else -((-a) % b)
  }

  /**
   * The minutes and seconds formatTimeUntilExpiry prints:
   * `Math.floor(t / 60000)` and `Math.floor((t % 60000) / 1000)`.
   */
  function ExpiryParts(t: int): (r: (int, int))
    ensures r.0 * 60000 <= t < r.0 * 60000 + 60000
    ensures t >= 0 ==> 0 <= r.1 < 60
    ensures t < 0 ==> r.0 < 0 && -60 <= r.1 <= 0
  {
    (t / 60000, JsRem(t, 60000) / 1000)
  }

  /** For a non-negative duration the parts are whole minutes and the seconds left over. */
  lemma ExpiryPartsOfDuration(t: int)
    requires t >= 0
    ensures var (m, s) := ExpiryParts(t); 0 <= s < 60 && m * 60 + s == t / 1000
  {
    var q, r := t / 60000, t % 60000;
    assert t == q * 60000 + r;
    assert t / 1000 == q * 60 + r / 1000;
  }

  /**
   * For a negative duration minutes are rounded down but seconds are taken
   * from a truncated remainder, so both carry the sign: -1000 ms prints as
   * "-1m -1s", and -59999 ms as "-1m -60s".
   */
  lemma ExpiryPartsOfNegative()
    ensures ExpiryParts(-1000) == (-1, -1)
    ensures ExpiryParts(-59999) == (-1, -60)
  {
  }

  /**
   * formatTimeUntilExpiry. A negative duration `t` prints the floored
   * minute count with its sign, and as seconds the ceiling of the
   * milliseconds past the last whole minute towards zero, negated.
   */
  function FormatTimeUntilExpiry(t: int): (r: string)
    ensures t >= 0 ==> r == NatToString(t / 60000) + "m " + NatToString(t / 1000 % 60) + "s"
    ensures t < 0 ==> |r| > 0 && r[0] == '-'
    ensures t < 0 ==>
      var past := (-t) % 60000;
      r == "-" + NatToString(-(t / 60000)) + "m "
           + (if past == 0 then "0" else "-" + NatToString((past + 999) / 1000)) + "s"
  {
    var (m, s) := ExpiryParts(t);
    if t >= 0 then
      ExpiryPartsOfDuration(t);
      assert s == t / 1000 % 60 by {
        var w := t / 1000;
        assert w == m * 60 + s && 0 <= s < 60;
      }
      IntToString(m) + "m " + IntToString(s) + "s"
    else
      NegativeSeconds(t);
      IntToString(m) + "m " + IntToString(s) + "s"
  }

  /** The seconds of a negative duration: the milliseconds past the whole minute, rounded up and negated. */
  lemma NegativeSeconds(t: int)
    requires t < 0
    ensures var past := (-t) % 60000;
      ExpiryParts(t).1 == (if past == 0 then 0 else -((past + 999) / 1000))
  {
    var past := (-t) % 60000;
    var c := (past + 999) / 1000;
    assert JsRem(t, 60000) == -past;
    if past != 0 {
      assert (c - 1) * 1000 < past <= c * 1000;
      assert -c * 1000 <= -past < -c * 1000 + 1000;
    }
  }

  /** Both parts of a negative duration carry the sign. */
  lemma FormatTimeUntilExpiryOfNegative(t: int)
    requires t == -1000 || t == -59999 || t == -60000
    ensures t == -1000 ==> FormatTimeUntilExpiry(t) == "-1m -1s"
    ensures t == -59999 ==> FormatTimeUntilExpiry(t) == "-1m -60s"
    ensures t == -60000 ==> FormatTimeUntilExpiry(t) == "-1m 0s"
  {
    if t == -1000 {
      OneSecondOverdue(t);
    } else if t == -59999 {
      AlmostAMinuteOverdue(t);
    } else {
      AMinuteOverdue(t);
    }
  }

  lemma OneSecondOverdue(t: int)
    requires t == -1000
    ensures FormatTimeUntilExpiry(t) == "-1m -1s"
  {
    NegativeText(t, 1, 1000, "1", "1");
    assert "-" + "1" + "m " + ("-" + "1") + "s" == "-1m -1s";
  }

  lemma AlmostAMinuteOverdue(t: int)
    requires t == -59999
    ensures FormatTimeUntilExpiry(t) == "-1m -60s"
  {
    assert NatToString(60) == "60" by {
      assert NatToString(60) == NatToString(6) + [DigitChar(0)];
    }
    NegativeText(t, 1, 59999, "1", "60");
    assert "-" + "1" + "m " + ("-" + "60") + "s" == "-1m -60s";
  }

  lemma AMinuteOverdue(t: int)
    requires t == -60000
    ensures FormatTimeUntilExpiry(t) == "-1m 0s"
  {
    NegativeText(t, 1, 0, "1", "");
    assert "-" + "1" + "m " + "0" + "s" == "-1m 0s";
  }

  /** The text for a negative `t` from its minute count and its milliseconds past the minute. */
  lemma NegativeText(t: int, minutes: nat, past: nat, minuteText: string, secondText: string)
    requires t < 0 && -(t / 60000) == minutes && (-t) % 60000 == past
    requires NatToString(minutes) == minuteText
    requires past != 0 ==> NatToString((past + 999) / 1000) == secondText
    ensures FormatTimeUntilExpiry(t) ==
      "-" + minuteText + "m " + (if past == 0 then "0" else "-" + secondText) + "s"
  {
  }

  // ---------------------------------------------------------------------
  // The store
  // ---------------------------------------------------------------------

  /** `useTokenStore`: the in-memory triple and the origin's localStorage. */
  class TokenStore {
    var accessToken: Option<string>
    var refreshToken: Option<string>
    var idToken: Option<string>
    var storage: map<string, string>

    /** The in-memory triple is what the three keys hold. */
    ghost predicate Valid()
      reads this
    {
      && accessToken == Lookup(storage, AccessKey)
      && refreshToken == Lookup(storage, RefreshKey)
      && idToken == Lookup(storage, IdKey)
    }

    /** The store as created: each field read from its localStorage key. */
    constructor (persisted: map<string, string>)
      ensures Valid() && storage == persisted
    {
      accessToken := Lookup(persisted, AccessKey);
      refreshToken := Lookup(persisted, RefreshKey);
      idToken := Lookup(persisted, IdKey);
      storage := persisted;
    }

    method SetTokens(t: TokenSet)
      requires Valid()
      modifies this
      ensures Valid()
      ensures accessToken == Some(t.accessToken)
      ensures refreshToken == Some(t.refreshToken)
      ensures idToken == Some(t.idToken)
      ensures storage == WithTokens(old(storage), t)
    {
      storage := WithTokens(storage, t);
      accessToken, refreshToken, idToken := Some(t.accessToken), Some(t.refreshToken), Some(t.idToken);
    }

    method ClearTokens()
      requires Valid()
      modifies this
      ensures Valid()
      ensures accessToken == None && refreshToken == None && idToken == None
      ensures storage == WithoutTokens(old(storage))
    {
      storage := WithoutTokens(storage);
      accessToken, refreshToken, idToken := None, None, None;
    }

    function GetAccessToken(): (r: Option<string>)
      reads this
      requires Valid()
      ensures r == Lookup(storage, AccessKey)
    {
      accessToken
    }

    function GetRefreshToken(): (r: Option<string>)
      reads this
      requires Valid()
      ensures r == Lookup(storage, RefreshKey)
    {
      refreshToken
    }

    function GetIdToken(): (r: Option<string>)
      reads this
      requires Valid()
      ensures r == Lookup(storage, IdKey)
    {
      idToken
    }

    /** isAuthenticated: a non-empty access token whose numeric `exp` is still ahead of `now`. */
    predicate IsAuthenticated(now: int, decode: Decoder)
      reads this
      ensures IsAuthenticated(now, decode) <==>
        Truthy(accessToken) && decode(accessToken.value).Seconds? && now < decode(accessToken.value).s * 1000
    {
      Authenticated(accessToken, now, decode)
    }
  }

  // ---------------------------------------------------------------------
  // The lifecycle manager
  // ---------------------------------------------------------------------

  /** The body of the refresh-token POST to `{authBaseUrl}/token`. */
  datatype RefreshRequest = RefreshRequest(url: string, clientId: Option<string>, refreshToken: string)

  function RefreshRequestFor(config: BridgeConfig, refreshToken: string): RefreshRequest {
    RefreshRequest(OrElse(config.authBaseUrl, Some(DefaultAuthBaseUrl)).value + "/token", config.appId, refreshToken)
  }

  /** The URL falls back to the default auth base when none is configured. */
  lemma RefreshRequestUrl(config: BridgeConfig, refreshToken: string)
    ensures !Truthy(config.authBaseUrl) ==>
      RefreshRequestFor(config, refreshToken).url == DefaultAuthBaseUrl + "/token"
    ensures Truthy(config.authBaseUrl) ==>
      RefreshRequestFor(config, refreshToken).url == config.authBaseUrl.value + "/token"
  {
  }

  /**
   * `TokenService`. `timers` stands for the host's timer table: the timers
   * armed and neither fired nor cancelled, with their delays.
   * `refreshCheckInterval` is the handle the service keeps.
   */
  class TokenService {
    const store: TokenStore
    var config: Option<BridgeConfig>
    var refreshCheckInterval: Option<nat>
    var timers: map<nat, real>
    var nextHandle: nat
    var isRefreshing: bool
    var lastRenewalTime: Option<int>
    var requests: seq<RefreshRequest>

    /** The store is consistent, and the only live timer is the one whose handle the service holds. */
    ghost predicate Valid()
      reads this, store
    {
      && store.Valid()
      && (forall h :: h in timers ==> refreshCheckInterval == Some(h))
      && (refreshCheckInterval.Some? ==> 0 < refreshCheckInterval.value < nextHandle)
      && 0 < nextHandle
    }

    constructor (store: TokenStore)
      requires store.Valid()
      ensures Valid() && this.store == store
      ensures config == None && refreshCheckInterval == None && timers == map[]
      ensures !isRefreshing && lastRenewalTime == None && requests == []
    {
      this.store := store;
      config := None;
      refreshCheckInterval := None;
      timers := map[];
      nextHandle := 1;
      isRefreshing := false;
      lastRenewalTime := None;
      requests := [];
    }

    method SetTokens(t: TokenSet)
      requires Valid()
      modifies store
      ensures Valid()
      ensures store.accessToken == Some(t.accessToken)
      ensures store.refreshToken == Some(t.refreshToken)
      ensures store.idToken == Some(t.idToken)
      ensures store.storage == WithTokens(old(store.storage), t)
    {
      store.SetTokens(t);
    }

    method ClearTokens()
      requires Valid()
      modifies store
      ensures Valid()
      ensures store.accessToken == None && store.refreshToken == None && store.idToken == None
      ensures store.storage == WithoutTokens(old(store.storage))
    {
      store.ClearTokens();
    }

    /** _stopTokenExpiryCheck: cancels the held timer, if any. */
    method StopTokenExpiryCheck()
      requires Valid()
      modifies this
      ensures Valid()
      ensures timers == map[] && refreshCheckInterval == None
      ensures nextHandle == old(nextHandle) && config == old(config) && isRefreshing == old(isRefreshing)
      ensures lastRenewalTime == old(lastRenewalTime) && requests == old(requests)
    {
      if refreshCheckInterval.Some? {
        timers := timers - {refreshCheckInterval.value};
        refreshCheckInterval := None;
      }
      assert timers == map[];
    }

    /** _startTokenExpiryCheck: cancel, then arm one timer for the current access token if it is live. */
    method StartTokenExpiryCheck(now: int, decode: Decoder)
      requires Valid()
      modifies this
      ensures Valid()
      ensures match ScheduledDelay(store.accessToken, now, decode)
        case None => timers == map[] && refreshCheckInterval == None
        case Some(delay) =>
          && refreshCheckInterval == Some(old(nextHandle))
          && timers == map[old(nextHandle) := delay]
      ensures config == old(config) && isRefreshing == old(isRefreshing)
      ensures lastRenewalTime == old(lastRenewalTime) && requests == old(requests)
    {
      StopTokenExpiryCheck();
      var token := store.accessToken;
      if !Truthy(token) {
        return;
      }
      var expiryTime := ExpiryTime(token.value, decode);
      if Falsy(expiryTime) {
        return;
      }
      var timeUntilExpiry := expiryTime.ms - now;
      if timeUntilExpiry <= 0 {
        return;
      }
      var nextCheckInterval := NextCheckInterval(timeUntilExpiry);
      var handle := nextHandle;
      nextHandle := nextHandle + 1;
      timers := timers[handle := nextCheckInterval];
      refreshCheckInterval := Some(handle);
    }

    /** init: bind the configuration and (re)start the expiry check. */
    method Init(cfg: BridgeConfig, now: int, decode: Decoder)
      requires Valid()
      modifies this
      ensures Valid()
      ensures config == Some(cfg)
      ensures match ScheduledDelay(store.accessToken, now, decode)
        case None => timers == map[] && refreshCheckInterval == None
        case Some(delay) =>
          && refreshCheckInterval == Some(old(nextHandle))
          && timers == map[old(nextHandle) := delay]
      ensures isRefreshing == old(isRefreshing) && lastRenewalTime == old(lastRenewalTime)
      ensures requests == old(requests)
    {
      config := Some(cfg);
      StartTokenExpiryCheck(now, decode);
    }

    /**
     * refreshToken up to its `await fetch`: Some(request) when the exchange
     * is issued, in which case the call is now in flight and `isRefreshing`
     * stays set; None when it returns false at once.
     */
    method BeginRefresh() returns (req: Option<RefreshRequest>)
      requires Valid()
      modifies this
      ensures Valid()
      ensures old(isRefreshing) ==> req == None && isRefreshing
      ensures !old(isRefreshing) && (!Truthy(store.refreshToken) || config.None?) ==> req == None && !isRefreshing
      ensures !old(isRefreshing) && Truthy(store.refreshToken) && config.Some? ==>
        req == Some(RefreshRequestFor(config.value, store.refreshToken.value)) && isRefreshing
      ensures requests == old(requests) + (if req.Some? then [req.value] else [])
      ensures config == old(config) && timers == old(timers) && refreshCheckInterval == old(refreshCheckInterval)
      ensures nextHandle == old(nextHandle) && lastRenewalTime == old(lastRenewalTime)
    {
      if isRefreshing {
        return None;
      }
      isRefreshing := true;
      var refreshToken := store.GetRefreshToken();
      if !Truthy(refreshToken) {
        isRefreshing := false;
        return None;
      }
      if config.None? {
        // 'TokenService not initialized' is thrown inside the try and caught
        isRefreshing := false;
        return None;
      }
      req := Some(RefreshRequestFor(config.value, refreshToken.value));
      requests := requests + [req.value];
    }

    /**
     * refreshToken after its `await fetch`: an ok response replaces all
     * three tokens at once; a non-ok response or an exception changes
     * nothing. The `finally` clears `isRefreshing` either way.
     */
    method CompleteRefresh(response: Response<TokenSet>, now: int) returns (ok: bool)
      requires Valid() && isRefreshing
      modifies this, store
      ensures Valid() && !isRefreshing
      ensures ok <==> response.Ok?
      ensures ok ==>
        && store.accessToken == Some(response.body.accessToken)
        && store.refreshToken == Some(response.body.refreshToken)
        && store.idToken == Some(response.body.idToken)
        && store.storage == WithTokens(old(store.storage), response.body)
        && lastRenewalTime == Some(now)
      ensures !ok ==> store.storage == old(store.storage) && lastRenewalTime == old(lastRenewalTime)
      ensures config == old(config) && timers == old(timers) && refreshCheckInterval == old(refreshCheckInterval)
      ensures nextHandle == old(nextHandle) && requests == old(requests)
    {
      match response {
        case Ok(tokens) =>
          store.SetTokens(tokens);
          lastRenewalTime := Some(now);
          ok := true;
        case NotOk(_, _, _) =>
          ok := false;
        case Throws(_) =>
          ok := false;
      }
      isRefreshing := false;
    }

    /** refreshToken, run to completion with `response` as the answer to its exchange. */
    method RefreshToken(response: Response<TokenSet>, now: int) returns (ok: bool)
      requires Valid()
      modifies this, store
      ensures Valid()
      ensures old(isRefreshing) ==> isRefreshing && requests == old(requests)
      ensures !old(isRefreshing) ==> !isRefreshing
      ensures ok <==> !old(isRefreshing) && Truthy(old(store.refreshToken)) && config.Some? && response.Ok?
      ensures requests == old(requests) + (
        if !old(isRefreshing) && Truthy(old(store.refreshToken)) && config.Some?
        then [RefreshRequestFor(config.value, old(store.refreshToken).value)] else [])
      ensures ok ==>
        && store.accessToken == Some(response.body.accessToken)
        && store.refreshToken == Some(response.body.refreshToken)
        && store.idToken == Some(response.body.idToken)
        && store.storage == WithTokens(old(store.storage), response.body)
        && lastRenewalTime == Some(now)
      ensures !ok ==> store.storage == old(store.storage) && lastRenewalTime == old(lastRenewalTime)
      ensures config == old(config) && timers == old(timers) && refreshCheckInterval == old(refreshCheckInterval)
      ensures nextHandle == old(nextHandle)
    {
      var req := BeginRefresh();
      if req.None? {
        return false;
      }
      ok := CompleteRefresh(response, now);
    }

    /**
     * The callback of the armed timer `h`: refresh, then re-arm on success
     * or clear the tokens on failure. The held handle is not reset when the
     * timer fires, so after a failure it names a spent timer.
     */
    method OnTimerFired(h: nat, response: Response<TokenSet>, now: int, decode: Decoder) returns (ok: bool)
      requires Valid() && h in timers
      modifies this, store
      ensures Valid()
      ensures ok <==> !old(isRefreshing) && Truthy(old(store.refreshToken)) && config.Some? && response.Ok?
      ensures ok ==>
        && store.accessToken == Some(response.body.accessToken)
        && store.refreshToken == Some(response.body.refreshToken)
        && store.idToken == Some(response.body.idToken)
      ensures ok ==> match ScheduledDelay(store.accessToken, now, decode)
        case None => timers == map[] && refreshCheckInterval == None
        case Some(delay) => refreshCheckInterval == Some(old(nextHandle)) && timers == map[old(nextHandle) := delay]
      ensures !ok ==>
        && store.accessToken == None && store.refreshToken == None && store.idToken == None
        && store.storage == WithoutTokens(old(store.storage))
        && timers == map[] && refreshCheckInterval == old(refreshCheckInterval)
      ensures requests == old(requests) + (
        if !old(isRefreshing) && Truthy(old(store.refreshToken)) && config.Some?
        then [RefreshRequestFor(config.value, old(store.refreshToken).value)] else [])
      ensures ok ==> lastRenewalTime == Some(now)
      ensures !ok ==> lastRenewalTime == old(lastRenewalTime)
      ensures isRefreshing == old(isRefreshing) && config == old(config)
    {
      timers := timers - {h};
      ok := RefreshToken(response, now);
      if ok {
        StartTokenExpiryCheck(now, decode);
      } else {
        store.ClearTokens();
      }
    }

    function GetAccessToken(): (r: Option<string>)
      reads this, store
      requires Valid()
      ensures r == Lookup(store.storage, AccessKey)
    {
      store.GetAccessToken()
    }

    /** hasAccessToken: whether a non-empty access token is persisted. */
    predicate HasAccessToken()
      reads this, store
      requires Valid()
      ensures HasAccessToken() <==> Truthy(Lookup(store.storage, AccessKey))
    {
      Truthy(store.accessToken)
    }

    /** isAuthenticated, which asks the store: never without an access token. */
    predicate IsAuthenticated(now: int, decode: Decoder)
      reads this, store
      ensures IsAuthenticated(now, decode) ==> Truthy(store.accessToken)
    {
      store.IsAuthenticated(now, decode)
    }

    /** hasValidAccessToken: the same answer as isAuthenticated. */
    predicate HasValidAccessToken(now: int, decode: Decoder)
      reads this, store
      ensures HasValidAccessToken(now, decode) <==> IsAuthenticated(now, decode)
    {
      Authenticated(store.accessToken, now, decode)
    }

    /** isAccessTokenExpired: never for a token that is still valid. */
    predicate IsAccessTokenExpired(now: int, decode: Decoder)
      reads this, store
      ensures HasValidAccessToken(now, decode) ==> !IsAccessTokenExpired(now, decode)
    {
      AccessTokenExpired(store.accessToken, now, decode)
    }
  }

  /** A valid service never holds more than one live timer. */
  lemma AtMostOneTimer(s: TokenService)
    requires s.Valid()
    ensures |s.timers| <= 1
  {
    if s.refreshCheckInterval.Some? {
      var h := s.refreshCheckInterval.value;
      if h in s.timers {
        assert s.timers.Keys == {h};
      } else {
        assert s.timers.Keys == {};
      }
    } else {
      assert s.timers.Keys == {};
    }
  }

  /**
   * Two overlapping refreshes: while the first waits on its exchange, a
   * second call returns false without a request of its own.
   */
  method OverlappingRefreshes(s: TokenService, first: Response<TokenSet>, second: Response<TokenSet>, now: int)
    returns (firstOk: bool, secondOk: bool)
    requires s.Valid() && !s.isRefreshing && Truthy(s.store.refreshToken) && s.config.Some?
    modifies s, s.store
    ensures s.Valid() && !s.isRefreshing
    ensures |s.requests| == |old(s.requests)| + 1
    ensures !secondOk
    ensures firstOk <==> first.Ok?
  {
    var pending := s.BeginRefresh();
    secondOk := s.RefreshToken(second, now);
    firstOk := s.CompleteRefresh(first, now);
  }

  /**
   * The timer fires while another refresh (a manual one) is in flight: the
   * timer's own refresh is refused, and the callback clears the session.
   */
  method TimerDuringManualRefresh(s: TokenService, h: nat, response: Response<TokenSet>, now: int, decode: Decoder)
    returns (ok: bool)
    requires s.Valid() && h in s.timers && s.isRefreshing
    modifies s, s.store
    ensures !ok && s.store.accessToken == None && s.timers == map[]
  {
    ok := s.OnTimerFired(h, response, now, decode);
  }
}
