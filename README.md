# bridge-react authentication core, modelled in Dafny

This project models the client-side authentication core of the
`bridge-react` SDK and of its demo application.

- **Token store.** `useTokenStore` holds the access, refresh and ID tokens in
  memory and mirrors them into three localStorage keys.
- **TokenService.** It offers a single-flight refresh-token exchange and a
  self-rescheduling expiry check that holds at most one timer.
- **AuthService.** It builds the login URL, exchanges the authorization code
  and refreshes without storing.
- **Feature-flag client.** It keeps a five-minute cache and can ask for a live
  evaluation.
- **ProfileService.** It verifies the ID token and maps its claims into a
  `Profile`.
- **Configuration.** The provider merges environment, props and defaults; the
  demo has its own `getBridgeConfig`.
- **CallbackHandler.** It runs once per instance and redirects to the success
  route or back to login.
- **TokenStatus panel.** It shows the time to expiry and has a manual renewal
  button.
- **Demo truncate.** It abbreviates tokens.

**Modules**

| file | module | models |
|---|---|---|
| `base.dfy` | `Base` | optional values, returned-or-thrown outcomes, `fetch` answers, JavaScript truthiness, decimal rendering and its parser |
| `uri.dfy` | `Uri` | `encodeURIComponent`, `application/x-www-form-urlencoded` serialization and parsing (`URLSearchParams`), their decoders and round trips |
| `config.dfy` | `Config` | `BridgeConfig`, `DEFAULT_CONFIG`, `getConfigFromEnv`, the provider's merge, and the demo's `getBridgeConfig` |
| `tokens.dfy` | `Tokens` | class `TokenStore` (the zustand store plus localStorage), class `TokenService`, expiry arithmetic |
| `auth.dfy` | `Auth` | class `AuthService` |
| `flags.dfy` | `FeatureFlags` | class `FlagCache`, which holds the module-level `cachedFlags`, `lastFetchTime` and a log of the requests sent |
| `profile.dfy` | `Profiles` | the claims-to-profile mapping and class `ProfileService` with its profile store |
| `callback.dfy` | `Callback` | class `CallbackHandler`, with `buildUrl` and the redirect decision |
| `status.dfy` | `TokenStatusView` | class `TokenStatusPanel`, the display strings, and the demo's `truncate` |

**Stand-ins for the environment.**

- The environment enters as parameters:
  - The clock is `now`, in milliseconds.
  - Reading a JWT's `exp` claim is `decode`. It yields undecodable, not-a-number, or whole seconds.
  - Signature verification is a `verify` function.
  - Each HTTP exchange is a `Response` value: ok with a body, not ok, or thrown.
  - The browser origin, or its absence, is `window`.
- Requests the code sends are kept as logs (`requests`).
- Router replacements are kept in the log `replaced`.
- The host's timer table is the map `timers`.
- An `async` method that suspends at `await fetch` is split in two (`TokenService.BeginRefresh` / `CompleteRefresh`). This lets the single-flight guard be observed across an interleaving.

**Behaviour of the code as written, proved in the model**

- **Check interval.** `getNextCheckInterval` returns `min(t - 5 min, t / 2)`
  (token.service.ts:209). Its comment at line 208 describes half the remaining
  time for short tokens. The code does something else:
  - From 10 minutes on, the check is at the midpoint.
  - Below 10 minutes, it is 5 minutes before expiry.
  - Below 5 minutes, the delay is negative, so the timer fires at once.

  The model follows the code (`Tokens.ShortTokenDelayIsNegative`).
- **Negative durations.** `formatTimeUntilExpiry` prints negative durations with
  both parts negative: -1000 ms is "-1m -1s", and -59999 ms is "-1m -60s"
  (`Tokens.ExpiryPartsOfNegative`, `Tokens.FormatTimeUntilExpiryOfNegative`).
- **Expired vs. valid.** `isAccessTokenExpired` and `hasValidAccessToken` are
  exact negations except on a token whose `exp` is undefined or does not
  coerce to a number. Such a token is neither valid nor expired, because
  `now >= NaN` is false (`Tokens.ValidIsNotExpired`).
- **Timer and login.** `AuthService.handleCallback` stores the new tokens but
  does not arm the expiry check.
- **Timer and logout.** `logout` clears the tokens but leaves an armed check
  armed. When it fires, the refresh finds no refresh token and clears the
  store again.
- **Timer during a manual refresh.** If the timer fires while a manual refresh
  is in flight, its own refresh is refused by the single-flight flag. It then
  clears the session (`Tokens.TimerDuringManualRefresh`).
- **Failed code exchanges go to the success route.**
  - `useAuth().handleCallback` (use-auth.ts:100-115) catches every error, so
    `CallbackHandler`'s `catch` does not run when the two are composed.
  - A failed exchange therefore still lands on the success route.
  - `Callback.CallbackHandler.Run` models the component with the exchange's
    outcome as a parameter, so both paths are covered.
- **Profile init.** `ProfileService.init` records the configuration and the
  issuer before it checks `appId`, so a failed `init` leaves them set.
- **Dead catch block.** The `catch` block of `ProfileService.updateProfile` is
  unreachable: `verifyAndUpdateProfile` catches its own errors, and the
  initialisation check runs before the `try`.
- **Manual refresh and the timer.** The TokenStatus panel's manual refresh
  does not re-arm the service's expiry timer.

## Model

| member | source | states |
|---|---|---|
| `Base.OrElse` | bridge-react/src/services/auth.service.ts:40-42 | `a \|\| b` on optional strings: `a` when it is non-empty, else `b` |
| `Base.NatToString` | bridge-react/src/components/auth/TokenStatus.tsx:107 | the decimal rendering is non-empty, all digits, and has no leading zero except for 0 itself |
| `Base.DigitsValueOfNatToString` | bridge-react/src/components/auth/TokenStatus.tsx:107 | reading a rendered number back gives the number |
| `Uri.Encode` | bridge-react/src/services/auth.service.ts:45 | every output character is unreserved, `%`, or (for forms) `+`; output is empty iff input is |
| `Uri.EncodedHasNoDelimiters` | bridge-react/src/services/auth.service.ts:45 | neither encoder emits `&`, `=`, `?`, `/`, `#`, `:` or a space |
| `Uri.DecodeEncode` | bridge-react/src/services/auth.service.ts:45 | decoding an encoded string gives it back, for both `encodeURIComponent` and the form encoder |
| `Uri.DecodeCharOfEncodeChar` | bridge-react/src/services/auth.service.ts:45 | one character's UTF-8 percent escapes decode back to that character |
| `Uri.SplitOnJoin` | bridge-react/src/components/auth/CallbackHandler.tsx:24 | splitting on a separator that no part contains undoes joining |
| `Uri.SerializeQuery` | bridge-react/src/components/auth/CallbackHandler.tsx:35 | the serialized query is empty iff there are no pairs |
| `Uri.ParseQuery` | bridge-react/src/components/auth/CallbackHandler.tsx:24 | an empty query has no pairs, and there are never more pairs than `&`-separated pieces |
| `Uri.QueryGet` | bridge-react/src/components/auth/CallbackHandler.tsx:25-26 | `params.get(name)` is absent iff no pair has the name, and otherwise is the value of the first pair with that name |
| `Uri.ParseSerializeQuery` | bridge-react/src/components/auth/CallbackHandler.tsx:35 | parsing what `URLSearchParams(...).toString()` serialized gives back the same pairs in order |
| `Config.Spread` | bridge-react/src/providers/bridge-config.provider.tsx:94-98 | spreading an empty object on either side changes nothing |
| `Config.EnvVar` | bridge-react/src/providers/bridge-config.provider.tsx:25-34 | `process.env`: a non-empty REACT_APP_ value wins, else the VITE_ one; `import.meta.env`: the VITE_ value; no environment: absent |
| `Config.IfTruthy` | bridge-react/src/providers/bridge-config.provider.tsx:45-51 | a string variable sets its key iff it is non-empty |
| `Config.DebugFlag` | bridge-react/src/providers/bridge-config.provider.tsx:52 | debug is set iff the variable is defined, and is true iff it is exactly "true" |
| `Config.ConfigFromEnv` | bridge-react/src/providers/bridge-config.provider.tsx:21-55 | no environment gives no keys; every string key taken is non-empty; debug is set iff its variable is defined |
| `Config.MergedConfig` | bridge-react/src/providers/bridge-config.provider.tsx:93-98 | with no variables set the result is the props over the defaults, and with no props either it is `DEFAULT_CONFIG` |
| `Config.MergePriority` | bridge-react/src/providers/bridge-config.provider.tsx:93-98 | for every field, the merged value is the environment's, else the props', else the default |
| `Config.MergedKeepsDefaults` | bridge-react/src/providers/bridge-config.provider.tsx:8-15 | every key with a default is present after the merge, for props whose keys are absent or defined (see `Config.Spread` under Left out) |
| `Config.EmptyReactVariableFallsThrough` | bridge-react/src/providers/bridge-config.provider.tsx:27 | an empty REACT_APP_ variable does not hide the VITE_ one |
| `Config.DemoBridgeConfig` | demo/src/utils/env.ts:15-51 | throws with the fixed message iff `VITE_BRIDGE_APP_ID` is empty or missing; otherwise each optional field is set only from a non-empty variable, debug from whether it is "true", and the cloud-views URL is never set |
| `Config.DemoAgreesWithProviderEnv` | demo/src/utils/env.ts:22-48 | the demo's builder reads the variables as the provider does under `import.meta.env`, except the cloud-views URL |
| `Tokens.WithTokens` | bridge-react/src/services/token.service.ts:29-34 | the three keys hold the new tokens and every other key is unchanged |
| `Tokens.WithoutTokens` | bridge-react/src/services/token.service.ts:42-47 | the three keys are removed and every other key is unchanged |
| `Tokens.ClearIsIdempotent` | bridge-react/src/services/token.service.ts:42-53 | clearing twice persists the same as clearing once |
| `Tokens.SetClearSetIsSet` | bridge-react/src/services/token.service.ts:29-53 | set, clear, set of one triple persists the same as one set |
| `Tokens.ExpiryTime` | bridge-react/src/services/token.service.ts:192-199 | null iff decoding throws, NaN iff `exp` does not coerce to a number, else `exp * 1000` |
| `Tokens.Authenticated` | bridge-react/src/services/token.service.ts:55-66 | the store's `isAuthenticated`: true iff the token is non-empty, decodes to a numeric `exp`, and `now` is before `exp * 1000` |
| `Tokens.AccessTokenExpired` | bridge-react/src/services/token.service.ts:271-282 | `isAccessTokenExpired`: true iff there is no token, the expiry time is null, or it is a number not after `now`; a NaN expiry is not expired |
| `Tokens.ValidIsNotExpired` | bridge-react/src/services/token.service.ts:271-296 | a valid token is never expired; a token is neither valid nor expired iff it is present with a non-numeric `exp` |
| `Tokens.ExpiryIsPermanent` | bridge-react/src/services/token.service.ts:55-66 | once the store reports unauthenticated, it stays so as time advances |
| `Tokens.MinuteEitherSideOfExpiry` | bridge-react/src/services/token.service.ts:55-66 | a token expiring in a minute is authenticated; one that expired a minute ago is neither authenticated nor valid, and is expired |
| `Tokens.NextCheckInterval` | bridge-react/src/services/token.service.ts:207-210 | the delay is the smaller of `t - 5 min` and `t / 2`, and equals one of them |
| `Tokens.CheckPrecedesExpiry` | bridge-react/src/services/token.service.ts:207-210 | for a live token the check is due before expiry |
| `Tokens.LongTokenCheckAtMidpoint` | bridge-react/src/services/token.service.ts:209 | from ten minutes on, the check is at half the remaining time |
| `Tokens.ShortTokenCheckAtThreshold` | bridge-react/src/services/token.service.ts:209 | up to ten minutes, the check is five minutes before expiry |
| `Tokens.ShortTokenDelayIsNegative` | bridge-react/src/services/token.service.ts:208-209 | under five minutes the delay is negative (four minutes gives -60 s), contrary to the comment |
| `Tokens.ScheduledDelay` | bridge-react/src/services/token.service.ts:220-241 | a delay is produced only for a present token with a numeric expiry, and it is `getNextCheckInterval(expiry - now)` |
| `Tokens.ScheduledIffAuthenticated` | bridge-react/src/services/token.service.ts:220-241 | after the epoch a timer is armed iff the store reports authenticated, and it is due before expiry |
| `Tokens.JsRem` | bridge-react/src/services/token.service.ts:203 | JavaScript `%`: the remainder takes the dividend's sign and agrees with the Euclidean one for non-negative operands |
| `Tokens.ExpiryParts` | bridge-react/src/services/token.service.ts:202-203 | minutes are the floor of `t / 60000`; seconds are in 0..59 for a non-negative duration and in -60..0 for a negative one, when minutes are negative |
| `Tokens.ExpiryPartsOfDuration` | bridge-react/src/services/token.service.ts:201-205 | for a non-negative duration, seconds are 0..59 and `minutes * 60 + seconds` is the whole seconds |
| `Tokens.ExpiryPartsOfNegative` | bridge-react/src/services/token.service.ts:201-205 | -1000 ms gives (-1, -1) and -59999 ms gives (-1, -60) |
| `Tokens.FormatTimeUntilExpiry` | bridge-react/src/services/token.service.ts:201-205 | a non-negative duration prints as whole minutes, "m ", the whole seconds modulo 60, "s"; a negative one prints "-" and the floored minute count, then "0s" on a whole minute, else "-", the seconds past the whole minute rounded up, and "s" |
| `Tokens.FormatTimeUntilExpiryOfNegative` | bridge-react/src/services/token.service.ts:201-205 | -1000 ms prints "-1m -1s", -59999 ms prints "-1m -60s", and -60000 ms prints "-1m 0s" |
| `Tokens.TokenStore.constructor` | bridge-react/src/services/token.service.ts:24-27 | each field starts as its localStorage key |
| `Tokens.TokenStore.SetTokens` | bridge-react/src/services/token.service.ts:29-40 | fields and storage hold the new triple, other keys unchanged |
| `Tokens.TokenStore.ClearTokens` | bridge-react/src/services/token.service.ts:42-53 | fields are null and the three keys are gone, other keys unchanged |
| `Tokens.TokenStore.GetAccessToken` | bridge-react/src/services/token.service.ts:68 | the getter agrees with what localStorage holds |
| `Tokens.TokenStore.GetRefreshToken` | bridge-react/src/services/token.service.ts:69 | the getter agrees with what localStorage holds |
| `Tokens.TokenStore.GetIdToken` | bridge-react/src/services/token.service.ts:70 | the getter agrees with what localStorage holds |
| `Tokens.TokenStore.IsAuthenticated` | bridge-react/src/services/token.service.ts:55-66 | true iff there is a non-empty access token whose decoded numeric `exp`, in milliseconds, is still after `now`; a token that does not decode, or has no numeric `exp`, is not authenticated |
| `Tokens.RefreshRequestUrl` | bridge-react/src/services/token.service.ts:153-154 | the refresh URL is `{authBaseUrl}/token`, with the default base when none is configured |
| `Tokens.TokenService.SetTokens` | bridge-react/src/services/token.service.ts:104-106 | delegates to the store: the new triple is in memory and persisted |
| `Tokens.TokenService.ClearTokens` | bridge-react/src/services/token.service.ts:108-110 | delegates to the store: the triple is cleared in memory and storage |
| `Tokens.TokenService.GetAccessToken` | bridge-react/src/services/token.service.ts:116-118 | the persisted access token |
| `Tokens.TokenService.HasAccessToken` | bridge-react/src/services/token.service.ts:264-266 | true iff a non-empty access token is persisted |
| `Tokens.TokenService.IsAuthenticated` | bridge-react/src/services/token.service.ts:112-114 | the store's answer, never true without an access token |
| `Tokens.TokenService.HasValidAccessToken` | bridge-react/src/services/token.service.ts:285-296 | always the same answer as `isAuthenticated` |
| `Tokens.TokenService.IsAccessTokenExpired` | bridge-react/src/services/token.service.ts:271-282 | never true for a token `hasValidAccessToken` accepts |
| `Tokens.TokenService.StopTokenExpiryCheck` | bridge-react/src/services/token.service.ts:254-259 | afterwards no timer is live and no handle is held; nothing else changes |
| `Tokens.TokenService.StartTokenExpiryCheck` | bridge-react/src/services/token.service.ts:220-252 | the old timer is cancelled; exactly one new timer with delay `ScheduledDelay(...)` is armed when that is defined, else none |
| `Tokens.TokenService.Init` | bridge-react/src/services/token.service.ts:129-132 | binds the configuration and (re)starts the expiry check as above |
| `Tokens.TokenService.BeginRefresh` | bridge-react/src/services/token.service.ts:134-164 | refused while a refresh is in flight; no request without a refresh token or a configuration; otherwise one request to `{authBaseUrl}/token` with the app id and refresh token, and the flag stays set |
| `Tokens.TokenService.CompleteRefresh` | bridge-react/src/services/token.service.ts:166-189 | ok iff the response is ok; then all three tokens are replaced and the renewal time stamped; otherwise nothing is stored; the flag is cleared either way |
| `Tokens.TokenService.RefreshToken` | bridge-react/src/services/token.service.ts:134-190 | true iff no refresh was in flight, a refresh token and a configuration exist, and the exchange is ok; exactly the request described is logged; stored tokens change only on success; timers untouched |
| `Tokens.TokenService.OnTimerFired` | bridge-react/src/services/token.service.ts:243-251 | the refresh is `refreshToken`'s (same condition, same logged request, renewal time stamped only on success, flag and configuration as before); success replaces the tokens and re-arms as `StartTokenExpiryCheck`; failure clears the tokens and leaves no live timer |
| `Tokens.AtMostOneTimer` | bridge-react/src/services/token.service.ts:220-259 | a service in a valid state holds at most one live timer |
| `Tokens.OverlappingRefreshes` | bridge-react/src/services/token.service.ts:135-140 | a refresh started while another waits returns false without a request; only one request is sent |
| `Tokens.TimerDuringManualRefresh` | bridge-react/src/services/token.service.ts:243-251 | a timer firing during a refresh in flight is refused and clears the session |
| `Auth.ResolveRedirectUri` | bridge-react/src/services/auth.service.ts:39-42 | the caller's non-empty URI, else the configured non-empty callback URL, else `{origin}/auth/oauth-callback`; never empty |
| `Auth.LoginUrlCarriesRedirect` | bridge-react/src/services/auth.service.ts:44-45 | the encoded redirect URI after `redirect_uri=` has no `&`, `=`, `?`, `/` or `#` and decodes back to the redirect URI |
| `Auth.MergedLoginUrlBase` | bridge-react/src/services/auth.service.ts:44-45 | under the provider's merged configuration, for props whose keys are absent or defined, the URL starts with the present base URL |
| `Auth.AuthService.Init` | bridge-react/src/services/auth.service.ts:24-27 | the service becomes ready with the given configuration |
| `Auth.AuthService.CreateLoginUrl` | bridge-react/src/services/auth.service.ts:34-46 | throws the initialisation error iff not ready; otherwise the login URL for the resolved redirect URI |
| `Auth.AuthService.Login` | bridge-react/src/services/auth.service.ts:49-60 | throws iff not ready; with a window, navigates to `createLoginUrl`; without one, changes nothing |
| `Auth.AuthService.HandleCallback` | bridge-react/src/services/auth.service.ts:62-121 | not ready or an empty code throws without a request; otherwise one code exchange to `{authBaseUrl}/token/code/{appId}`; an ok answer stores the triple, a non-ok answer throws the status message, an exception propagates, and a throw stores nothing |
| `Auth.AuthService.Logout` | bridge-react/src/services/auth.service.ts:75-77 | clears the tokens whether or not the service was initialised |
| `Auth.AuthService.IsAuthenticated` | bridge-react/src/services/auth.service.ts:79-85 | throws iff not ready; otherwise the store's answer |
| `Auth.AuthService.RefreshToken` | bridge-react/src/services/auth.service.ts:124-184 | throws iff not ready; an empty refresh token gives null without a request; otherwise one refresh request and the new triple iff the answer is ok, else null; nothing is stored |
| `FeatureFlags.Answer` | bridge-react/src/services/feature-flag.service.ts:103 | an unknown flag is off; a known one has its cached value |
| `FeatureFlags.BuildFlagMap` | bridge-react/src/services/feature-flag.service.ts:54-57 | every flag named in the response is in the cache, and the last element's `enabled` (missing meaning false) is its value |
| `FeatureFlags.BuildFlagMapLookup` | bridge-react/src/services/feature-flag.service.ts:54-57 | the cache holds exactly the named flags; a repeated name takes its last element's `enabled`, missing meaning false |
| `FeatureFlags.BuildFlagMapKeys` | bridge-react/src/services/feature-flag.service.ts:54-57 | the cache's keys are the flag names in the response |
| `FeatureFlags.FlagCache.GetCachedFlags` | bridge-react/src/services/feature-flag.service.ts:31-33 | the returned map has exactly the cache's flag names, and answers every flag as the cache does |
| `FeatureFlags.FlagCache.LoadFeatureFlags` | bridge-react/src/services/feature-flag.service.ts:35-64 | one bulk request; an ok answer replaces the cache and stamps the time; otherwise the cache and time are kept and the error is thrown |
| `FeatureFlags.FlagCache.IsFeatureEnabled` | bridge-react/src/services/feature-flag.service.ts:66-104 | the call throws exactly when a stale cache's reload fails, with the reload's error (its "Failed to load feature flags" or the fetch's own); every other path returns, a failed live evaluation falling back to the cache; a successful reload stamps `now` and makes the cache the bulk response's; a fresh cache with no live request answers from the cache without a request; `forceLive` sends one evaluation, whose ok answer is returned and written to the cache, while a failed one leaves the cache as it was; every answer agrees with the resulting cache |
| `Profiles.ToProfile` | bridge-react/src/services/profile.service.ts:143-161 | id, username, email, email verification, full, family and given names, locale, onboarding and multi-tenant access each come from their claim; a tenant exists iff `tenant_id` is non-empty, with that id, name `tenant_name \|\| ''`, and the tenant's locale, logo and onboarding from their claims |
| `Profiles.ToProfileOfClaimsOf` | bridge-react/src/services/profile.service.ts:143-161 | every profile whose tenant has a non-empty id comes from some claims |
| `Profiles.ToProfileForgets` | bridge-react/src/services/profile.service.ts:154-160 | tenant claims without a tenant id are dropped, and an empty tenant name is the same as a missing one |
| `Profiles.Onboarded` | bridge-react/src/services/profile.service.ts:192-194 | true iff a profile exists and its `onboarded` is true |
| `Profiles.MultiTenant` | bridge-react/src/services/profile.service.ts:199-201 | true iff a profile exists and its `multiTenantAccess` is true |
| `Profiles.AnswersFollowClaims` | bridge-react/src/services/profile.service.ts:192-201 | after an update the two answers are the token's claims, absent reading as false |
| `Profiles.ProfileService.Init` | bridge-react/src/services/profile.service.ts:84-115 | a no-op once initialised; otherwise config and issuer (default auth base when empty) are set first; throws iff `appId` is empty, then staying uninitialised; else the audience is the app id and the key-set URL is `{issuer}/.well-known/jwks.json` |
| `Profiles.ProfileService.VerifyAndUpdateProfile` | bridge-react/src/services/profile.service.ts:120-180 | throws when uninitialised; a verified token sets the mapped profile and clears the error; a failure clears the profile and records the message for its kind |
| `Profiles.ProfileService.UpdateProfile` | bridge-react/src/services/profile.service.ts:213-257 | throws without touching the store when uninitialised; no ID token clears the profile; otherwise verifies it; the loading flag ends down |
| `Profiles.ProfileService.GetCurrentProfile` | bridge-react/src/services/profile.service.ts:185-187 | the profile the service holds, None when it holds none |
| `Profiles.ProfileService.IsOnboarded` | bridge-react/src/services/profile.service.ts:192-194 | true iff the service holds a profile whose `onboarded` is true |
| `Profiles.ProfileService.HasMultiTenantAccess` | bridge-react/src/services/profile.service.ts:199-201 | true iff the service holds a profile whose `multiTenantAccess` is true |
| `Profiles.ProfileService.ClearProfile` | bridge-react/src/services/profile.service.ts:206-208 | the profile becomes null, nothing else changes |
| `Profiles.ProfileService.SetProfile` | bridge-react/src/services/profile.service.ts:263-266 | the profile is installed unverified and the error cleared |
| `Callback.BuildUrl` | bridge-react/src/components/auth/CallbackHandler.tsx:33-37 | no query gives the path; otherwise the path, `?`, then the query |
| `Callback.BuildUrlRoundTrip` | bridge-react/src/components/auth/CallbackHandler.tsx:33-37 | the page at the built URL reads back the path and the same query pairs |
| `Callback.CallbackTarget` | bridge-react/src/components/auth/CallbackHandler.tsx:43-57 | a provider error goes to login with it; no code goes to login with "no_code"; a failed exchange goes to login with its message (or "auth_failed"); else the success route |
| `Callback.FailureReason` | bridge-react/src/components/auth/CallbackHandler.tsx:43-57 | there is no failure iff the provider sent no error, a code is present and the exchange succeeded; a provider error is the reason itself |
| `Callback.LoginPageReadsReason` | bridge-react/src/components/auth/CallbackHandler.tsx:43-57 | the login page's `error` parameter reads back exactly the failure reason; no failure lands on the success route |
| `Callback.CallbackHandler.Run` | bridge-react/src/components/auth/CallbackHandler.tsx:18-59 | the first run replaces the route once with `CallbackTarget(...)` and exchanges the code only when there is no error and a code; later runs do nothing |
| `Callback.MountTwice` | bridge-react/src/components/auth/CallbackHandler.tsx:18-22 | mounting twice redirects once and exchanges at most once |
| `TokenStatusView.SecondsUntil` | bridge-react/src/components/auth/TokenStatus.tsx:52-53 | `Math.floor` of the remaining milliseconds over 1000 |
| `TokenStatusView.FreshSeconds` | bridge-react/src/components/auth/TokenStatus.tsx:61-69 | a reading exists iff the token is present with a non-falsy expiry, and it is the floor of the remaining seconds |
| `TokenStatusView.ShownNegativeIffExpired` | bridge-react/src/components/auth/TokenStatus.tsx:52-53 | the count shown is negative iff the token is expired and not at its exact expiry millisecond |
| `TokenStatusView.FormatExpiryTime` | bridge-react/src/components/auth/TokenStatus.tsx:96-111 | no reading gives "No token", a negative one "Expired"; under a minute only seconds are shown; from a minute on, whole minutes and a seconds part below 60 |
| `TokenStatusView.ParseFormatExpiryTime` | bridge-react/src/components/auth/TokenStatus.tsx:96-111 | the text reads back as "No token", "Expired" or the exact remaining seconds |
| `TokenStatusView.FormatLastRenewal` | bridge-react/src/components/auth/TokenStatus.tsx:114-121 | no renewal (or time 0) gives "No renewals yet"; else the locale time |
| `TokenStatusView.Truncate` | demo/src/pages/TokenStatusPage.tsx:51-59 | empty gives a dash; up to 16 characters are kept; longer gives the first 8, an ellipsis and the last 6; never over 16 |
| `TokenStatusView.TruncateIsIdempotent` | demo/src/pages/TokenStatusPage.tsx:51-59 | truncating a truncated value changes nothing |
| `TokenStatusView.TokenStatusPanel.Mount` | bridge-react/src/components/auth/TokenStatus.tsx:43-58 | `hasToken` is the token's presence; with no token the count is null; with one it is the fresh reading, else kept |
| `TokenStatusView.TokenStatusPanel.Tick` | bridge-react/src/components/auth/TokenStatus.tsx:61-70 | a fresh reading replaces the count, otherwise the count is kept |
| `TokenStatusView.TokenStatusPanel.OnRefreshClick` | bridge-react/src/components/auth/TokenStatus.tsx:76-93 | ignored while renewing: no request, no change to the service's refresh state, renewal time or storage; otherwise success iff the service's refresh succeeds, sending exactly the request `RefreshToken` sends and stamping the renewal time; the in-flight flag, configuration and timers of the service are left as they were |

## Left out

- I/O is not modelled: `fetch`, JSON bodies, localStorage and timers are represented by parameters, maps and logs. Mapping JSON fields (`access_token` to `accessToken`, …) is not modelled: an ok response carries the typed body.
- Console logging and the `debug` switches only log, so they are not modelled.
- Singletons (`getInstance`) are not modelled; the model works on explicit instances.
- The React hooks and providers are not modelled beyond the config merge, because they only wire the services together. The team-management and plan services, routing adapters and other components are outside this core.
- `TokenService.isValidToken` is not modelled separately: it repeats the store's `isAuthenticated` (`Tokens.Authenticated`), and nothing calls it.
- Fractional `exp` claims are not modelled: `exp` is whole seconds. A claim that JavaScript coerces to a number (a numeric string, or `null` as 0) is given to the model as that number.
- `jose.jwtVerify` and `createRemoteJWKSet` are not modelled: they are the parameter `verify`, and `new URL(...)` in `ProfileService.init` is assumed to succeed.
- `toLocaleTimeString` is not modelled; it is the parameter `localeTime`.
- Concurrency is modelled only as the single-flight flag observed across the split refresh; other interleavings are not modelled.
- Throwing a non-`Error` value is modelled only in `CallbackHandler`, as `"auth_failed"`; elsewhere a thrown value carries a message.
- Tokens.NextCheckInterval: computes on exact rationals, not IEEE doubles. No rounding is modelled.
- Tokens.TokenService.CompleteRefresh: does not model the `if (!tokens)` check, since an object literal is always truthy.
- Uri.ParseQuery: returns None on a malformed percent escape, where `URLSearchParams` keeps the text as it is; the lenient repair is not modelled.
- TokenStatusView.Truncate: counts Unicode scalar values, whereas JavaScript `length` and `slice` count UTF-16 code units; they differ for characters outside the Basic Multilingual Plane.
- Tokens.TokenStore: assumes a browser, where `typeof window` is defined. On a server the store's fields start as null, and `setTokens`/`clearTokens` change only the fields and never touch localStorage (token.service.ts:25-27, 30, 43). The model's `Valid()` ties the fields to `storage` in every state, so that branch is not represented.
- Tokens.TokenService.CompleteRefresh: stamps `lastRenewalTime` with the `now` the refresh was started with; the `Date.now()` read after the `await` is not a separate parameter.
- FeatureFlags.FlagCache.LoadFeatureFlags: stamps `lastFetchTime` with the same `now` that `IsFeatureEnabled` uses for its staleness test, although the source reads `Date.now()` again after the `await`.
- Profiles.ProfileService.VerifyAndUpdateProfile: omits the "not properly initialized" branch, which `Valid()` makes unreachable.
- Profiles.ProfileService.UpdateProfile: omits the `catch` block, which no path reaches.
- Callback.CallbackHandler.Run: requires both routes to be present, as the non-null assertions `loginRoute!` and `defaultRedirectRoute!` claim. The merged configuration guarantees it only for props whose keys are absent or defined (`Config.MergedKeepsDefaults`); a route passed as `undefined` is not modelled.
- Config.Spread: takes every props key as either absent or holding a value. In `{ ...DEFAULT_CONFIG, ...config }` a key present with the value `undefined` (for example `authBaseUrl: import.meta.env.VITE_X` with the variable unset) overrides the default with `undefined`. The login URL then starts with "undefined/url/login/" and `loginRoute!` can be undefined. The model does not represent such keys.
- FeatureFlags.Answer: treats the cache as a plain dictionary. In the source it is an object literal: `cachedFlags[flagName] ?? false` for an inherited name such as "constructor", "toString" or "hasOwnProperty" returns a function, which callers read as enabled, and storing "__proto__" (lines 55 and 94) stores no key. The model answers false for those names and stores "__proto__" like any other.
- FeatureFlags.FlagCache.GetCachedFlags: returns the cache as a Dafny value, so the copy `{ ...cachedFlags }` makes and its independence from later updates are implicit; aliasing of the module-level object is not modelled.
- Uri.Encode: is defined on Unicode scalar values; the `URIError` that `encodeURIComponent` throws on a lone surrogate is not modelled.
- Profiles.ToProfile: assumes the verified payload carries the claims `IDToken` declares (`sub`, `email`, `name`, …); the source casts it without checking (`payload as unknown as IDToken`), so a missing claim would yield `undefined` fields, which are not modelled.
