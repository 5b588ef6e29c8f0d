/**
 * The profile service of bridge-react/src/services/profile.service.ts: it
 * verifies the stored ID token against the issuer's key set (RFC 7517) and
 * turns its claims into a `Profile` held in a small store with a loading
 * flag and an error message.
 *
 * Signature verification (`jose.jwtVerify`) is a parameter `verify` that,
 * given the token, the expected issuer and the expected audience, returns
 * the claims or the kind of failure.
 */
module Profiles {
  import opened Base
  import opened Config
  import opened Tokens

  /** The claims of an ID token (`IDToken`); optional claims are Options. */
  datatype IdClaims = IdClaims(
    sub: string,
    preferredUsername: string,
    email: string,
    emailVerified: bool,
    name: string,
    familyName: Option<string>,
    givenName: Option<string>,
    locale: Option<string>,
    onboarded: Option<bool>,
    multiTenant: Option<bool>,
    tenantId: Option<string>,
    tenantName: Option<string>,
    tenantLocale: Option<string>,
    tenantLogo: Option<string>,
    tenantOnboarded: Option<bool>)

  datatype Tenant = Tenant(id: string, name: string, locale: Option<string>, logo: Option<string>, onboarded: Option<bool>)

  datatype Profile = Profile(
    id: string,
    username: string,
    email: string,
    emailVerified: bool,
    fullName: string,
    familyName: Option<string>,
    givenName: Option<string>,
    locale: Option<string>,
    onboarded: Option<bool>,
    multiTenantAccess: Option<bool>,
    tenant: Option<Tenant>)

  /** What `jose.jwtVerify` does with a token: its payload, or the class of error it throws. */
  datatype Verification =
    | Verified(claims: IdClaims)
    | JwtExpired
    | JwtInvalid
    | JwksNoMatchingKey
    | OtherFailure

  type Verifier = (string, string, string) -> Verification

  const NotInitialized := "ProfileService is not initialized. Call init() first."
  const AppIdRequired := "appId is required in configuration"

  /** The error message the store keeps for a failed verification. */
  function VerificationError(v: Verification): (m: string)
    requires !v.Verified?
  {
    match v
    case JwtExpired => "Token expired"
    case JwtInvalid => "Invalid token"
    case JwksNoMatchingKey => "JWKS error"
    case OtherFailure => "Error verifying token"
  }

  /**
   * The claims-to-profile mapping: a tenant exists exactly when the token
   * carries a non-empty tenant id, and a missing tenant name becomes "".
   */
  function ToProfile(c: IdClaims): (p: Profile)
    ensures p.id == c.sub && p.username == c.preferredUsername && p.email == c.email
    ensures p.emailVerified == c.emailVerified && p.fullName == c.name
    ensures p.familyName == c.familyName && p.givenName == c.givenName && p.locale == c.locale
    ensures p.onboarded == c.onboarded && p.multiTenantAccess == c.multiTenant
    ensures p.tenant.Some? <==> Truthy(c.tenantId)
    ensures p.tenant.Some? ==> p.tenant.value.id == c.tenantId.value && p.tenant.value.name == OrElse(c.tenantName, Some("")).value
    ensures p.tenant.Some? ==>
      && p.tenant.value.locale == c.tenantLocale && p.tenant.value.logo == c.tenantLogo
      && p.tenant.value.onboarded == c.tenantOnboarded
  {
    Profile(
      c.sub, c.preferredUsername, c.email, c.emailVerified, c.name,
      c.familyName, c.givenName, c.locale, c.onboarded, c.multiTenant,
      if Truthy(c.tenantId)
      then Some(Tenant(c.tenantId.value, OrElse(c.tenantName, Some("")).value, c.tenantLocale, c.tenantLogo, c.tenantOnboarded))
      else None)
  }

  /** The claims a token would need to carry to yield `p`; the partner of ToProfile. */
  function ClaimsOf(p: Profile): IdClaims {
    var t := p.tenant;
    IdClaims(
      p.id, p.username, p.email, p.emailVerified, p.fullName,
      p.familyName, p.givenName, p.locale, p.onboarded, p.multiTenantAccess,
      if t.Some? then Some(t.value.id) else None,
      if t.Some? then Some(t.value.name) else None,
      if t.Some? then t.value.locale else None,
      if t.Some? then t.value.logo else None,
      if t.Some? then t.value.onboarded else None)
  }

  /** Every profile whose tenant, if any, has a non-empty id comes from some token's claims. */
  lemma ToProfileOfClaimsOf(p: Profile)
    requires p.tenant.Some? ==> p.tenant.value.id != ""
    ensures ToProfile(ClaimsOf(p)) == p
  {
  }

  /**
   * Tenant claims without a tenant id are dropped, and an empty tenant name
   * reads the same as a missing one.
   */
  lemma ToProfileForgets(c: IdClaims)
    ensures !Truthy(c.tenantId) ==> ToProfile(c) == ToProfile(c.(tenantName := None, tenantLocale := None,
                                                                  tenantLogo := None, tenantOnboarded := None))
    ensures c.tenantName == Some("") ==> ToProfile(c) == ToProfile(c.(tenantName := None))
  {
  }

  /** `profile?.onboarded ?? false`. */
  function Onboarded(p: Option<Profile>): (r: bool)
    ensures r <==> p.Some? && p.value.onboarded == Some(true)
  {
    p.Some? && p.value.onboarded.GetOr(false)
  }

  /** `profile?.multiTenantAccess ?? false`. */
  function MultiTenant(p: Option<Profile>): (r: bool)
    ensures r <==> p.Some? && p.value.multiTenantAccess == Some(true)
  {
    p.Some? && p.value.multiTenantAccess.GetOr(false)
  }

  /** `ProfileService` together with its profile store. */
  class ProfileService {
    const tokens: TokenStore
    var config: Option<BridgeConfig>
    var expectedIssuer: Option<string>
    var expectedAudience: Option<string>
    /** The key-set URL the remote JWKS client is created for. */
    var jwksUrl: Option<string>
    var isInitialized: bool
    var profile: Option<Profile>
    var isLoading: bool
    var error: Option<string>

    /** Once initialized, the issuer, audience and key set are all in place. */
    ghost predicate Valid()
      reads this
    {
      isInitialized ==>
        && Truthy(expectedIssuer) && Truthy(expectedAudience)
        && jwksUrl == Some(expectedIssuer.value + "/.well-known/jwks.json")
    }

    constructor (tokens: TokenStore)
      ensures Valid() && this.tokens == tokens
      ensures config == None && expectedIssuer == None && expectedAudience == None && jwksUrl == None
      ensures !isInitialized && profile == None && !isLoading && error == None
    {
      this.tokens := tokens;
      config := None;
      expectedIssuer := None;
      expectedAudience := None;
      jwksUrl := None;
      isInitialized := false;
      profile := None;
      isLoading := false;
      error := None;
    }

    /**
     * init: a no-op once initialized. Otherwise the configuration and the
     * issuer are recorded before the app id is checked, so a configuration
     * without an app id still leaves them set when init throws.
     */
    method Init(cfg: BridgeConfig) returns (r: Outcome<()>)
      requires Valid()
      modifies this
      ensures Valid()
      ensures old(isInitialized) ==>
        && r.Returned? && isInitialized && config == old(config)
        && expectedIssuer == old(expectedIssuer) && expectedAudience == old(expectedAudience) && jwksUrl == old(jwksUrl)
      ensures !old(isInitialized) ==>
        && config == Some(cfg)
        && expectedIssuer == OrElse(cfg.authBaseUrl, Some(DefaultAuthBaseUrl))
        && (r.Thrown? <==> !Truthy(cfg.appId))
        && (r.Thrown? ==> r.message == AppIdRequired && !isInitialized
                          && expectedAudience == old(expectedAudience) && jwksUrl == old(jwksUrl))
        && (r.Returned? ==> isInitialized && expectedAudience == cfg.appId)
      ensures profile == old(profile) && isLoading == old(isLoading) && error == old(error)
    {
      if isInitialized {
        return Returned(());
      }
      config := Some(cfg);
      expectedIssuer := OrElse(cfg.authBaseUrl, Some(DefaultAuthBaseUrl));
      if !Truthy(cfg.appId) {
        return Thrown(AppIdRequired);
      }
      expectedAudience := cfg.appId;
      jwksUrl := Some(expectedIssuer.value + "/.well-known/jwks.json");
      isInitialized := true;
      r := Returned(());
    }

    /**
     * verifyAndUpdateProfile: on success the profile is the token's claims
     * mapped and the error is cleared; on failure the profile is cleared and
     * the error names the failure.
     */
    method VerifyAndUpdateProfile(idToken: string, verify: Verifier) returns (r: Outcome<()>)
      requires Valid()
      modifies this
      ensures Valid()
      ensures !isInitialized ==> r == Thrown(NotInitialized) && profile == old(profile) && error == old(error)
      ensures isInitialized ==> r.Returned?
      ensures isInitialized ==> match verify(idToken, expectedIssuer.value, expectedAudience.value)
        case Verified(c) => profile == Some(ToProfile(c)) && error == None
        case _ => profile == None && error == Some(VerificationError(verify(idToken, expectedIssuer.value, expectedAudience.value)))
      ensures isLoading == old(isLoading) && isInitialized == old(isInitialized)
      ensures expectedIssuer == old(expectedIssuer) && expectedAudience == old(expectedAudience)
      ensures config == old(config) && jwksUrl == old(jwksUrl)
    {
      if !isInitialized {
        return Thrown(NotInitialized);
      }
      // Valid() makes the source's "not properly initialized" check unreachable here.
      var v := verify(idToken, expectedIssuer.value, expectedAudience.value);
      if v.Verified? {
        profile := Some(ToProfile(v.claims));
        error := None;
      } else {
        profile := None;
        error := Some(VerificationError(v));
      }
      r := Returned(());
    }

    /**
     * updateProfile: throws before touching the store when not initialized;
     * otherwise clears the profile when there is no ID token, else verifies
     * it, and ends with the loading flag down.
     */
    method UpdateProfile(verify: Verifier) returns (r: Outcome<()>)
      requires Valid()
      modifies this
      ensures Valid()
      ensures isInitialized == old(isInitialized) && config == old(config) && jwksUrl == old(jwksUrl)
      ensures expectedIssuer == old(expectedIssuer) && expectedAudience == old(expectedAudience)
      ensures !old(isInitialized) ==>
        r == Thrown(NotInitialized) && profile == old(profile) && error == old(error) && isLoading == old(isLoading)
      ensures old(isInitialized) ==> r.Returned? && !isLoading
      ensures old(isInitialized) && !Truthy(tokens.idToken) ==> profile == None && error == None
      ensures old(isInitialized) && Truthy(tokens.idToken) ==>
        match verify(tokens.idToken.value, expectedIssuer.value, expectedAudience.value)
        case Verified(c) => profile == Some(ToProfile(c)) && error == None
        case _ =>
          profile == None
          && error == Some(VerificationError(verify(tokens.idToken.value, expectedIssuer.value, expectedAudience.value)))
    {
      if !isInitialized {
        return Thrown(NotInitialized);
      }
      isLoading := true;
      error := None;
      var idToken := tokens.idToken;
      if !Truthy(idToken) {
        profile := None;
        isLoading := false;
        return Returned(());
      }
      r := VerifyAndUpdateProfile(idToken.value, verify);
      isLoading := false;
    }

    /** getCurrentProfile: the store's profile, null when none is held. */
    function GetCurrentProfile(): (r: Option<Profile>)
      reads this
      ensures r == profile
    {
      profile
    }

    /** isOnboarded: whether the held profile reports onboarding as done. */
    predicate IsOnboarded()
      reads this
      ensures IsOnboarded() <==> profile.Some? && profile.value.onboarded == Some(true)
    {
      Onboarded(profile)
    }

    /** hasMultiTenantAccess: whether the held profile reports multi-tenant access. */
    predicate HasMultiTenantAccess()
      reads this
      ensures HasMultiTenantAccess() <==> profile.Some? && profile.value.multiTenantAccess == Some(true)
    {
      MultiTenant(profile)
    }

    method ClearProfile()
      modifies this
      ensures profile == None && error == old(error) && isLoading == old(isLoading)
      ensures isInitialized == old(isInitialized) && expectedIssuer == old(expectedIssuer)
      ensures expectedAudience == old(expectedAudience) && jwksUrl == old(jwksUrl) && config == old(config)
    {
      profile := None;
    }

    /** setProfile: install a profile without verification, clearing the error. */
    method SetProfile(p: Profile)
      modifies this
      ensures profile == Some(p) && error == None && isLoading == old(isLoading)
      ensures isInitialized == old(isInitialized) && expectedIssuer == old(expectedIssuer)
      ensures expectedAudience == old(expectedAudience) && jwksUrl == old(jwksUrl) && config == old(config)
    {
      profile := Some(p);
      error := None;
    }
  }

  /**
   * After a successful update the onboarding and multi-tenant answers are
   * the token's claims, absent claims reading as false.
   */
  lemma AnswersFollowClaims(c: IdClaims)
    ensures Onboarded(Some(ToProfile(c))) == c.onboarded.GetOr(false)
    ensures MultiTenant(Some(ToProfile(c))) == c.multiTenant.GetOr(false)
    ensures !Onboarded(None) && !MultiTenant(None)
  {
  }
}
