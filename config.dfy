/**
 * The SDK configuration (bridge-react/src/types/config.ts), where every field
 * is optional, and the two places that assemble one: the provider, which
 * layers environment variables over props over defaults, and the demo's
 * builder, which reads only Vite variables.
 */
module Config {
  import opened Base

  /**
   * `BridgeConfig`; None is a key the object does not have. A key present
   * with the value `undefined` is not represented: it reads as absent.
   */
  datatype BridgeConfig = BridgeConfig(
    appId: Option<string>,
    callbackUrl: Option<string>,
    authBaseUrl: Option<string>,
    defaultRedirectRoute: Option<string>,
    loginRoute: Option<string>,
    teamManagementUrl: Option<string>,
    cloudViewsUrl: Option<string>,
    debug: Option<bool>)

  const NoConfig := BridgeConfig(None, None, None, None, None, None, None, None)

  const DefaultAuthBaseUrl := "https://api.thebridge.dev/auth"

  /** DEFAULT_CONFIG of the provider. */
  const DefaultConfig := BridgeConfig(
    None,
    None,
    Some(DefaultAuthBaseUrl),
    Some("/"),
    Some("/login"),
    Some("https://api.thebridge.dev/cloud-views/user-management-portal/users"),
    Some("https://api.thebridge.dev/cloud-views"),
    Some(false))

  function Over<T>(top: Option<T>, below: Option<T>): Option<T> {
    if top.Some? then top else below
  }

  /** `{ ...below, ...top }`: every key `top` has replaces the one below it. */
  function Spread(below: BridgeConfig, top: BridgeConfig): (r: BridgeConfig)
    ensures top == NoConfig ==> r == below
    ensures below == NoConfig ==> r == top
  {
    BridgeConfig(
      Over(top.appId, below.appId),
      Over(top.callbackUrl, below.callbackUrl),
      Over(top.authBaseUrl, below.authBaseUrl),
      Over(top.defaultRedirectRoute, below.defaultRedirectRoute),
      Over(top.loginRoute, below.loginRoute),
      Over(top.teamManagementUrl, below.teamManagementUrl),
      Over(top.cloudViewsUrl, below.cloudViewsUrl),
      Over(top.debug, below.debug))
  }

  // ---------------------------------------------------------------------
  // Environment variables
  // ---------------------------------------------------------------------

  /**
   * Where the provider finds variables: `process.env` when a `process`
   * global with an `env` exists, otherwise `import.meta.env`, otherwise none.
   */
  datatype EnvSource =
    | ProcessEnv(vars: map<string, string>)
    | ImportMetaEnv(vars: map<string, string>)
    | NoEnv

  /** getEnvVar: the REACT_APP_ variable when it is non-empty, else the VITE_ one. */
  function EnvVar(src: EnvSource, name: string): (r: Option<string>)
    ensures src.ProcessEnv? && Truthy(Lookup(src.vars, "REACT_APP_" + name))
            ==> r == Lookup(src.vars, "REACT_APP_" + name)
    ensures src.ProcessEnv? && !Truthy(Lookup(src.vars, "REACT_APP_" + name))
            ==> r == Lookup(src.vars, "VITE_" + name)
    ensures src.ImportMetaEnv? ==> r == Lookup(src.vars, "VITE_" + name)
    ensures src.NoEnv? ==> r == None
  {
    match src
    case ProcessEnv(vars) => OrElse(Lookup(vars, "REACT_APP_" + name), Lookup(vars, "VITE_" + name))
    case ImportMetaEnv(vars) => Lookup(vars, "VITE_" + name)
    case NoEnv => None
  }

  /** A string variable sets its key only when it is non-empty. */
  function IfTruthy(v: Option<string>): (r: Option<string>)
    ensures r.Some? <==> Truthy(v)
    ensures r.Some? ==> r == v
  {
    if Truthy(v) then v else None
  }

  /** The debug variable sets its key whenever it is defined, to whether it is exactly "true". */
  function DebugFlag(v: Option<string>): (r: Option<bool>)
    ensures r.Some? <==> v.Some?
    ensures r.Some? ==> (r.value <==> v.value == "true")
  {
    if v.Some? then Some(v.value == "true") else None
  }

  /**
   * getConfigFromEnv: nothing without an environment; otherwise only
   * non-empty strings are taken, and debug whenever its variable is defined.
   */
  function ConfigFromEnv(src: EnvSource): (r: BridgeConfig)
    ensures src.NoEnv? ==> r == NoConfig
    ensures r.appId.Some? ==> Truthy(r.appId)
    ensures r.callbackUrl.Some? ==> Truthy(r.callbackUrl)
    ensures r.authBaseUrl.Some? ==> Truthy(r.authBaseUrl)
    ensures r.defaultRedirectRoute.Some? ==> Truthy(r.defaultRedirectRoute)
    ensures r.loginRoute.Some? ==> Truthy(r.loginRoute)
    ensures r.teamManagementUrl.Some? ==> Truthy(r.teamManagementUrl)
    ensures r.cloudViewsUrl.Some? ==> Truthy(r.cloudViewsUrl)
    ensures r.debug.Some? <==> EnvVar(src, "BRIDGE_DEBUG").Some?
  {
    BridgeConfig(
      IfTruthy(EnvVar(src, "BRIDGE_APP_ID")),
      IfTruthy(EnvVar(src, "BRIDGE_CALLBACK_URL")),
      IfTruthy(EnvVar(src, "BRIDGE_AUTH_BASE_URL")),
      IfTruthy(EnvVar(src, "BRIDGE_DEFAULT_REDIRECT_ROUTE")),
      IfTruthy(EnvVar(src, "BRIDGE_LOGIN_ROUTE")),
      IfTruthy(EnvVar(src, "BRIDGE_TEAM_MANAGEMENT_URL")),
      IfTruthy(EnvVar(src, "BRIDGE_CLOUD_VIEWS_URL")),
      DebugFlag(EnvVar(src, "BRIDGE_DEBUG")))
  }

  /** The configuration BridgeConfigProvider hands down: defaults, then props, then environment. */
  function MergedConfig(src: EnvSource, props: Option<BridgeConfig>): (r: BridgeConfig)
    ensures ConfigFromEnv(src) == NoConfig ==> r == Spread(DefaultConfig, props.GetOr(NoConfig))
    ensures ConfigFromEnv(src) == NoConfig && props.GetOr(NoConfig) == NoConfig ==> r == DefaultConfig
  {
    Spread(Spread(DefaultConfig, props.GetOr(NoConfig)), ConfigFromEnv(src))
  }

  /** First present value, in priority order. */
  function FirstOf<T>(a: Option<T>, b: Option<T>, c: Option<T>): Option<T> {
    if a.Some? then a else if b.Some? then b else c
  }

  /**
   * Field by field, the merged configuration takes the environment's value,
   * else the props' value, else the default.
   */
  lemma MergePriority(src: EnvSource, props: Option<BridgeConfig>)
    ensures var m, e, p, d := MergedConfig(src, props), ConfigFromEnv(src), props.GetOr(NoConfig), DefaultConfig;
      && m.appId == FirstOf(e.appId, p.appId, d.appId)
      && m.callbackUrl == FirstOf(e.callbackUrl, p.callbackUrl, d.callbackUrl)
      && m.authBaseUrl == FirstOf(e.authBaseUrl, p.authBaseUrl, d.authBaseUrl)
      && m.defaultRedirectRoute == FirstOf(e.defaultRedirectRoute, p.defaultRedirectRoute, d.defaultRedirectRoute)
      && m.loginRoute == FirstOf(e.loginRoute, p.loginRoute, d.loginRoute)
      && m.teamManagementUrl == FirstOf(e.teamManagementUrl, p.teamManagementUrl, d.teamManagementUrl)
      && m.cloudViewsUrl == FirstOf(e.cloudViewsUrl, p.cloudViewsUrl, d.cloudViewsUrl)
      && m.debug == FirstOf(e.debug, p.debug, d.debug)
  {
  }

  /**
   * Whatever is set, the keys that have defaults are present after the
   * merge, for props whose keys are absent or hold a value (see the
   * BridgeConfig note on keys present with the value undefined).
   */
  lemma MergedKeepsDefaults(src: EnvSource, props: Option<BridgeConfig>)
    ensures var m := MergedConfig(src, props);
      && m.authBaseUrl.Some? && m.defaultRedirectRoute.Some? && m.loginRoute.Some?
      && m.teamManagementUrl.Some? && m.cloudViewsUrl.Some? && m.debug.Some?
  {
  }

  /** An empty REACT_APP_ variable does not hide the VITE_ one. */
  lemma EmptyReactVariableFallsThrough(vars: map<string, string>, name: string)
    requires Lookup(vars, "REACT_APP_" + name) == Some("")
    ensures EnvVar(ProcessEnv(vars), name) == Lookup(vars, "VITE_" + name)
  {
  }

  // ---------------------------------------------------------------------
  // The demo application's builder (demo/src/utils/env.ts)
  // ---------------------------------------------------------------------

  /** `runtimeEnv.VITE_<name>`. */
  function ViteVar(env: map<string, string>, name: string): Option<string> {
    Lookup(env, "VITE_" + name)
  }

  /** getBridgeConfig over `import.meta.env`. */
  function DemoBridgeConfig(env: map<string, string>): (r: Outcome<BridgeConfig>)
    ensures r.Thrown? <==> !Truthy(ViteVar(env, "BRIDGE_APP_ID"))
    ensures r.Thrown? ==> r.message == "VITE_BRIDGE_APP_ID is required. Check your .env file."
    ensures r.Returned? ==>
      && r.value.appId == ViteVar(env, "BRIDGE_APP_ID")
      && r.value.authBaseUrl == IfTruthy(ViteVar(env, "BRIDGE_AUTH_BASE_URL"))
      && r.value.callbackUrl == IfTruthy(ViteVar(env, "BRIDGE_CALLBACK_URL"))
      && r.value.defaultRedirectRoute == IfTruthy(ViteVar(env, "BRIDGE_DEFAULT_REDIRECT_ROUTE"))
      && r.value.loginRoute == IfTruthy(ViteVar(env, "BRIDGE_LOGIN_ROUTE"))
      && r.value.teamManagementUrl == IfTruthy(ViteVar(env, "BRIDGE_TEAM_MANAGEMENT_URL"))
      && r.value.debug == DebugFlag(ViteVar(env, "BRIDGE_DEBUG"))
      && r.value.cloudViewsUrl == None
  {
    var appId := ViteVar(env, "BRIDGE_APP_ID");
    if !Truthy(appId) then Thrown("VITE_BRIDGE_APP_ID is required. Check your .env file.")
    else
      Returned(BridgeConfig(
        appId,
        IfTruthy(ViteVar(env, "BRIDGE_CALLBACK_URL")),
        IfTruthy(ViteVar(env, "BRIDGE_AUTH_BASE_URL")),
        IfTruthy(ViteVar(env, "BRIDGE_DEFAULT_REDIRECT_ROUTE")),
        IfTruthy(ViteVar(env, "BRIDGE_LOGIN_ROUTE")),
        IfTruthy(ViteVar(env, "BRIDGE_TEAM_MANAGEMENT_URL")),
        None,
        DebugFlag(ViteVar(env, "BRIDGE_DEBUG"))))
  }

  /**
   * The demo's builder agrees with the provider's reading of the same
   * variables through `import.meta.env`, except for the cloud-views URL,
   * which it never reads.
   */
  lemma DemoAgreesWithProviderEnv(env: map<string, string>)
    requires DemoBridgeConfig(env).Returned?
    ensures DemoBridgeConfig(env).value
            == ConfigFromEnv(ImportMetaEnv(env)).(cloudViewsUrl := None)
  {
  }
}
