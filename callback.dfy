/**
 * `CallbackHandler` of bridge-react/src/components/auth/CallbackHandler.tsx:
 * on its first mount it reads `code` and `error` from the page's query
 * string, exchanges the code, and replaces the route with the success route
 * or with the login route carrying an `error` parameter.
 *
 * The query string arrives parsed (`SearchParams` is the parser), the
 * exchange's outcome is a parameter, and the router's `replace` calls are
 * the log `replaced`.
 */
module Callback {
  import opened Base
  import opened Uri
  import opened Config

  /**
   * How `await handleCallback(code)` ends: it returns, throws an `Error`
   * with a message, or throws some other value.
   */
  datatype Exchange = Exchanged | ErrorThrown(message: string) | ValueThrown

  /** The `error` a failed exchange is reported with. */
  function ExchangeError(e: Exchange): string
    requires !e.Exchanged?
  {
    if e.ErrorThrown? then e.message else "auth_failed"
  }

  /** buildUrl: the path alone, or the path, `?` and the serialized query. */
  function BuildUrl(path: string, query: seq<(string, string)>): (url: string)
    ensures query == [] ==> url == path
    ensures query != [] ==> |url| > |path| && url[..|path|] == path && url[|path|] == '?'
  {
    if query == [] then path else path + "?" + SerializeQuery(query)
  }

  /**
   * What a page at the built URL reads back: the path before the first `?`,
   * and the query it was given, in order.
   */
  lemma BuildUrlRoundTrip(path: string, query: seq<(string, string)>)
    requires '?' !in path && query != []
    ensures var url := BuildUrl(path, query);
      && SplitFirst(url, '?').0 == path
      && SearchParams("?" + SplitFirst(url, '?').1) == Some(query)
  {
    var qs := SerializeQuery(query);
    SplitFirstAt(path, qs, '?');
    assert BuildUrl(path, query) == path + ['?'] + qs;
    ParseSerializeQuery(query);
    assert ("?" + qs)[1..] == qs;
  }

  /**
   * The route process() replaces the page with: an `error` the provider
   * sent goes back to the login route, so does a missing code (as
   * "no_code") and a failed exchange (as its message); otherwise the
   * success route.
   */
  function CallbackTarget(params: seq<(string, string)>, loginRoute: string, successRoute: string,
                          exchange: Exchange): (url: string)
    ensures Truthy(QueryGet(params, "error")) ==>
      url == BuildUrl(loginRoute, [("error", QueryGet(params, "error").value)])
    ensures !Truthy(QueryGet(params, "error")) && !Truthy(QueryGet(params, "code")) ==>
      url == BuildUrl(loginRoute, [("error", "no_code")])
    ensures !Truthy(QueryGet(params, "error")) && Truthy(QueryGet(params, "code")) ==>
      url == (if exchange.Exchanged? then successRoute else BuildUrl(loginRoute, [("error", ExchangeError(exchange))]))
  {
    var code, callbackError := QueryGet(params, "code"), QueryGet(params, "error");
    if Truthy(callbackError) then BuildUrl(loginRoute, [("error", callbackError.value)])
    else if !Truthy(code) then BuildUrl(loginRoute, [("error", "no_code")])
    else if exchange.Exchanged? then successRoute
    else BuildUrl(loginRoute, [("error", ExchangeError(exchange))])
  }

  /** Why the handler goes back to the login route, or None when it goes to the success route. */
  function FailureReason(params: seq<(string, string)>, exchange: Exchange): (r: Option<string>)
    ensures r.None? <==>
      !Truthy(QueryGet(params, "error")) && Truthy(QueryGet(params, "code")) && exchange.Exchanged?
    ensures Truthy(QueryGet(params, "error")) ==> r == QueryGet(params, "error")
  {
    var code, callbackError := QueryGet(params, "code"), QueryGet(params, "error");
    if Truthy(callbackError) then callbackError
    else if !Truthy(code) then Some("no_code")
    else if !exchange.Exchanged? then Some(ExchangeError(exchange))
    else None
  }

  /**
   * Without a failure the page lands on the success route; with one it
   * lands on the login route, whose `error` parameter reads back exactly the
   * reason: the provider's error, "no_code", or the exchange's error.
   */
  lemma LoginPageReadsReason(params: seq<(string, string)>, loginRoute: string, successRoute: string,
                             exchange: Exchange)
    requires '?' !in loginRoute
    ensures var url := CallbackTarget(params, loginRoute, successRoute, exchange);
      FailureReason(params, exchange).None? ==> url == successRoute
    ensures var url := CallbackTarget(params, loginRoute, successRoute, exchange);
      FailureReason(params, exchange).Some? ==>
        && SplitFirst(url, '?').0 == loginRoute
        && SearchParams("?" + SplitFirst(url, '?').1).Some?
        && QueryGet(SearchParams("?" + SplitFirst(url, '?').1).value, "error") == FailureReason(params, exchange)
  {
    var reason := FailureReason(params, exchange);
    if reason.Some? {
      BuildUrlRoundTrip(loginRoute, [("error", reason.value)]);
    }
  }

  /** The component instance: its `didRun` ref, the router's replacements and the codes exchanged. */
  class CallbackHandler {
    var didRun: bool
    var replaced: seq<string>
    var exchanged: seq<string>

    /** One redirect per instance, and an exchange only on the run that made it. */
    ghost predicate Valid()
      reads this
    {
      && |replaced| == (if didRun then 1 else 0)
      && |exchanged| <= |replaced|
    }

    constructor ()
      ensures Valid() && !didRun && replaced == [] && exchanged == []
    {
      didRun := false;
      replaced := [];
      exchanged := [];
    }

    /**
     * The mount effect. `loginRoute!` and `defaultRedirectRoute!` assert the
     * two routes are present, as the provider's merged configuration
     * guarantees.
     */
    method Run(params: seq<(string, string)>, config: BridgeConfig, exchange: Exchange)
      requires Valid()
      requires config.loginRoute.Some? && config.defaultRedirectRoute.Some?
      modifies this
      ensures Valid() && didRun
      ensures old(didRun) ==> replaced == old(replaced) && exchanged == old(exchanged)
      ensures !old(didRun) ==>
        replaced == [CallbackTarget(params, config.loginRoute.value, config.defaultRedirectRoute.value, exchange)]
      ensures !old(didRun) && !Truthy(QueryGet(params, "error")) && Truthy(QueryGet(params, "code")) ==>
        exchanged == [QueryGet(params, "code").value]
      ensures !old(didRun) && (Truthy(QueryGet(params, "error")) || !Truthy(QueryGet(params, "code"))) ==>
        exchanged == []
    {
      if didRun {
        return;
      }
      didRun := true;
      var code := QueryGet(params, "code");
      var callbackError := QueryGet(params, "error");
      var loginRoute, successRoute := config.loginRoute.value, config.defaultRedirectRoute.value;
      if Truthy(callbackError) {
        replaced := replaced + [BuildUrl(loginRoute, [("error", callbackError.value)])];
      } else if !Truthy(code) {
        replaced := replaced + [BuildUrl(loginRoute, [("error", "no_code")])];
      } else {
        exchanged := exchanged + [code.value];
        if exchange.Exchanged? {
          replaced := replaced + [successRoute];
        } else {
          replaced := replaced + [BuildUrl(loginRoute, [("error", ExchangeError(exchange))])];
        }
      }
    }
  }

  /** A second mount of the same instance (a development-mode re-run) does nothing. */
  method MountTwice(h: CallbackHandler, params: seq<(string, string)>, config: BridgeConfig, exchange: Exchange)
    requires h.Valid() && !h.didRun
    requires config.loginRoute.Some? && config.defaultRedirectRoute.Some?
    modifies h
    ensures h.replaced == [CallbackTarget(params, config.loginRoute.value, config.defaultRedirectRoute.value, exchange)]
    ensures |h.exchanged| <= 1
  {
    h.Run(params, config, exchange);
    h.Run(params, config, exchange);
  }
}
