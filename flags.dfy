/**
 * The feature-flag client of bridge-react/src/services/feature-flag.service.ts.
 *
 * The TypeScript module keeps its cache in two module-level variables; here
 * they are the fields of one `FlagCache` object, together with the log of
 * the requests sent. Each `fetch` is a `Response` parameter and the clock is
 * a parameter `now` (milliseconds).
 */
module FeatureFlags {
  import opened Base

  const BaseUrl := "https://backendless.nblocks.cloud"

  /** cacheValidityMs: five minutes. */
  const CacheValidityMs := 5 * 60 * 1000

  const LoadFailed := "Failed to load feature flags"

  /**
   * One element of a bulk response: the flag's name and
   * `evaluation?.enabled`, None when the evaluation or its `enabled` is
   * missing.
   */
  datatype FlagResponse = FlagResponse(flag: string, enabled: Option<bool>)

  /** A request the client sends; both carry the access token in their JSON body. */
  datatype FlagRequest =
    | BulkEvaluate(url: string, accessToken: string)
    | Evaluate(url: string, accessToken: string)

  function BulkUrl(appId: string): string {
    BaseUrl + "/flags/bulkEvaluate/" + appId
  }

  function EvaluateUrl(appId: string, flagName: string): string {
    BaseUrl + "/flags/evaluate/" + appId + "/" + flagName
  }

  /** `cachedFlags[flagName] ?? false`: a flag the cache does not know is off. */
  function Answer(cache: map<string, bool>, flagName: string): (r: bool)
    ensures flagName !in cache ==> !r
    ensures flagName in cache ==> r == cache[flagName]
  {
    Lookup(cache, flagName).GetOr(false)
  }

  /**
   * The `reduce` of loadFeatureFlags: left to right, each element sets its
   * flag to its `enabled`, or to false when that is missing.
   */
  function BuildFlagMap(flags: seq<FlagResponse>): (cache: map<string, bool>)
    ensures forall i :: 0 <= i < |flags| ==> flags[i].flag in cache
    ensures flags != [] ==> cache[flags[|flags| - 1].flag] == flags[|flags| - 1].enabled.GetOr(false)
  {
    if flags == [] then map[]
    else
      var last, prefix := flags[|flags| - 1], flags[..|flags| - 1];
      var before := BuildFlagMap(prefix);
      assert forall i :: 0 <= i < |prefix| ==> flags[i] == prefix[i];
      before[last.flag := last.enabled.GetOr(false)]
  }

  /** The position of the last element naming `flag`, if any. */
  function LastIndexOf(flags: seq<FlagResponse>, flag: string): (r: Option<nat>)
    ensures r.None? ==> forall j :: 0 <= j < |flags| ==> flags[j].flag != flag
    ensures r.Some? ==> r.value < |flags| && flags[r.value].flag == flag
    ensures r.Some? ==> forall j :: r.value < j < |flags| ==> flags[j].flag != flag
  {
    if flags == [] then None
    else if flags[|flags| - 1].flag == flag then Some(|flags| - 1)
    else LastIndexOf(flags[..|flags| - 1], flag)
  }

  /**
   * The cache a bulk load builds holds exactly the flags named in the
   * response, and when a flag is named twice the later element wins.
   */
  lemma {:induction false} BuildFlagMapLookup(flags: seq<FlagResponse>, flag: string)
    ensures Lookup(BuildFlagMap(flags), flag) ==
      match LastIndexOf(flags, flag)
      case None => None
      case Some(i) => Some(flags[i].enabled.GetOr(false))
  {
    if flags != [] {
      BuildFlagMapLookup(flags[..|flags| - 1], flag);
    }
  }

  /** The keys of the built cache are the names the response carries. */
  lemma BuildFlagMapKeys(flags: seq<FlagResponse>)
    ensures BuildFlagMap(flags).Keys == set i | 0 <= i < |flags| :: flags[i].flag
  {
    forall flag
      ensures flag in BuildFlagMap(flags) <==> exists i :: 0 <= i < |flags| && flags[i].flag == flag
    {
      BuildFlagMapLookup(flags, flag);
    }
  }

  class FlagCache {
    var cachedFlags: map<string, bool>
    var lastFetchTime: int
    var requests: seq<FlagRequest>

    /** The module's initial state: an empty cache fetched at time 0. */
    constructor ()
      ensures cachedFlags == map[] && lastFetchTime == 0 && requests == []
    {
      cachedFlags := map[];
      lastFetchTime := 0;
      requests := [];
    }

    /** getCachedFlags: the cache as a value, which later updates of the cache do not reach. */
    function GetCachedFlags(): (r: map<string, bool>)
      reads this
      ensures r.Keys == cachedFlags.Keys
      ensures forall flag :: Answer(r, flag) == Answer(cachedFlags, flag)
    {
      cachedFlags
    }

    /** `Date.now() - lastFetchTime < cacheValidityMs`. */
    predicate CacheValid(now: int)
      reads this
    {
      now - lastFetchTime < CacheValidityMs
    }

    /**
     * loadFeatureFlags: a successful bulk evaluation replaces the whole
     * cache and stamps it with `now`; a failure leaves both alone and is
     * rethrown.
     */
    method LoadFeatureFlags(appId: string, accessToken: string, response: Response<seq<FlagResponse>>, now: int)
      returns (r: Outcome<()>)
      modifies this
      ensures requests == old(requests) + [BulkEvaluate(BulkUrl(appId), accessToken)]
      ensures r.Returned? <==> response.Ok?
      ensures response.Ok? ==> cachedFlags == BuildFlagMap(response.body) && lastFetchTime == now
      ensures response.NotOk? ==> r == Thrown(LoadFailed)
      ensures response.Throws? ==> r == Thrown(response.message)
      ensures !response.Ok? ==> cachedFlags == old(cachedFlags) && lastFetchTime == old(lastFetchTime)
    {
      requests := requests + [BulkEvaluate(BulkUrl(appId), accessToken)];
      match response {
        case Ok(flags) =>
          cachedFlags := BuildFlagMap(flags);
          lastFetchTime := now;
          r := Returned(());
        case NotOk(_, _, _) =>
          r := Thrown(LoadFailed);
        case Throws(m) =>
          r := Thrown(m);
      }
    }

    /**
     * isFeatureEnabled: reload the cache when it is stale (a failed reload
     * propagates), then answer from a live evaluation when `forceLive`, else
     * from the cache. A live answer is written into the cache; a failed live
     * evaluation falls back to the cache.
     */
    method IsFeatureEnabled(flagName: string, appId: string, accessToken: string, forceLive: bool, now: int,
                            bulk: Response<seq<FlagResponse>>, live: Response<Option<bool>>)
      returns (r: Outcome<bool>)
      modifies this
      ensures r.Thrown? <==> !old(CacheValid(now)) && !bulk.Ok?
      ensures r.Thrown? ==> r.message == (if bulk.NotOk? then LoadFailed else bulk.message)
      ensures old(CacheValid(now)) ==> lastFetchTime == old(lastFetchTime)
      ensures !old(CacheValid(now)) && !bulk.Ok? ==>
        && r.Thrown? && cachedFlags == old(cachedFlags) && lastFetchTime == old(lastFetchTime)
        && requests == old(requests) + [BulkEvaluate(BulkUrl(appId), accessToken)]
      ensures old(CacheValid(now)) && !forceLive ==>
        r == Returned(Answer(old(cachedFlags), flagName)) && cachedFlags == old(cachedFlags) && requests == old(requests)
      ensures r.Returned? ==>
        requests == old(requests)
        + (if old(CacheValid(now)) then [] else [BulkEvaluate(BulkUrl(appId), accessToken)])
        + (if forceLive then [Evaluate(EvaluateUrl(appId, flagName), accessToken)] else [])
      ensures r.Returned? && forceLive && live.Ok? ==>
        && r.value == live.body.GetOr(false)
        && cachedFlags == (if old(CacheValid(now)) then old(cachedFlags) else BuildFlagMap(bulk.body))[flagName := r.value]
      ensures r.Returned? ==> r.value == Answer(cachedFlags, flagName)
      ensures !old(CacheValid(now)) && bulk.Ok? ==> lastFetchTime == now
      ensures r.Returned? && !(forceLive && live.Ok?) ==>
        cachedFlags == (if old(CacheValid(now)) then old(cachedFlags) else BuildFlagMap(bulk.body))
    {
      if !CacheValid(now) {
        var loaded := LoadFeatureFlags(appId, accessToken, bulk, now);
        if loaded.Thrown? {
          return Thrown(loaded.message);
        }
      }
      if forceLive {
        requests := requests + [Evaluate(EvaluateUrl(appId, flagName), accessToken)];
        match live {
          case Ok(enabled) =>
            var e := enabled.GetOr(false);
            cachedFlags := cachedFlags[flagName := e];
            return Returned(e);
          case NotOk(_, _, _) =>
            return Returned(Answer(cachedFlags, flagName));
          case Throws(_) =>
            return Returned(Answer(cachedFlags, flagName));
        }
      }
      r := Returned(Answer(cachedFlags, flagName));
    }
  }
}
