/** The pure rules of `State` (state/state/src/lib/state.ts): cache strategies and their
    normalisation, expiry, keys and their namespaces, the base path, input validation,
    the auth-refresh decision and the pieces of the request URL. */
module StateRules {
  import opened Wrappers
  import opened Text
  import opened JsValue

  /** `CacheStrategy`, plus any other name a caller may pass. */
  datatype Strategy = None | CacheFirst | NetworkFirst | CacheOnly | Unrecognised(name: string)

  /** Why `fetch`, `get` or `set` throws, or the promise of `fetch` rejects. */
  datatype StateError =
    | InvalidUrl                       // an empty uri
    | InvalidMethod(verb: Value)       // a method outside `ValidMethods`
    | CallbackNotFunction
    | InvalidStrategy(name: string)    // a strategy name `fetch` does not dispatch on
    | MixedPersistence(contextKey: string)  // a persisted write of a key the session holds
    | ParseError                       // `JSON.parse` of the stored text "undefined"
    | TypeError(what: string)          // a property read of null or undefined, and the like

  const ValidMethods: seq<string> := ["GET", "POST", "PUT", "PATCH", "DELETE"]

  // ---------------------------------------------------------------- expiry

  /** `State.isExpired(cachedTime, ttl)` with the clock passed in as `now` (milliseconds).
      `stamp` is `Number(new Date(cachedTime))` and `ttl` the time-to-live in seconds;
      `None` stands for NaN in both. */
  predicate IsExpired(stamp: Option<int>, ttl: Option<int>, now: int) {
    stamp.None? || ttl.None? || (ttl.value != 0 && now > stamp.value + ttl.value * 1000)
  }

  /** `Number(new Date(v))` for the values the model stores as stamps: a number is a time
      in milliseconds and `null` is the epoch; any other value is an invalid date. */
  function DateOf(v: Value): Option<int> {
    match v
    case Num(n) => Some(n)
    case Null => Some(0)
    case Bool(b) => Some(if b then 1 else 0)
    case _ => Option.None
  }

  /** NaN on either side means expired; otherwise a zero ttl never expires and a non-zero
      one expires strictly after `stamp + ttl` seconds. */
  lemma ExpiryRule(stamp: Option<int>, ttl: Option<int>, now: int)
    ensures stamp.None? || ttl.None? ==> IsExpired(stamp, ttl, now)
    ensures stamp.Some? && ttl == Some(0) ==> !IsExpired(stamp, ttl, now)
    ensures stamp.Some? && ttl.Some? && ttl.value != 0 ==>
              (IsExpired(stamp, ttl, now) <==> now > stamp.value + ttl.value * 1000)
  {
  }

  /** Once expired, an entry stays expired as the clock moves on (for a non-negative ttl). */
  lemma ExpiryIsMonotone(stamp: Option<int>, ttl: Option<int>, now: int, later: int)
    requires now <= later
    requires ttl.Some? ==> ttl.value >= 0
    requires IsExpired(stamp, ttl, now)
    ensures IsExpired(stamp, ttl, later)
  {
  }

  /** An entry written at time `t` with a ttl of 60 seconds is fresh at `t + 59s` and
      expired at `t + 61s`. */
  lemma SixtySecondWindow(t: int)
    ensures !IsExpired(Some(t), Some(60), t + 59000)
    ensures IsExpired(Some(t), Some(60), t + 61000)
  {
  }

  // ---------------------------------------------------------------- keys

  /** `State.isValidKey`: a non-empty string. */
  predicate IsValidKey(key: Value) {
    key.Str? && key.s != ""
  }

  /** `generateContextKey`: `shared_<key>` for shared keys or a falsy (empty) context,
      `<context>_<key>` otherwise. */
  function ContextKey(context: string, key: string, shared: bool): string {
    (if !shared && context != "" then context else "shared") + "_" + key
  }

  /** For one raw key, two distinct non-empty contexts never collide. */
  lemma {:induction false} ContextKeysSeparateContexts(c1: string, c2: string, key: string)
    requires c1 != "" && c2 != "" && c1 != c2
    ensures ContextKey(c1, key, false) != ContextKey(c2, key, false)
  {
    var k1, k2 := ContextKey(c1, key, false), ContextKey(c2, key, false);
    if |c1| == |c2| {
      assert k1[..|c1|] == c1 && k2[..|c2|] == c2;
    } else {
      assert |k1| != |k2|;
    }
  }

  /** The context whose name is `shared`, and the empty context, write into the shared
      namespace: the separation above needs contexts other than these. */
  lemma SharedNamespaceAliases(key: string, context: string)
    ensures ContextKey("shared", key, false) == ContextKey(context, key, true)
    ensures ContextKey("", key, false) == ContextKey(context, key, true)
  {
  }

  /** Different raw keys of different contexts can collide: there is no escaping of `_`. */
  lemma ContextKeysCanCollideAcrossKeys()
    ensures ContextKey("a_b", "c", false) == ContextKey("a", "b_c", false)
  {
  }

  // ---------------------------------------------------------------- base path

  /** The constructor's `basePath`: a non-empty string gets a trailing `/`; anything else
      becomes the empty string. */
  function BasePath(basePath: Value): (r: string)
    ensures r == "" || r[|r| - 1] == '/'
    ensures basePath.Str? && basePath.s != "" ==> StartsWith(r, basePath.s) && |r| <= |basePath.s| + 1
  {
    if basePath.Str? && basePath.s != "" then
      (if basePath.s[|basePath.s| - 1] != '/' then basePath.s + "/" else basePath.s)
    else ""
  }

  /** Normalising an already normalised base path changes nothing. */
  lemma BasePathIdempotent(basePath: Value)
    ensures BasePath(Str(BasePath(basePath))) == BasePath(basePath)
  {
  }

  // ---------------------------------------------------------------- validation

  /** `typeof method === "string" && VALID_METHODS.includes(method.toUpperCase())`. */
  predicate IsValidMethod(verb: Value) {
    verb.Str? && Upper(verb.s) in ValidMethods
  }

  /** The three checks `fetch` makes, in order, before it touches storage. `uri` is the
      text the caller passed (the empty string is the falsy case). */
  function ValidateFetch(uri: string, verb: Value, callback: Value): (r: Result<(), StateError>)
    ensures r.Ok? <==> uri != "" && IsValidMethod(verb) && callback.Func?
    ensures uri == "" ==> r == Err(InvalidUrl)
    ensures uri != "" && !IsValidMethod(verb) ==> r == Err(InvalidMethod(verb))
    ensures uri != "" && IsValidMethod(verb) && !callback.Func? ==> r == Err(CallbackNotFunction)
  {
    if uri == "" then Err(InvalidUrl)
    else if !IsValidMethod(verb) then Err(InvalidMethod(verb))
    else if !callback.Func? then Err(CallbackNotFunction)
    else Ok(())
  }

  /** The method check ignores case. */
  lemma MethodCheckIgnoresCase()
    ensures IsValidMethod(Str("get")) && IsValidMethod(Str("Patch"))
    ensures !IsValidMethod(Str("HEAD")) && !IsValidMethod(Num(1))
  {
    assert Upper("get") == "GET";
    assert Upper("Patch") == "PATCH";
    assert Upper("HEAD") == "HEAD";
  }

  // ---------------------------------------------------------------- strategy

  /** The normalisation pass of `fetch`: a cache strategy with nothing cached becomes
      NetworkFirst; CacheOnly over an expired entry becomes CacheFirst. */
  function NormaliseStrategy(strategy: Strategy, cached: Value, expired: bool): Strategy {
    if strategy != Strategy.None && strategy != NetworkFirst && !Truthy(cached) then NetworkFirst
    else if strategy == CacheOnly && Truthy(cached) && expired then CacheFirst
    else strategy
  }

  lemma NormalisationRules(strategy: Strategy, cached: Value, expired: bool)
    ensures (strategy == CacheFirst || strategy == CacheOnly) && !Truthy(cached) ==>
              NormaliseStrategy(strategy, cached, expired) == NetworkFirst
    ensures strategy == CacheOnly && Truthy(cached) && expired ==>
              NormaliseStrategy(strategy, cached, expired) == CacheFirst
    ensures strategy == CacheOnly && Truthy(cached) && !expired ==>
              NormaliseStrategy(strategy, cached, expired) == CacheOnly
    ensures strategy == CacheFirst && Truthy(cached) ==>
              NormaliseStrategy(strategy, cached, expired) == CacheFirst
    ensures strategy == Strategy.None || strategy == NetworkFirst ==>
              NormaliseStrategy(strategy, cached, expired) == strategy
  {
  }

  /** On a cold cache even an unrecognised name is turned into NetworkFirst, so the
      "not a valid Cache Strategy" error is only reached with something cached. */
  lemma UnrecognisedStrategyOnColdCache(name: string, cached: Value, expired: bool)
    ensures !Truthy(cached) ==> NormaliseStrategy(Unrecognised(name), cached, expired) == NetworkFirst
    ensures Truthy(cached) ==> NormaliseStrategy(Unrecognised(name), cached, expired) == Unrecognised(name)
  {
  }

  /** After normalisation, the strategies that serve from cache have something to serve,
      and CacheOnly never serves an expired entry. */
  lemma NormalisedServesFromCacheOnlyWhenCached(strategy: Strategy, cached: Value, expired: bool)
    ensures var s := NormaliseStrategy(strategy, cached, expired);
            (s == CacheFirst || s == CacheOnly || s.Unrecognised?) ==> Truthy(cached)
    ensures NormaliseStrategy(strategy, cached, expired) == CacheOnly ==> !expired
  {
  }

  /** Normalisation is idempotent. */
  lemma NormaliseIdempotent(strategy: Strategy, cached: Value, expired: bool)
    ensures var s := NormaliseStrategy(strategy, cached, expired);
            NormaliseStrategy(s, cached, expired) == s || (s == CacheFirst && strategy == CacheOnly)
  {
  }

  // ---------------------------------------------------------------- auth

  /** What `refreshAuth` resolves to, and whether it called `reAuthenticate`. */
  datatype RefreshDecision = RefreshDecision(ok: bool, updateHeaders: bool, reAuthenticated: bool)

  /** `State.refreshAuth(checkAuth)`. `callbacksSet` says all three auth callbacks are
      functions; `isAuthenticated` and `refreshed` are what `isAuthenticated()` returns
      and what `reAuthenticate()` resolves to (truthiness). */
  function RefreshAuth(checkAuth: bool, callbacksSet: bool, isAuthenticated: bool, refreshed: bool): RefreshDecision {
    if !checkAuth then RefreshDecision(true, false, false)
    else if !callbacksSet then RefreshDecision(true, false, false)
    else if isAuthenticated then RefreshDecision(true, false, false)
    else RefreshDecision(refreshed, true, true)
  }

  /** The bearer header is added exactly when auth is checked, the callbacks are set, the
      user is not authenticated and re-authentication succeeds; `refreshAuth` never stops
      the request. */
  lemma RefreshAuthTable(checkAuth: bool, callbacksSet: bool, isAuthenticated: bool, refreshed: bool)
    ensures var d := RefreshAuth(checkAuth, callbacksSet, isAuthenticated, refreshed);
            (d.ok && d.updateHeaders) <==> (checkAuth && callbacksSet && !isAuthenticated && refreshed)
    ensures var d := RefreshAuth(checkAuth, callbacksSet, isAuthenticated, refreshed);
            d.reAuthenticated <==> (checkAuth && callbacksSet && !isAuthenticated)
    ensures var d := RefreshAuth(checkAuth, callbacksSet, isAuthenticated, refreshed);
            !d.updateHeaders ==> d.ok
  {
  }

  // ---------------------------------------------------------------- URL

  /** `getUrlQueryPair`: the text before the first `?`, and the query that follows it
      (only up to a second `?`) joined by `&` with the encoded parameters `encoded`. */
  function UrlQueryPair(uri: string, encoded: string): (string, string) {
    var parts := Split(uri, "?");
    var query := if |parts| > 1 then parts[1] else "";
    (parts[0], if query == "" then encoded else if encoded != "" then query + "&" + encoded else query)
  }

  /** Without a `?` the whole uri is the url and the query is just the encoded parameters. */
  lemma UrlQueryPairWithoutQuery(uri: string, encoded: string)
    requires forall i :: 0 <= i < |uri| ==> uri[i] != '?'
    ensures UrlQueryPair(uri, encoded) == (uri, encoded)
  {
    SplitNoChar(uri, '?');
  }

  /** Splitting loses whatever follows a second `?`. */
  lemma UrlQueryPairDropsSecondQuery()
    ensures UrlQueryPair("/a?x=1?y=2", "") == ("/a", "x=1")
  {
    var parts := ["/a", "x=1", "y=2"];
    assert Join(parts, "?") == "/a?x=1?y=2";
    SplitJoin(parts, '?');
  }

  /** A query already in the uri comes first, then `&` and the encoded parameters. */
  lemma UrlQueryPairAppendsParameters()
    ensures UrlQueryPair("/a?x=1", "y=2") == ("/a", "x=1&y=2")
  {
    SplitNoChar("x=1", '?');
    SplitAtChar("/a", '?', "x=1");
    assert "/a?x=1" == "/a" + "?" + "x=1";
    assert Split("/a?x=1", "?") == ["/a", "x=1"];
    assert "x=1" + "&" + "y=2" == "x=1&y=2";
  }

  /** The url `fetch` requests: path parameters applied, the query appended, and the
      base path put in front of a url that `isValidUrl` (the host's URL_REGEX) rejects. */
  function FinalUrl(path: string, query: string, basePath: string, isValidUrl: string -> bool): string {
    var url := if query != "" then path + "?" + query else path;
    if !isValidUrl(url) && basePath != "" then
      basePath + (if StartsWith(url, "/") && |url| > 1 then url[1..] else url)
    else url
  }

  /** A relative url is put under the base path with its leading slash removed; the url
      "/" alone keeps its slash, since `"/".substring(1)` is falsy. */
  lemma FinalUrlUnderBasePath(rest: string, isValidUrl: string -> bool)
    requires rest != ""
    requires !isValidUrl("/" + rest) && !isValidUrl("/")
    ensures FinalUrl("/" + rest, "", "api/", isValidUrl) == "api/" + rest
    ensures FinalUrl("/", "", "api/", isValidUrl) == "api//"
  {
    assert ("/" + rest)[1..] == rest;
  }

  /** The cache key the result is stored under: the host's md5 of the user, the url and
      the JSON text of the body, concatenated without a separator. */
  function CacheKeyText(user: string, url: string, bodyJson: string): string {
    user + url + bodyJson
  }

  /** Without a separator, different (user, url) pairs can hash the same text, so the key
      is only as distinct as the concatenation. */
  lemma CacheKeyTextAmbiguous()
    ensures CacheKeyText("ann", "/x", "{}") == CacheKeyText("an", "n/x", "{}")
  {
  }
}
