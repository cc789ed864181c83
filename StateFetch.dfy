/** `State.fetch` and `State.request` (state/state/src/lib/state.ts) as functions of the
    stores before the call: what the call resolves to (or rejects with), which request it
    sends, what it writes back, and what the CacheFirst callback receives. The network
    reply is an input, and the background request of CacheFirst is taken to finish
    within the call. */
module StateFetch {
  import opened Wrappers
  import opened Text
  import opened JsValue
  import opened StateRules
  import opened Ordered
  import opened StateHeaders
  import opened StateStore

  /** The library calls the core relies on: `md5`, the `${v}` text of a value, the text
      of `JSON.stringify`, `qs.stringify` (with the array format folded in), and the
      URL_REGEX test behind `isValidUrl`. */
  datatype Host = Host(
    md5: string -> string,
    display: Value -> string,
    stringify: Value -> string,
    qsStringify: Value -> string,
    isValidUrl: string -> bool)

  /** What `setAuthCallbacks` registered and what the callbacks give back on this call. */
  datatype Auth = Auth(callbacksSet: bool, isAuthenticated: bool, refreshed: bool, access: string)

  /** `State.defaultHeaders` (`[]` for `null`), `State.defaultCacheTTL` (`None` for NaN)
      and the auth callbacks. */
  datatype Statics = Statics(defaultHeaders: Headers, defaultCacheTTL: Option<int>, auth: Auth)

  /** The options object of `fetch`, with its defaults already filled in. `cacheTTL` is
      `None` when the caller gave none; `pathParameters` is `None` when falsy. */
  datatype FetchOptions = FetchOptions(
    verb: Value,
    queryParameters: Value,
    pathParameters: Option<seq<(string, string)>>,
    headers: Headers,
    body: Value,
    bodyIsFormData: bool,
    strategy: Strategy,
    callback: Value,
    callbackOnFail: bool,
    enabledTracing: bool,
    shouldPersist: bool,
    keepOriginalResult: bool,
    cacheTTL: Option<Option<int>>,
    checkAuth: bool)

  /** The defaults `fetch` fills in for a GET. */
  function DefaultOptions(callback: Value): FetchOptions {
    FetchOptions(Str("GET"), Obj(map[]), Some([]), [], Obj(map[]), false, CacheFirst, callback,
                 false, true, true, false, Option.None, false)
  }

  /** The XMLHttpRequest once it is done: status, the parsed body (`xhr.response`, or
      the parsed text for a JSON content type), the `x-b3-traceid` and `date` headers
      (`None` for `null`) and `getAllResponseHeaders()`. */
  datatype NetResponse = NetResponse(status: int, payload: Value, traceHeader: Option<string>, dateHeader: Option<string>, rawHeaders: string)

  /** What goes over the wire. */
  datatype SentRequest = SentRequest(verb: Value, url: string, headers: Headers, body: Value)

  // ---------------------------------------------------------------- the response

  /** `v.length > 0` for the values whose length the model knows. */
  predicate LengthPositive(v: Value) {
    match Prop(v, "length")
    case Num(n) => n > 0
    case Bool(b) => b
    case _ => false
  }

  /** `o.message` where `o` may be `null` (its `typeof` is "object"), which throws. */
  function MessageOf(o: Value): Result<Value, StateError> {
    if o.Null? then Err(TypeError("message")) else Ok(Prop(o, "message"))
  }

  /** `State.extractMessage(result, messages)`. */
  function ExtractMessage(result: Value, messages: Value): Result<Value, StateError> {
    var message := Or(messages, Or(if Truthy(result) then Prop(result, "message") else result, Str("")));
    if Truthy(message) then
      if message.Str? then Ok(message)
      else if LengthPositive(message) && IsObjectType(Prop(message, "0")) then MessageOf(Prop(message, "0"))
      else Ok(Prop(message, "0"))
    else if Truthy(result) && Truthy(Prop(result, "messages")) && LengthPositive(Prop(result, "messages")) then
      var first := Prop(Prop(result, "messages"), "0");
      if IsObjectType(first) then MessageOf(first) else Ok(first)
    else Ok(message)
  }

  /** A message string wins; otherwise the result's own message; otherwise the first of
      an array of messages, read through its `message` field when it is an object. */
  lemma ExtractMessageCases(result: Value, text: string)
    ensures text != "" ==> ExtractMessage(result, Str(text)) == Ok(Str(text))
    ensures ExtractMessage(Obj(map["message" := Str("hi")]), Str("")) == Ok(Str("hi"))
    ensures ExtractMessage(Null, Str("")) == Ok(Str(""))
  {
  }

  /** An array of messages gives its first element, read through its `message` field
      when it is an object, which throws for `null`. */
  lemma ExtractMessageFromArray(m: Value)
    ensures ExtractMessage(Undefined, Arr([Obj(map["message" := m])])) == Ok(m)
    ensures ExtractMessage(Obj(map["messages" := Arr([Str("first"), Str("second")])]), Str("")) == Ok(Str("first"))
    ensures ExtractMessage(Undefined, Arr([Null])).Err?
  {
    assert NatToString(0) == "0";
    PropAtIndex([Obj(map["message" := m])], 0);
    PropAtIndex([Str("first"), Str("second")], 0);
    PropAtIndex([Null], 0);
  }

  /** The `trace` field: the trace header up to its first comma, `null` when absent,
      `undefined` without tracing. */
  function Trace(enabledTracing: bool, header: Option<string>): (r: Value)
    ensures enabledTracing && header.Some? ==> r.Str? && StartsWith(header.value, r.s) && IndexOf(r.s, ',') == -1
    ensures enabledTracing && header.Some? && IndexOf(header.value, ',') == -1 ==> r == Str(header.value)
  {
    if !enabledTracing then Undefined
    else if header.None? then Null
    else
      var i := IndexOf(header.value, ',');
      if i > -1 then Str(header.value[..i]) else Str(header.value)
  }

  function HeaderOrNull(enabledTracing: bool, header: Option<string>): Value {
    if !enabledTracing then Undefined else if header.None? then Null else Str(header.value)
  }

  /** `200 <= status < 300`. */
  predicate StatusOk(status: int) {
    200 <= status < 300
  }

  /** The response object `request` builds, stamped with the time `now` (the model reads
      `Date()` by the time in milliseconds it parses back to). Reading `res.result` of a
      `null` or `undefined` body throws, and so does `extractMessage` on a `null` message. */
  function NormaliseResponse(net: NetResponse, enabledTracing: bool, keepOriginalResult: bool, cacheKey: string, now: int): Result<Value, StateError> {
    var res := net.payload;
    if IsNullish(res) then Err(TypeError("result"))
    else
      match ExtractMessage(Prop(res, "result"), Or(Prop(res, "messages"), Str("")))
      case Err(e) => Err(e)
      case Ok(message) => Ok(Obj(ResponseFields(net, enabledTracing, keepOriginalResult, cacheKey, now, message)))
  }

  /** The fields of that response object, given its extracted message. */
  function ResponseFields(net: NetResponse, enabledTracing: bool, keepOriginalResult: bool, cacheKey: string, now: int,
                          message: Value): map<string, Value> {
    var res := net.payload;
    map[
      "ok" := Bool(StatusOk(net.status)),
      "message" := message,
      "result" := (if keepOriginalResult || !Truthy(Prop(res, "result")) then res else Prop(res, "result")),
      "code" := Or(Prop(res, "code"), Prop(Prop(res, "result"), "code")),
      "status" := Num(net.status),
      "stamp" := Num(now),
      "trace" := Trace(enabledTracing, net.traceHeader),
      "date" := HeaderOrNull(enabledTracing, net.dateHeader),
      "headers" := Dict(ParsedHeaders(net.rawHeaders)),
      "request" := Obj(map["options" := Obj(map["cacheKey" := Str(cacheKey)])])]
  }

  /** The fields a caller relies on: `ok` follows the status, `result` unwraps the body's
      own `result` unless asked not to, and the stamp is the time of the reply. */
  lemma NormalisedFields(net: NetResponse, enabledTracing: bool, keepOriginalResult: bool, cacheKey: string, now: int)
    requires !IsNullish(net.payload)
    ensures var r := NormaliseResponse(net, enabledTracing, keepOriginalResult, cacheKey, now);
            r.Ok? ==>
              Prop(r.value, "ok") == Bool(StatusOk(net.status)) &&
              Prop(r.value, "status") == Num(net.status) &&
              Prop(r.value, "stamp") == Num(now) &&
              (keepOriginalResult ==> Prop(r.value, "result") == net.payload) &&
              (!keepOriginalResult && Truthy(Prop(net.payload, "result")) ==>
                 Prop(r.value, "result") == Prop(net.payload, "result"))
  {
    var res := net.payload;
    var e := ExtractMessage(Prop(res, "result"), Or(Prop(res, "messages"), Str("")));
    if e.Ok? {
      var m := ResponseFields(net, enabledTracing, keepOriginalResult, cacheKey, now, e.value);
      assert NormaliseResponse(net, enabledTracing, keepOriginalResult, cacheKey, now) == Ok(Obj(m));
      ResponseFieldsRead(net, enabledTracing, keepOriginalResult, cacheKey, now, e.value);
    }
  }

  lemma ResponseFieldsRead(net: NetResponse, enabledTracing: bool, keepOriginalResult: bool, cacheKey: string, now: int, message: Value)
    ensures var m := ResponseFields(net, enabledTracing, keepOriginalResult, cacheKey, now, message);
            Prop(Obj(m), "ok") == Bool(StatusOk(net.status)) &&
            Prop(Obj(m), "status") == Num(net.status) &&
            Prop(Obj(m), "stamp") == Num(now) &&
            Prop(Obj(m), "result") == (if keepOriginalResult || !Truthy(Prop(net.payload, "result")) then net.payload else Prop(net.payload, "result"))
  {
  }

  /** A `null` or `undefined` body makes the request reject. */
  lemma NullishBodyRejects(net: NetResponse, enabledTracing: bool, keepOriginalResult: bool, cacheKey: string, now: int)
    requires IsNullish(net.payload)
    ensures NormaliseResponse(net, enabledTracing, keepOriginalResult, cacheKey, now) == Err(TypeError("result"))
  {
  }

  /** The stamp survives storage, so the response is fresh for a positive `ttl` until
      `ttl` seconds have passed, and expired after. */
  lemma StoredResponseFreshness(net: NetResponse, enabledTracing: bool, keepOriginalResult: bool, cacheKey: string, now: int, ttl: int, later: int)
    requires NormaliseResponse(net, enabledTracing, keepOriginalResult, cacheKey, now).Ok?
    requires ttl > 0
    ensures var stored := Json(NormaliseResponse(net, enabledTracing, keepOriginalResult, cacheKey, now).value);
            Truthy(stored) &&
            (IsExpired(DateOf(Prop(stored, "stamp")), Some(ttl), later) <==> later > now + ttl * 1000)
  {
  }

  // ---------------------------------------------------------------- request

  /** What `request` settles with, the request it sends, and whether it reports a failed
      service call. */
  datatype RequestResult = RequestResult(response: Result<Value, StateError>, sent: SentRequest, reportsError: bool)

  /** The headers after `refreshAuth`: with a bearer token exactly when the refresh says so. */
  function RequestHeaders(headers: Headers, checkAuth: bool, auth: Auth): Headers {
    var d := RefreshAuth(checkAuth, auth.callbacksSet, auth.isAuthenticated, auth.refreshed);
    if d.ok && d.updateHeaders then WithBearer(headers, auth.access) else headers
  }

  /** The request as sent: the merged headers, and the body as JSON text unless a non-JSON
      content type was given. */
  function Outgoing(statics: Statics, host: Host, url: string, o: FetchOptions): SentRequest {
    var headers := RequestHeaders(o.headers, o.checkAuth, statics.auth);
    var plan := PlanHeaders(Spread(statics.defaultHeaders, headers), o.bodyIsFormData, Undefined);
    SentRequest(o.verb, url, plan.sent,
                if BodyIsJsonText(plan.contentType) then Str(host.stringify(o.body)) else o.body)
  }

  /** `request(url, options)`: the normalised response is written back under `cacheKey`
      when the status is ok and the strategy is not None; a throwing write makes the
      request reject. */
  function RequestSpec(b: Backend, s: Stores, context: string, statics: Statics, host: Host, url: string,
                       o: FetchOptions, strategy: Strategy, cacheKey: string, net: NetResponse, now: int): (RequestResult, Stores)
  {
    var sent := Outgoing(statics, host, url, o);
    match NormaliseResponse(net, o.enabledTracing, o.keepOriginalResult, cacheKey, now)
    case Err(e) => (RequestResult(Err(e), sent, false), s)
    case Ok(response) =>
      if StatusOk(net.status) && strategy != Strategy.None then
        var w := SetSpec(b, s, context, Str(cacheKey), response, o.shouldPersist, false);
        if w.0.Err? then (RequestResult(Err(w.0.error), sent, false), w.1)
        else (RequestResult(Ok(response), sent, false), w.1)
      else
        (RequestResult(Ok(response), sent, !StatusOk(net.status) && net.status != 304), s)
  }

  /** Only an ok reply is written back, only for a strategy other than None, and nothing
      else is written; a failed call other than 304 Not Modified is reported. */
  lemma RequestWritesBackOnlyOk(b: Backend, s: Stores, context: string, statics: Statics, host: Host, url: string,
                                o: FetchOptions, strategy: Strategy, cacheKey: string, net: NetResponse, now: int)
    ensures var r := RequestSpec(b, s, context, statics, host, url, o, strategy, cacheKey, net, now);
            (!StatusOk(net.status) || strategy == Strategy.None) ==> r.1 == s
    ensures var r := RequestSpec(b, s, context, statics, host, url, o, strategy, cacheKey, net, now);
            r.0.reportsError <==> r.0.response.Ok? && !StatusOk(net.status) && net.status != 304
    ensures var r := RequestSpec(b, s, context, statics, host, url, o, strategy, cacheKey, net, now);
            var n := NormaliseResponse(net, o.enabledTracing, o.keepOriginalResult, cacheKey, now);
            n.Ok? && StatusOk(net.status) && strategy != Strategy.None ==>
              r == (var w := SetSpec(b, s, context, Str(cacheKey), n.value, o.shouldPersist, false);
                    (RequestResult(if w.0.Err? then Err(w.0.error) else Ok(n.value), r.0.sent, false), w.1))
  {
  }

  /** With auth checked and a successful re-authentication, the request carries the
      bearer token under the caller's spelling of the header (when no default header
      of that name is falsy-valued, nothing hides it). */
  lemma SentRequestCarriesBearer(statics: Statics, host: Host, url: string, o: FetchOptions)
    requires o.checkAuth && statics.auth.callbacksSet && !statics.auth.isAuthenticated && statics.auth.refreshed
    requires UniqueNames(o.headers)
    ensures var name := AuthHeaderName(o.headers);
            var h := Spread(statics.defaultHeaders, RequestHeaders(o.headers, o.checkAuth, statics.auth));
            Lookup(h, name) == Some(Str("Bearer " + statics.auth.access))
  {
    var h := WithBearer(o.headers, statics.auth.access);
    SpreadLookup(statics.defaultHeaders, h, AuthHeaderName(o.headers));
  }

  /** Without a form-data body, a default header the call does not set itself is sent
      with its default value exactly when that value is truthy. */
  lemma DefaultHeaderSent(statics: Statics, host: Host, url: string, o: FetchOptions, n: string)
    requires UniqueNames(statics.defaultHeaders) && !o.bodyIsFormData
    requires n !in Names(RequestHeaders(o.headers, o.checkAuth, statics.auth))
    ensures var d := Lookup(statics.defaultHeaders, n);
            Lookup(Outgoing(statics, host, url, o).headers, n) == if d.Some? && Truthy(d.value) then d else Option.None
  {
    var entries := Spread(statics.defaultHeaders, RequestHeaders(o.headers, o.checkAuth, statics.auth));
    PlanSendsTruthyEntries(entries, Undefined);
    LookupTruthyEntries(entries, n);
    SpreadLookupDefault(statics.defaultHeaders, RequestHeaders(o.headers, o.checkAuth, statics.auth), n);
  }

  // ---------------------------------------------------------------- fetch

  /** How `fetch` ends. `strategy` is the strategy after normalisation; `cacheKey` is the
      md5 key; `request` is what the request did, if one was sent; `callbackArg` is what
      the CacheFirst callback was called with. */
  datatype FetchOutcome = FetchOutcome(
    result: Result<Value, StateError>,
    strategy: Strategy,
    cacheKey: string,
    request: Option<RequestResult>,
    callbackArg: Option<Value>)

  function Rejected(e: StateError): FetchOutcome {
    FetchOutcome(Err(e), Strategy.None, "", Option.None, Option.None)
  }

  /** The url `fetch` requests for `uri`: query parameters encoded and appended, path
      parameters applied, and the base path put in front. */
  function RequestUrl(host: Host, basePath: string, uri: string, o: FetchOptions): string {
    var pair := UrlQueryPair(uri, host.qsStringify(o.queryParameters));
    var path := if o.pathParameters.Some? then WithPathParameters(pair.0, o.pathParameters.value) else pair.0;
    FinalUrl(path, pair.1, basePath, host.isValidUrl)
  }

  /** `isExpired(cachedResponse["stamp"], cacheTTL)` as evidently intended: an entry that
      is not there has no stamp and counts as expired. */
  function Stamp(cached: Value): Option<int> {
    if IsNullish(cached) then Option.None else DateOf(Prop(cached, "stamp"))
  }

  /** As written, `cachedResponse["stamp"]` is read before the cache is checked, and the
      fallback of the cache read is `null`: a cold cache throws. */
  function StampAsWritten(cached: Value): Result<Option<int>, StateError> {
    if IsNullish(cached) then Err(TypeError("stamp")) else Ok(DateOf(Prop(cached, "stamp")))
  }

  /** Where nothing is cached the as-written read throws, and the intended one reads
      "expired"; elsewhere the two agree. */
  lemma ColdCacheStamp(cached: Value, ttl: Option<int>, now: int)
    ensures IsNullish(cached) ==> StampAsWritten(cached).Err? && IsExpired(Stamp(cached), ttl, now)
    ensures !IsNullish(cached) ==> StampAsWritten(cached) == Ok(Stamp(cached))
  {
  }

  /** The CacheFirst callback: called with the response when the request resolved and
      either `callbackOnFail` is set or the response is ok. */
  function CallbackArg(callbackOnFail: bool, response: Result<Value, StateError>): Option<Value> {
    if response.Ok? && (callbackOnFail || Truthy(Prop(response.value, "ok"))) then Some(response.value) else Option.None
  }

  /** What NetworkFirst resolves to: the network response when it is ok or nothing is
      cached, the cached response otherwise. */
  function NetworkFirstResult(response: Result<Value, StateError>, cached: Value): Result<Value, StateError> {
    match response
    case Err(_) => response
    case Ok(r) => if (Truthy(r) && Truthy(Prop(r, "ok"))) || !Truthy(cached) then response else Ok(cached)
  }

  /** What `fetch` reads before it dispatches: the cache key (the md5 of the shared
      `user`, the request url and the body text) and what the key holds (`null` when
      nothing). */
  datatype CacheRead = CacheRead(key: string, cached: Value)

  function ReadCache(b: Backend, s: Stores, context: string, basePath: string, host: Host, uri: string, o: FetchOptions): (Result<CacheRead, StateError>, Stores) {
    var (user, s1) := GetSpec(b, s, context, Str("user"), Str("default-user"), true);
    if user.Err? then (Err(user.error), s1)
    else
      var key := host.md5(CacheKeyText(host.display(user.value), RequestUrl(host, basePath, uri, o), host.stringify(o.body)));
      var (got, s2) := GetSpec(b, s1, context, Str(key), Null, false);
      if got.Err? then (Err(got.error), s2) else (Ok(CacheRead(key, got.value)), s2)
  }

  /** The reads change no store, except that `UNSAFE_WebState` copies persisted values
      into the session. */
  lemma ReadCacheKeepsStores(b: Backend, s: Stores, context: string, basePath: string, host: Host, uri: string, o: FetchOptions)
    requires b != UnsafeWeb
    ensures ReadCache(b, s, context, basePath, host, uri, o).1 == s
  {
  }

  /** Everything after the reads: the strategy is normalised and dispatched on. */
  function Dispatch(b: Backend, s: Stores, context: string, statics: Statics, host: Host, url: string,
                    o: FetchOptions, read: CacheRead, net: NetResponse, now: int): (FetchOutcome, Stores)
  {
    var cached := read.cached;
    var ttl := o.cacheTTL.GetOr(statics.defaultCacheTTL);
    var strategy := NormaliseStrategy(o.strategy, cached, IsExpired(Stamp(cached), ttl, now));
    match strategy
    case CacheOnly => (FetchOutcome(Ok(cached), strategy, read.key, Option.None, Option.None), s)
    case Unrecognised(n) => (FetchOutcome(Err(InvalidStrategy(n)), strategy, read.key, Option.None, Option.None), s)
    case None =>
      var (rr, s1) := RequestSpec(b, s, context, statics, host, url, o, strategy, read.key, net, now);
      (FetchOutcome(rr.response, strategy, read.key, Some(rr), Option.None), s1)
    case NetworkFirst =>
      var (rr, s1) := RequestSpec(b, s, context, statics, host, url, o, strategy, read.key, net, now);
      (FetchOutcome(NetworkFirstResult(rr.response, cached), strategy, read.key, Some(rr), Option.None), s1)
    case CacheFirst =>
      var (rr, s1) := RequestSpec(b, s, context, statics, host, url, o, strategy, read.key, net, now);
      (FetchOutcome(Ok(cached), strategy, read.key, Some(rr), CallbackArg(o.callbackOnFail, rr.response)), s1)
  }

  /** `fetch(uri, options)` on a `State` with the given back end, context and base path. */
  function FetchSpec(b: Backend, s: Stores, context: string, basePath: string, statics: Statics, host: Host,
                     uri: string, o: FetchOptions, net: NetResponse, now: int): (FetchOutcome, Stores)
  {
    match ValidateFetch(uri, o.verb, o.callback)
    case Err(e) => (Rejected(e), s)
    case Ok(_) =>
      var (read, s1) := ReadCache(b, s, context, basePath, host, uri, o);
      if read.Err? then (Rejected(read.error), s1)
      else Dispatch(b, s1, context, statics, host, RequestUrl(host, basePath, uri, o), o, read.value, net, now)
  }

  /** An invalid uri, method or callback rejects before any store is read. */
  lemma FetchValidatesFirst(b: Backend, s: Stores, context: string, basePath: string, statics: Statics, host: Host,
                            uri: string, o: FetchOptions, net: NetResponse, now: int)
    requires ValidateFetch(uri, o.verb, o.callback).Err?
    ensures FetchSpec(b, s, context, basePath, statics, host, uri, o, net, now) ==
            (Rejected(ValidateFetch(uri, o.verb, o.callback).error), s)
  {
  }

  /** What each strategy does with what was read: CacheOnly with a fresh entry returns it
      without a request; CacheFirst returns the entry and hands the network response to
      the callback; NetworkFirst prefers an ok network response; None returns the
      network response; a cold cache turns CacheFirst and CacheOnly into NetworkFirst. */
  lemma DispatchByStrategy(b: Backend, s: Stores, context: string, statics: Statics, host: Host, url: string,
                           o: FetchOptions, read: CacheRead, net: NetResponse, now: int)
    ensures var r := Dispatch(b, s, context, statics, host, url, o, read, net, now);
            var ttl := o.cacheTTL.GetOr(statics.defaultCacheTTL);
            r.0.cacheKey == read.key &&
            (o.strategy == CacheOnly && Truthy(read.cached) && !IsExpired(Stamp(read.cached), ttl, now) ==>
               r == (FetchOutcome(Ok(read.cached), CacheOnly, read.key, Option.None, Option.None), s))
    ensures var r := Dispatch(b, s, context, statics, host, url, o, read, net, now);
            var rr := RequestSpec(b, s, context, statics, host, url, o, CacheFirst, read.key, net, now);
            o.strategy == CacheFirst && Truthy(read.cached) ==>
              r == (FetchOutcome(Ok(read.cached), CacheFirst, read.key, Some(rr.0), CallbackArg(o.callbackOnFail, rr.0.response)), rr.1)
    ensures var r := Dispatch(b, s, context, statics, host, url, o, read, net, now);
            var rr := RequestSpec(b, s, context, statics, host, url, o, NetworkFirst, read.key, net, now);
            (o.strategy == NetworkFirst || ((o.strategy == CacheFirst || o.strategy == CacheOnly) && !Truthy(read.cached))) ==>
              r == (FetchOutcome(NetworkFirstResult(rr.0.response, read.cached), NetworkFirst, read.key, Some(rr.0), Option.None), rr.1)
    ensures var r := Dispatch(b, s, context, statics, host, url, o, read, net, now);
            var rr := RequestSpec(b, s, context, statics, host, url, o, Strategy.None, read.key, net, now);
            o.strategy == Strategy.None ==>
              r == (FetchOutcome(rr.0.response, Strategy.None, read.key, Some(rr.0), Option.None), rr.1)
  {
  }

  /** NetworkFirst returns the network response when it is ok or nothing is cached, the
      cached response when the network one is not ok, and rejects with the request. */
  lemma NetworkFirstChoice(net: NetResponse, enabledTracing: bool, keepOriginalResult: bool, cacheKey: string, now: int, cached: Value)
    requires NormaliseResponse(net, enabledTracing, keepOriginalResult, cacheKey, now).Ok?
    ensures var response := NormaliseResponse(net, enabledTracing, keepOriginalResult, cacheKey, now);
            NetworkFirstResult(response, cached) == (if StatusOk(net.status) || !Truthy(cached) then response else Ok(cached))
    ensures forall e: StateError :: NetworkFirstResult(Err(e), cached) == Err(e)
  {
    NormalisedFields(net, enabledTracing, keepOriginalResult, cacheKey, now);
  }

  /** An ok reply to a request whose strategy is not None resolves with the response and
      writes it back under the cache key, on every back end (for `WebState`, unless it
      persists a key the session holds, which `WebMixedPersistence` refuses). */
  lemma RequestStoresResponse(b: Backend, s: Stores, context: string, statics: Statics, host: Host, url: string,
                              o: FetchOptions, strategy: Strategy, key: string, net: NetResponse, now: int)
    requires strategy != Strategy.None && key != "" && StatusOk(net.status)
    requires NormaliseResponse(net, o.enabledTracing, o.keepOriginalResult, key, now).Ok?
    requires b == Web && o.shouldPersist ==> ContextKey(context, key, false) !in s.session
    ensures var response := NormaliseResponse(net, o.enabledTracing, o.keepOriginalResult, key, now).value;
            var rr := RequestSpec(b, s, context, statics, host, url, o, strategy, key, net, now);
            rr.0.response == Ok(response) && !rr.0.reportsError &&
            rr.1 == SetSpec(b, s, context, Str(key), response, o.shouldPersist, false).1
  {
    var response := NormaliseResponse(net, o.enabledTracing, o.keepOriginalResult, key, now).value;
    SetThenGet(b, s, context, key, response, o.shouldPersist, false, Null);
  }

  /** What a back end keeps of a normalised response is truthy and carries the stamp of
      the reply. */
  lemma StoredResponseStamp(b: Backend, net: NetResponse, enabledTracing: bool, keepOriginalResult: bool, cacheKey: string, now: int)
    requires NormaliseResponse(net, enabledTracing, keepOriginalResult, cacheKey, now).Ok?
    ensures var stored := Stored(b, NormaliseResponse(net, enabledTracing, keepOriginalResult, cacheKey, now).value);
            Truthy(stored) && Stamp(stored) == Some(now)
  {
    var res := net.payload;
    var e := ExtractMessage(Prop(res, "result"), Or(Prop(res, "messages"), Str("")));
    var m := ResponseFields(net, enabledTracing, keepOriginalResult, cacheKey, now, e.value);
    assert NormaliseResponse(net, enabledTracing, keepOriginalResult, cacheKey, now) == Ok(Obj(m));
    ResponseFieldsRead(net, enabledTracing, keepOriginalResult, cacheKey, now, e.value);
    assert "stamp" in m && m["stamp"] == Num(now);
    if b != Mem {
      assert Json(Obj(m)).fields["stamp"] == Num(now);
    }
  }

  /** After a response is written back, the same request reads what the back end keeps of
      it, and these reads change no store. */
  lemma {:induction false} ReadCacheAfterStore(b: Backend, s: Stores, context: string, basePath: string, host: Host, uri: string,
                                               o: FetchOptions, v: Value, persist: bool)
    requires ReadCache(b, s, context, basePath, host, uri, o).0.Ok?
    requires var key := ReadCache(b, s, context, basePath, host, uri, o).0.value.key;
             key != "" && ContextKey(context, key, false) != ContextKey(context, "user", true)
    requires v.Obj?
    requires b == Web && persist ==>
               ContextKey(context, ReadCache(b, s, context, basePath, host, uri, o).0.value.key, false) !in s.session
    ensures var r0 := ReadCache(b, s, context, basePath, host, uri, o);
            var key := r0.0.value.key;
            var s2 := SetSpec(b, r0.1, context, Str(key), v, persist, false).1;
            ReadCache(b, s2, context, basePath, host, uri, o) == (Ok(CacheRead(key, Stored(b, v))), s2)
  {
    var uk := ContextKey(context, "user", true);
    var (user, su) := GetSpec(b, s, context, Str("user"), Str("default-user"), true);
    var key := host.md5(CacheKeyText(host.display(user.value), RequestUrl(host, basePath, uri, o), host.stringify(o.body)));
    var s1 := GetSpec(b, su, context, Str(key), Null, false).1;
    assert ReadCache(b, s, context, basePath, host, uri, o) == (Ok(CacheRead(key, GetSpec(b, su, context, Str(key), Null, false).0.value)), s1);
    GetSettles(b, s, context, "user", Str("default-user"), true, uk);
    GetSettles(b, su, context, key, Null, false, uk);
    GetKeepsReads(b, s, context, Str("user"), Str("default-user"), true, Str("user"), Str("default-user"), true);
    GetKeepsReads(b, su, context, Str(key), Null, false, Str("user"), Str("default-user"), true);
    if b == Web {
      ReadCacheKeepsStores(b, s, context, basePath, host, uri, o);
    }
    UserKeyIsNotWarningKey(context);
    SetTouchesOnlyItsKey(b, s1, context, key, v, persist, false, uk);
    var s2 := SetSpec(b, s1, context, Str(key), v, persist, false).1;
    GetByHeld(b, s2, s1, context, "user", Str("default-user"), true);
    GetSettled(b, s2, context, "user", Str("default-user"), true);
    SetThenGet(b, s1, context, key, v, persist, false, Null);
  }

  /** A fetch that sends its request as NetworkFirst (asked for, or a CacheFirst or
      CacheOnly on a cold cache) and gets an ok reply resolves with the response and
      writes it back under the cache key, on every back end. */
  lemma FirstFetchStores(b: Backend, s: Stores, context: string, basePath: string, statics: Statics, host: Host,
                         uri: string, o: FetchOptions, net: NetResponse, now: int)
    requires ValidateFetch(uri, o.verb, o.callback).Ok?
    requires ReadCache(b, s, context, basePath, host, uri, o).0.Ok?
    requires var read := ReadCache(b, s, context, basePath, host, uri, o).0.value;
             read.key != "" &&
             (o.strategy == NetworkFirst || ((o.strategy == CacheFirst || o.strategy == CacheOnly) && !Truthy(read.cached)))
    requires b == Web && o.shouldPersist ==>
               ContextKey(context, ReadCache(b, s, context, basePath, host, uri, o).0.value.key, false) !in s.session
    requires StatusOk(net.status)
    requires NormaliseResponse(net, o.enabledTracing, o.keepOriginalResult,
                               ReadCache(b, s, context, basePath, host, uri, o).0.value.key, now).Ok?
    ensures var r0 := ReadCache(b, s, context, basePath, host, uri, o);
            var key := r0.0.value.key;
            var response := NormaliseResponse(net, o.enabledTracing, o.keepOriginalResult, key, now).value;
            var r1 := FetchSpec(b, s, context, basePath, statics, host, uri, o, net, now);
            r1.0.result == Ok(response) && r1.0.strategy == NetworkFirst &&
            r1.1 == SetSpec(b, r0.1, context, Str(key), response, o.shouldPersist, false).1
  {
    var r0 := ReadCache(b, s, context, basePath, host, uri, o);
    var read := r0.0.value;
    var key := read.key;
    var url := RequestUrl(host, basePath, uri, o);
    if b == Web {
      ReadCacheKeepsStores(b, s, context, basePath, host, uri, o);
    }
    DispatchByStrategy(b, r0.1, context, statics, host, url, o, read, net, now);
    RequestStoresResponse(b, r0.1, context, statics, host, url, o, NetworkFirst, key, net, now);
    NetworkFirstChoice(net, o.enabledTracing, o.keepOriginalResult, key, now, read.cached);
    assert FetchSpec(b, s, context, basePath, statics, host, uri, o, net, now) ==
           Dispatch(b, r0.1, context, statics, host, url, o, read, net, now);
  }

  /** With the default options, a first fetch on `WebState` with a cold cache is sent as
      NetworkFirst and, on an ok reply, persists the JSON round trip of the response in
      the local area (as long as the session does not hold the key). */
  lemma DefaultFetchPersists(s: Stores, context: string, basePath: string, statics: Statics, host: Host,
                             uri: string, callback: Value, net: NetResponse, now: int)
    requires uri != "" && callback.Func?
    requires var r0 := ReadCache(Web, s, context, basePath, host, uri, DefaultOptions(callback));
             r0.0.Ok? && r0.0.value.key != "" && !Truthy(r0.0.value.cached) &&
             ContextKey(context, r0.0.value.key, false) !in s.session
    requires StatusOk(net.status)
    requires NormaliseResponse(net, true, false,
                               ReadCache(Web, s, context, basePath, host, uri, DefaultOptions(callback)).0.value.key, now).Ok?
    ensures var key := ReadCache(Web, s, context, basePath, host, uri, DefaultOptions(callback)).0.value.key;
            var response := NormaliseResponse(net, true, false, key, now).value;
            var r1 := FetchSpec(Web, s, context, basePath, statics, host, uri, DefaultOptions(callback), net, now);
            r1.0.result == Ok(response) && r1.0.strategy == NetworkFirst &&
            r1.1 == s.(local := s.local[ContextKey(context, key, false) := Json(response)])
  {
    var o := DefaultOptions(callback);
    assert ValidateFetch(uri, o.verb, o.callback).Ok? by {
      assert Upper("GET") == "GET";
    }
    ReadCacheKeepsStores(Web, s, context, basePath, host, uri, o);
    FirstFetchStores(Web, s, context, basePath, statics, host, uri, o, net, now);
  }

  /** A fetch that stores an ok response (on any back end, persisted or not, asked for as
      NetworkFirst or as CacheFirst or CacheOnly on a cold cache) is followed by a
      CacheOnly fetch of the same request within the ttl that is served from storage,
      without a request and without changing any store. */
  lemma {:induction false} FetchThenServeFromCache(b: Backend, s: Stores, context: string, basePath: string, statics: Statics,
                                                   host: Host, uri: string, o: FetchOptions, net: NetResponse, now: int,
                                                   ttl: int, later: int)
    requires ValidateFetch(uri, o.verb, o.callback).Ok?
    requires ReadCache(b, s, context, basePath, host, uri, o).0.Ok?
    requires var read := ReadCache(b, s, context, basePath, host, uri, o).0.value;
             read.key != "" && ContextKey(context, read.key, false) != ContextKey(context, "user", true) &&
             (o.strategy == NetworkFirst || ((o.strategy == CacheFirst || o.strategy == CacheOnly) && !Truthy(read.cached)))
    requires b == Web && o.shouldPersist ==>
               ContextKey(context, ReadCache(b, s, context, basePath, host, uri, o).0.value.key, false) !in s.session
    requires StatusOk(net.status)
    requires NormaliseResponse(net, o.enabledTracing, o.keepOriginalResult,
                               ReadCache(b, s, context, basePath, host, uri, o).0.value.key, now).Ok?
    requires o.cacheTTL.GetOr(statics.defaultCacheTTL) == Some(ttl) && !IsExpired(Some(now), Some(ttl), later)
    ensures var key := ReadCache(b, s, context, basePath, host, uri, o).0.value.key;
            var response := NormaliseResponse(net, o.enabledTracing, o.keepOriginalResult, key, now).value;
            var r1 := FetchSpec(b, s, context, basePath, statics, host, uri, o, net, now);
            r1.0.result == Ok(response) &&
            FetchSpec(b, r1.1, context, basePath, statics, host, uri, o.(strategy := CacheOnly), net, later) ==
              (FetchOutcome(Ok(Stored(b, response)), CacheOnly, key, Option.None, Option.None), r1.1)
  {
    var r0 := ReadCache(b, s, context, basePath, host, uri, o);
    var key := r0.0.value.key;
    var response := NormaliseResponse(net, o.enabledTracing, o.keepOriginalResult, key, now).value;
    FirstFetchStores(b, s, context, basePath, statics, host, uri, o, net, now);
    ReadCacheAfterStore(b, s, context, basePath, host, uri, o, response, o.shouldPersist);
    StoredResponseStamp(b, net, o.enabledTracing, o.keepOriginalResult, key, now);
    ReadCacheIgnoresStrategy(b, SetSpec(b, r0.1, context, Str(key), response, o.shouldPersist, false).1,
                             context, basePath, host, uri, o, CacheOnly);
    CacheOnlyServesFresh(b, SetSpec(b, r0.1, context, Str(key), response, o.shouldPersist, false).1,
                         context, basePath, statics, host, uri, o.(strategy := CacheOnly), CacheRead(key, Stored(b, response)), net, later);
  }

  /** The reads before dispatch do not depend on the strategy asked for. */
  lemma ReadCacheIgnoresStrategy(b: Backend, s: Stores, context: string, basePath: string, host: Host, uri: string,
                                 o: FetchOptions, strategy: Strategy)
    ensures ReadCache(b, s, context, basePath, host, uri, o.(strategy := strategy)) == ReadCache(b, s, context, basePath, host, uri, o)
  {
    assert RequestUrl(host, basePath, uri, o.(strategy := strategy)) == RequestUrl(host, basePath, uri, o);
  }

  /** A valid CacheOnly fetch whose reads find a fresh entry returns it without a request
      and changes no store beyond the reads. */
  lemma CacheOnlyServesFresh(b: Backend, s: Stores, context: string, basePath: string, statics: Statics, host: Host,
                             uri: string, o: FetchOptions, read: CacheRead, net: NetResponse, now: int)
    requires ValidateFetch(uri, o.verb, o.callback).Ok? && o.strategy == CacheOnly
    requires ReadCache(b, s, context, basePath, host, uri, o) == (Ok(read), s)
    requires Truthy(read.cached) && !IsExpired(Stamp(read.cached), o.cacheTTL.GetOr(statics.defaultCacheTTL), now)
    ensures FetchSpec(b, s, context, basePath, statics, host, uri, o, net, now) ==
            (FetchOutcome(Ok(read.cached), CacheOnly, read.key, Option.None, Option.None), s)
  {
  }
}
