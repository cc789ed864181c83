# A model of the web-common libraries: state, events, fetch log, mini-program bridge, config and environment

This project models, in Dafny, the core of a set of browser libraries shared by web
applications:

- **State** (`state/state/src/lib/state.ts`). A fetch client with a cache.
  - `State.fetch` checks its arguments and builds the request url: query string, path
    parameters and base path.
  - It reads the cached response under an md5 key and normalises the cache strategy
    (None, CacheFirst, NetworkFirst, CacheOnly).
  - It then dispatches on that strategy. `State.request` sends the request, shapes the
    response and writes an ok response back to storage.
  - Three storage back ends are modelled: `WebState` (session and local Web Storage, no
    mixed persistence), `UNSAFE_WebState` (writes through the session) and `MemState`
    (a map in memory).
  - So are the static setters for default headers, the default ttl and the auth
    callbacks.
- **Events** (`events/events/src/events.ts`). A registry from event to an insertion-ordered
  map from subscriber context to callback, with `subscribe`, `remove` and `emit`.
- **Fetch log** (`state/state/src/lib/logFetch.ts`). A newest-first log, bounded by
  `maxFetchLogs`, that a wrapped `fetch` publishes to.
- **Mini-program bridge** (`mini-program-bridge/src/common/miniProgramWebInterface.ts`).
  - The table of pending messages keyed by id, and the handler for the shell's responses.
  - The error text those responses carry.
  - The result mapping of `tradePay` and the argument checks of the storage helpers.
- **Config** (`config/src/lib/index.ts`).
  - The configuration name taken from the url.
  - The `if-modified-since`/304 logic of `init`.
  - The dotted-path lookup of `get`.
- **Environment** (`environment/src/index.ts`).
  - Path joining and the relative-path test.
  - Normalising the environment table, and choosing the current environment (prod, then
    production, then auto-detection by host).
  - `set`.

JavaScript values are the datatype `JsValue.Value`. Its cases are undefined, null,
booleans, integers, strings, arrays, plain objects, `Map`s and functions (by identity).
`Truthy`, `Or` (for `||`) and `Prop` (a property read) follow JavaScript.

- `JSON.parse(JSON.stringify(v))` is the normalisation `Json`: it drops undefined and
  function fields and turns a `Map` into `{}`.
- Object key order, where the source depends on it (`Object.entries`, spread, `Map`
  iteration), uses the insertion-ordered `Ordered.Entries`.

Objects whose fields the source changes in place are classes with `modifies` clauses:

| class | what it holds |
|---|---|
| the Web Storage areas and `State` | the stores |
| `StateDefaults` | the static configuration of `State` |
| `Events` | the subscriptions |
| `FetchLogs` | the log |
| `Bridge` | the pending table and the messages posted |
| `Config` and `Environment` | their static fields, over a `State` |

Each method is proved equal to a specification function on the old state. The
properties are lemmas about those functions.

Calls into libraries and the platform are parameters:

- MiniProgramBridge.ErrorCode: `/^\d+$/.test` converts its argument to text first, so a code such as the array `[5]` is read as the code "5" there; the model treats only strings and numbers as codes and passes other values on unchanged.
- `md5`, `qs.stringify`, `URL_REGEX`, the text of `JSON.stringify` and `${v}` are the
  functions of `StateFetch.Host`;
- the XMLHttpRequest reply is a `NetResponse`;
- the clock is an integer `now` in milliseconds;
- the uuid of a posted message is an argument;
- the page's host name is an `Option<string>`.

Where the documented behaviour and the code differ, the model follows the code. For
example, with the strategy None `fetch` still reads the `user` key and the cached entry before
it sends the request, and the model does the same. The two exceptions are the defects listed
under "## Findings". There the code as written rejects every fetch on a cold cache and
every request with a truthy content-type header. The model keeps those as-written definitions
beside their corrected ones, and the operations (`fetch`, `request`, and `Config.init`, which
runs through them) are built on the corrected definitions. "## Left out" says so member by
member.

`Environment.init` chooses the navigator type with a conditional whose test is the whole
`||` of the given type and the localhost test, as JavaScript precedence groups it: any given
type becomes "browser". `Environments.NavigatorType` is that reading; `NavigatorTypeGrouped` is
the reading that keeps a given type, proved to differ from it only on a given type other
than "browser".

## Model

Rows whose third column starts with "definition:" name a specification function or a lemma
that only spells out the case split of a definition; they say what the program computes.
Rows starting with "instance:" are single worked inputs that record a quirk of the source.
The other rows are properties proved over all inputs.

| member | source | states |
|---|---|---|
| StateRules.ExpiryRule | state/state/src/lib/state.ts:164-172 | definition: an invalid (NaN) stamp or ttl is expired; a ttl of 0 never expires; otherwise expired exactly when now > stamp + ttl·1000 |
| StateRules.ExpiryIsMonotone | state/state/src/lib/state.ts:164-172 | for a non-negative ttl, an expired entry stays expired as the clock advances |
| StateRules.SixtySecondWindow | state/state/src/lib/state.ts:164-172 | instance: a 60 s entry is fresh 59 s after its stamp and expired 61 s after it |
| StateRules.ContextKeysSeparateContexts | state/state/src/lib/state.ts:264-266 | for one raw key, two distinct non-empty contexts give distinct storage keys |
| StateRules.SharedNamespaceAliases | state/state/src/lib/state.ts:264-266 | a shared key, the empty context and the context named "shared" all fall into the `shared_` namespace |
| StateRules.ContextKeysCanCollideAcrossKeys | state/state/src/lib/state.ts:264-266 | different (context, key) pairs can collide, since `_` is not escaped |
| StateRules.BasePath | state/state/src/lib/state.ts:52-59 | the base path is empty or ends in `/`, and it extends a given non-empty path by at most the slash |
| StateRules.BasePathIdempotent | state/state/src/lib/state.ts:52-59 | normalising a normalised base path changes nothing |
| StateRules.ValidateFetch | state/state/src/lib/state.ts:287-304 | fetch is accepted exactly when the uri is non-empty, the method is a valid verb in any case and the callback is a function; each failure gives its own error, in that order |
| StateRules.MethodCheckIgnoresCase | state/state/src/lib/state.ts:21 | instance: "get" and "Patch" are accepted; "HEAD" and a non-string are refused |
| StateRules.NormalisationRules | state/state/src/lib/state.ts:332-344 | definition: a cold cache turns CacheFirst and CacheOnly into NetworkFirst; an expired CacheOnly becomes CacheFirst; None and NetworkFirst never change |
| StateRules.UnrecognisedStrategyOnColdCache | state/state/src/lib/state.ts:332-344 | an unrecognised strategy becomes NetworkFirst on a cold cache and survives to dispatch only when something is cached |
| StateRules.NormalisedServesFromCacheOnlyWhenCached | state/state/src/lib/state.ts:332-344 | after normalisation, every strategy that serves from cache has a cached entry, and CacheOnly's entry is fresh |
| StateRules.NormaliseIdempotent | state/state/src/lib/state.ts:332-344 | normalising twice is normalising once, except that an expired CacheOnly turned CacheFirst |
| StateRules.RefreshAuthTable | state/state/src/lib/state.ts:115-154 | definition: the headers are updated exactly when auth is checked, the callbacks are set, the user is not authenticated and re-authentication succeeds; `reAuthenticate` runs exactly in the first three of those cases; the request is never stopped without an update |
| StateRules.UrlQueryPairWithoutQuery | state/state/src/lib/state.ts:174-193 | for every uri without `?` and every encoded parameter text, the uri is the url and the query is the encoded parameters |
| StateRules.UrlQueryPairDropsSecondQuery | state/state/src/lib/state.ts:174-193 | instance: the text after a second `?` is lost |
| StateRules.UrlQueryPairAppendsParameters | state/state/src/lib/state.ts:174-193 | instance: an existing query comes first, joined with `&` to the encoded parameters |
| StateRules.FinalUrlUnderBasePath | state/state/src/lib/state.ts:318-321 | under the base path "api/" and with no query, for every non-empty rest of the url and every `isValidUrl` that rejects it, a relative url goes under the base path without its leading slash, but "/" alone keeps it |
| StateRules.CacheKeyTextAmbiguous | state/state/src/lib/state.ts:326 | the hashed text concatenates user, url and body without a separator, so distinct pairs give one key |
| StateRules.IsExpired | state/state/src/lib/state.ts:164-172 | definition: an entry is expired when its stamp or ttl is NaN, or the ttl is non-zero and more than ttl seconds have passed since the stamp |
| StateRules.IsValidKey | state/state/src/lib/state.ts:156-158 | definition: a key is valid when it is a non-empty string |
| StateRules.ContextKey | state/state/src/lib/state.ts:264-266 | definition: the storage key is `shared_<key>` for a shared key or an empty context, `<context>_<key>` otherwise |
| StateRules.NormaliseStrategy | state/state/src/lib/state.ts:332-344 | definition: a cache strategy on a cold cache becomes NetworkFirst, an expired CacheOnly becomes CacheFirst, anything else is kept |
| StateRules.RefreshAuth | state/state/src/lib/state.ts:115-154 | definition: whether `refreshAuth` updates the headers and whether it calls `reAuthenticate` |
| StateRules.UrlQueryPair | state/state/src/lib/state.ts:174-193 | definition: the uri split at `?` into path and query, the encoded parameters joined to the query with `&` |
| StateRules.FinalUrl | state/state/src/lib/state.ts:318-321 | definition: a url that is not absolute goes under the base path, with the query appended |
| StateStore.ParseItem | state/state/src/lib/state.ts:610 | definition: parsing stored text fails exactly on the text "undefined" and otherwise gives back the stored value |
| StateStore.GetSpec | state/state/src/lib/state.ts:600-743 | definition: `get` of each back end: WebState reads the session, then the local area; UNSAFE_WebState copies a local-only hit into the session; MemState gives a truthy value or the fallback |
| StateStore.SetSpec | state/state/src/lib/state.ts:622-755 | definition: `set` of each back end: WebState writes the session or, refusing a key the session holds, the local area; UNSAFE_WebState writes the session and, when persisting, the local area and the warning flag; MemState writes memory |
| StateStore.WebSetThenGet | state/state/src/lib/state.ts:600-648 | on both Web back ends, a value written without error reads back as the parse of its JSON round trip |
| StateStore.MemSetThenGet | state/state/src/lib/state.ts:734-755 | MemState gives back the value set, or the fallback when that value is falsy |
| StateStore.WebMixedPersistence | state/state/src/lib/state.ts:622-648 | after a session write, WebState refuses a persisted write of the same key and changes nothing |
| StateStore.UnsafeWritesThrough | state/state/src/lib/state.ts:689-724 | UNSAFE_WebState never refuses a write; a persisted value lands in both areas, the session one always |
| StateStore.UnsafeGetCopiesIntoSession | state/state/src/lib/state.ts:665-687 | a persisted-only hit is returned and copied into the session |
| StateStore.UnsafeWarningFlag | state/state/src/lib/state.ts:700-718 | the deprecation flag is set by the first persisted write of a context and left as it is by later ones |
| StateStore.InvalidKeyIsInert | state/state/src/lib/state.ts:156-158 | an invalid key changes no store and always reads as the fallback |
| StateStore.SetTouchesOnlyItsKey | state/state/src/lib/state.ts:622-755 | a write changes only its own context key (and the warning flag) |
| StateStore.ContextsAreIsolated | state/state/src/lib/state.ts:264-266 | a write in one non-empty context does not change what another context reads |
| StateStore.SetThenGet | state/state/src/lib/state.ts:600-755 | on every back end a write of an object succeeds (on WebState, unless it persists a key the session holds) and reads back as what the back end keeps of it, by a read that changes no store |
| StateStore.GetKeepsReads | state/state/src/lib/state.ts:600-743 | a read never changes what a later read gives |
| StateHeaders.Spread | state/state/src/lib/state.ts:537-540 | spreading into headers with unique names keeps the names unique |
| StateHeaders.SpreadLookup | state/state/src/lib/state.ts:537-540 | a per-call header wins over a default of the same name; a default without one is kept |
| StateHeaders.SpreadLookupDefault | state/state/src/lib/state.ts:537-540 | a name the per-call headers lack keeps its default, whatever the per-call names |
| StateHeaders.JsonHeaders | state/state/src/lib/state.ts:72-81 | the stored default headers keep the names and order of the given ones, without undefined or function values |
| StateHeaders.JsonHeadersIdempotent | state/state/src/lib/state.ts:72-81 | storing stored defaults again changes nothing |
| StateHeaders.WithBearer | state/state/src/lib/state.ts:425-432 | the bearer token goes under `authorization` when the caller used that spelling, else `Authorization`; other headers are kept |
| StateHeaders.BearerTakesCallersSpelling | state/state/src/lib/state.ts:425-432 | a caller's lower-case `authorization` header gets the token as its value, and no second header is added |
| StateHeaders.FirstContentType | state/state/src/lib/state.ts:547-549 | the content type is the value of some truthy entry with a content-type name in any case |
| StateHeaders.FirstContentTypeFound | state/state/src/lib/state.ts:547-549 | a content type is found exactly when some truthy entry has that name, and it is the first such entry |
| StateHeaders.TruthyEntries | state/state/src/lib/state.ts:542-545 | the entries kept are exactly the truthy ones, in their order |
| StateHeaders.LookupTruthyEntries | state/state/src/lib/state.ts:542-545 | with unique names, a name is kept exactly when its entry is truthy, with that value |
| StateHeaders.PlanContentType | state/state/src/lib/state.ts:547-549 | the first content type wins |
| StateHeaders.PlanSendsTruthyEntries | state/state/src/lib/state.ts:542-559 | without a form-data body, exactly the truthy entries are set, in order |
| StateHeaders.PlanSendsOnlyTruthyEntries | state/state/src/lib/state.ts:542-559 | every header set is one of the merged entries with a truthy value |
| StateHeaders.MergeHeaders | state/state/src/lib/state.ts:533-565 | the header loop over the spread defaults and headers sets the truthy entries, skipping a multipart content type over a form-data body, and finds the first content type |
| StateHeaders.MergeHeadersAsWritten | state/state/src/lib/state.ts:533-565 | as written, the loop rejects exactly when a truthy content-type entry is reached, and is otherwise the loop above |
| StateHeaders.FirstContentTypeOfPrefix | state/state/src/lib/state.ts:542-549 | the content type found in a prefix of the entries is the first one there |
| StateHeaders.TruthyEntriesOfPrefix | state/state/src/lib/state.ts:542-545 | the truthy entries of a longer prefix extend those of a shorter one |
| StateHeaders.JsonRequestRejectsAsWritten | state/state/src/lib/state.ts:534-552 | a request with a JSON content type, however the header name is cased, rejects as written |
| StateHeaders.ReplaceSkipsPlainText | state/state/src/lib/state.ts:195-207 | text without `:` or `{` is copied unchanged by the placeholder replacement |
| StateHeaders.ReplaceBothSpellings | state/state/src/lib/state.ts:195-207 | both `:key` and `{key}` are replaced by the value |
| StateHeaders.UserPath | state/state/src/lib/state.ts:195-207 | instance: `/users/:id` with id 7 becomes `/users/7` |
| StateHeaders.SetPathParameters | state/state/src/lib/state.ts:195-207 | the loop applies the parameters one after another in order, and a falsy parameter object leaves the url as it is |
| StateHeaders.ParseHeaders | state/state/src/lib/state.ts:209-237 | the loop over the response header lines builds the map of the `ParsedHeaders` definition |
| StateHeaders.HeaderLinesKeepFirst | state/state/src/lib/state.ts:222-232 | a header name already read keeps its value through later lines |
| StateHeaders.HeaderLinesOnlyAdd | state/state/src/lib/state.ts:222-232 | every name in the result comes from the starting map or from a line |
| StateHeaders.HeaderLinesFirstWins | state/state/src/lib/state.ts:222-232 | the first line with a given name decides its value |
| StateHeaders.HeaderLineCutsAtSecondColon | state/state/src/lib/state.ts:222-232 | instance: only the text between the first and second colon is kept, so a value with a colon is cut |
| StateHeaders.PlanHeaders | state/state/src/lib/state.ts:542-559 | definition: the corrected header loop: falsy entries skipped, the first truthy content type kept, a multipart type over a form-data body left out |
| StateHeaders.WithPathParameters | state/state/src/lib/state.ts:195-207 | definition: each parameter replaces its `:key` and `{key}` placeholders, in order |
| StateHeaders.ParsedHeaders | state/state/src/lib/state.ts:209-237 | definition: the response header text split into lines, each read as name and value, the first line of a name winning |
| StateFetch.ExtractMessageCases | state/state/src/lib/state.ts:239-262 | instance: a non-empty message string wins; then the result's own message; with neither, the message is empty |
| StateFetch.ExtractMessage | state/state/src/lib/state.ts:239-262 | definition: `extractMessage`: the messages argument, then the result's message, then the first of an array of messages, read through `message` when it is an object |
| StateFetch.NormaliseResponse | state/state/src/lib/state.ts:447-481 | definition: the response object `request` builds from the reply, rejecting a nullish body |
| StateFetch.Outgoing | state/state/src/lib/state.ts:420-567 | definition: the request sent: the auth-refreshed headers spread over the defaults through the corrected header loop, the body as JSON text when the content type asks for it |
| StateFetch.RequestSpec | state/state/src/lib/state.ts:394-569 | definition: `request`: send, normalise the reply, write an ok reply back for a strategy other than None, and report a failure other than 304 |
| StateFetch.ReadCache | state/state/src/lib/state.ts:325-327 | definition: the reads before dispatch: the shared `user`, the md5 cache key, and what that key holds |
| StateFetch.Stamp | state/state/src/lib/state.ts:327-329 | definition: the corrected stamp read: a missing entry has no stamp |
| StateFetch.StampAsWritten | state/state/src/lib/state.ts:327-329 | definition: the stamp read as written, which throws on a missing entry |
| StateFetch.Dispatch | state/state/src/lib/state.ts:329-388 | definition: the strategy normalised (with the corrected stamp) and dispatched on |
| StateFetch.FetchSpec | state/state/src/lib/state.ts:268-389 | definition: `fetch`: validate, build the url, read the cache, dispatch |
| StateFetch.ExtractMessageFromArray | state/state/src/lib/state.ts:239-262 | an array of messages gives its first element, read through its `message` field when it is an object, where a `null` element throws |
| StateFetch.Trace | state/state/src/lib/state.ts:457-464 | with tracing, the trace is a prefix of the header without a comma, and a header without a comma is kept whole |
| StateFetch.NormalisedFields | state/state/src/lib/state.ts:466-481 | the response's ok follows 200 ≤ status < 300, the status and stamp are the reply's, and `result` is the body's own result unless the original is kept |
| StateFetch.NullishBodyRejects | state/state/src/lib/state.ts:447-466 | a null or undefined body makes the request reject |
| StateFetch.StoredResponseFreshness | state/state/src/lib/state.ts:466-485 | a stored response is truthy and, for a positive ttl, expired exactly once ttl seconds have passed since the reply |
| StateFetch.RequestWritesBackOnlyOk | state/state/src/lib/state.ts:483-524 | only an ok reply is written back, only for a strategy other than None, and a failure other than 304 is reported |
| StateFetch.SentRequestCarriesBearer | state/state/src/lib/state.ts:420-433 | with auth checked, the callbacks set, the user not authenticated and a successful refresh, the merged headers carry `Bearer <access>` under the caller's spelling |
| StateFetch.ColdCacheStamp | state/state/src/lib/state.ts:327-329 | on a cold cache the stamp read as written throws while the intended one reads expired; elsewhere they agree |
| StateFetch.ReadCacheKeepsStores | state/state/src/lib/state.ts:325-327 | the reads before dispatch change no store except through UNSAFE_WebState's copy |
| StateFetch.FetchValidatesFirst | state/state/src/lib/state.ts:287-304 | an invalid uri, method or callback rejects before any store is read or written |
| StateFetch.DispatchByStrategy | state/state/src/lib/state.ts:332-388 | a fresh CacheOnly returns the entry without a request; CacheFirst returns the entry and hands an ok (or any, with callbackOnFail) response to the callback; NetworkFirst, or a cache strategy on a cold cache, requests; None returns the request's result |
| StateFetch.NetworkFirstChoice | state/state/src/lib/state.ts:363-368 | NetworkFirst returns the network response when it is ok or nothing is cached, the cached entry otherwise, and rejects with the request |
| StateFetch.RequestStoresResponse | state/state/src/lib/state.ts:483-485 | on every back end, an ok reply to a request whose strategy is not None resolves with the response, reports nothing and writes the response under the cache key, persisted or not (for WebState, unless the session holds the key) |
| StateFetch.StoredResponseStamp | state/state/src/lib/state.ts:466-485 | what any back end keeps of a normalised response is truthy and carries the reply's stamp |
| StateFetch.ReadCacheAfterStore | state/state/src/lib/state.ts:325-327 | after that write, the same request reads what the back end keeps of the response (its JSON round trip in Web Storage, the value itself in MemState), and the reads change no store |
| StateFetch.FirstFetchStores | state/state/src/lib/state.ts:268-389 | a fetch asked for as NetworkFirst, or as CacheFirst or CacheOnly on a cold cache, is sent as NetworkFirst; on an ok reply it resolves with the response and its stores are the cache reads followed by the write-back |
| StateFetch.DefaultFetchPersists | state/state/src/lib/state.ts:268-389 | with the default options (CacheFirst, persisted), a first fetch on WebState with a cold cache resolves with the response and writes its JSON round trip into the local area only |
| StateFetch.CacheOnlyServesFresh | state/state/src/lib/state.ts:332-344 | a CacheOnly fetch whose reads find a fresh entry returns it without a request and changes no store |
| StateFetch.FetchThenServeFromCache | state/state/src/lib/state.ts:268-389 | on every back end, persisted or not, a fetch asked for as NetworkFirst (or CacheFirst or CacheOnly on a cold cache) with an ok reply, followed by a CacheOnly fetch of the same request within the ttl, is served what the back end keeps, without a request and without changing any store |
| StateFetch.DefaultHeaderSent | state/state/src/lib/state.ts:537-559 | without a form-data body, a default header the call does not set itself is sent with its default value exactly when that value is truthy |
| StateObjects.State.Get | state/state/src/lib/state.ts:600-743 | a read on the object is the backend's read of the stores |
| StateObjects.State.Set | state/state/src/lib/state.ts:622-755 | a write on the object is the backend's write of the stores |
| StateObjects.State.Request | state/state/src/lib/state.ts:394-569 | `request` on the object is the request specification over its stores |
| StateObjects.BuildRequest | state/state/src/lib/state.ts:420-567 | the request sent carries the auth-refreshed headers merged with the defaults, and the body as JSON text when the content type asks for it |
| StateObjects.State.Fetch | state/state/src/lib/state.ts:268-389 | `fetch` on the object is the fetch specification over its stores |
| StateObjects.State.constructor | state/state/src/lib/state.ts:52-59 | a new state keeps its context and normalised base path over the given storage areas |
| StateObjects.StateDefaults.SetDefaultHeaders | state/state/src/lib/state.ts:72-81 | a truthy object is stored as its JSON round trip; anything else is refused and nothing changes |
| StateObjects.StateDefaults.SetDefaultCacheTTL | state/state/src/lib/state.ts:83-92 | a number is stored; NaN is refused and nothing changes |
| StateObjects.StateDefaults.SetAuthCallbacks | state/state/src/lib/state.ts:94-113 | three functions are stored together; otherwise nothing changes |
| StateObjects.DefaultHeadersReachRequest | state/state/src/lib/state.ts:533-559 | once `setDefaultHeaders(h)` has stored `h`, a request without a form-data body sends each default header the call does not set itself, with its stored value, exactly when that value is truthy |
| EventBus.EmitCalls | events/events/src/events.ts:93-101 | emit makes at most one call per subscriber |
| EventBus.Subscribed | events/events/src/events.ts:18-31 | definition: the subscriptions with the callback put under its event and context |
| EventBus.Removed | events/events/src/events.ts:56-69 | definition: the subscriptions with the context deleted from its event |
| EventBus.EmitReachesEverySubscriber | events/events/src/events.ts:93-101 | with function callbacks, every subscriber is called once, in subscription order, with `{name, data}` |
| EventBus.EmitStopsAtFalsy | events/events/src/events.ts:94-96 | nothing after a falsy callback is called |
| EventBus.SubscribeIsLocal | events/events/src/events.ts:18-31 | a subscribe that adds the pair sets that pair's callback and changes no other pair |
| EventBus.SubscribedWellFormed | events/events/src/events.ts:18-31 | adding a function callback keeps contexts unique and every callback a function |
| EventBus.ResubscribeAfterRemove | events/events/src/events.ts:18-31 | after remove, the same context can subscribe again |
| EventBus.RemoveIsLocal | events/events/src/events.ts:56-69 | remove changes no other (event, context) pair |
| EventBus.Events.Subscribe | events/events/src/events.ts:4-44 | a subscription is added exactly when the arguments have the right types and the pair has no callback; it then puts the pair under its event, else nothing changes; well-formedness is preserved |
| EventBus.Events.Remove | events/events/src/events.ts:47-75 | non-string arguments and unknown events change nothing; otherwise the pair is deleted |
| EventBus.Events.Emit | events/events/src/events.ts:78-107 | the loop makes the calls of `EmitCalls`, nothing for an unknown event |
| EventBus.PutKeepsFunctions | events/events/src/events.ts:30 | setting a function keeps every callback a function |
| EventBus.DeleteKeepsFunctions | events/events/src/events.ts:66 | deleting keeps every callback a function |
| LogFetch.PublishedOrder | state/state/src/lib/logFetch.ts:46-50 | the new entry is first and the earlier entries follow in order, the oldest dropped |
| LogFetch.Published | state/state/src/lib/logFetch.ts:44-52 | definition: the log after a publish: the oldest entries dropped to make room, the new entry first |
| LogFetch.LogAfter | state/state/src/lib/logFetch.ts:54-69 | definition: the log after a wrapped fetch: the publishes of its callback and of its result |
| LogFetch.PublishedLength | state/state/src/lib/logFetch.ts:46-50 | a positive bound is never exceeded once reached and is kept when reached; with no positive bound the log grows by one |
| LogFetch.PublishedStaysBounded | state/state/src/lib/logFetch.ts:44-52 | any run of publishes keeps a bounded log within its bound |
| LogFetch.GetLoggedFetch | state/state/src/lib/logFetch.ts:34-42 | the wrapper exists exactly when the state has a fetch function and the bound is a number |
| LogFetch.CallbackLogsPrimaryResult | state/state/src/lib/logFetch.ts:55-67 | when the callback fires, the primary result is logged twice, not the network response |
| LogFetch.RejectedFetchNotLogged | state/state/src/lib/logFetch.ts:62-67 | a rejected fetch publishes nothing |
| LogFetch.FetchLogs.Publish | state/state/src/lib/logFetch.ts:44-52 | a publish with `shouldLog` true is `Published`, and otherwise nothing changes |
| LogFetch.FetchLogs.LoggedFetch | state/state/src/lib/logFetch.ts:54-69 | the wrapped call is fetch with the logging callback; the caller's callback gets what the callback got; the log gets the publishes of `LogAfter` |
| MiniProgramBridge.OnceOf | mini-program-bridge/src/common/miniProgramWebInterface.ts:118 | definition: `once` defaults to true only when undefined |
| MiniProgramBridge.OnMessageSpec | mini-program-bridge/src/common/miniProgramWebInterface.ts:184-224 | definition: the response handler: an unknown id is ignored; otherwise the entry is removed when `once`, and the callback gets the error text or the data |
| MiniProgramBridge.ErrorCode | mini-program-bridge/src/common/miniProgramWebInterface.ts:162 | a code is accepted exactly when it is a string of digits or a non-negative number; an accepted code is digits, a digit string is kept as it is and a number is spelled in decimal |
| MiniProgramBridge.GetErrorMessage | mini-program-bridge/src/common/miniProgramWebInterface.ts:148-177 | the error text is always truthy |
| MiniProgramBridge.ErrorMessagePrecedence | mini-program-bridge/src/common/miniProgramWebInterface.ts:148-177 | `message` wins over `errorMessage`, which wins over `error`; a truthy `error` is spelled after the message when it is a code and given as it is otherwise; with none, the unknown-error text |
| MiniProgramBridge.DigitCodeIsSpelledOut | mini-program-bridge/src/common/miniProgramWebInterface.ts:160-165 | an `error` code given as a string of digits (documented as a string at line 44) comes back as "<message> returned with error code: <code>" |
| MiniProgramBridge.ErrorCodeReadsBack | mini-program-bridge/src/common/miniProgramWebInterface.ts:160-165 | a positive numeric code is spelled after the message and reads back from the end of the text |
| MiniProgramBridge.NonNumericCodeIsKept | mini-program-bridge/src/common/miniProgramWebInterface.ts:160-168 | a code that is not all digits is the text itself |
| MiniProgramBridge.UnknownIdIgnored | mini-program-bridge/src/common/miniProgramWebInterface.ts:192-198 | a response whose id is not pending returns false and changes nothing |
| MiniProgramBridge.OnceDecidesRemoval | mini-program-bridge/src/common/miniProgramWebInterface.ts:200-208 | the entry is removed exactly when its `once` is truthy; every other entry stays |
| MiniProgramBridge.CallbackReceivesResponse | mini-program-bridge/src/common/miniProgramWebInterface.ts:210-223 | the callback gets the error text exactly when the response has a truthy error (then false is returned), with the data and id either way |
| MiniProgramBridge.PersistentEntrySurvives | mini-program-bridge/src/common/miniProgramWebInterface.ts:113-140 | with `once: false`, every response reaches the callback and the entry stays |
| MiniProgramBridge.DefaultEntryAnsweredOnce | mini-program-bridge/src/common/miniProgramWebInterface.ts:113-140 | with the default `once`, the first response reaches the callback and the next finds nothing pending |
| MiniProgramBridge.StorageRequest | mini-program-bridge/src/common/miniProgramWebInterface.ts:603-852 | a helper is refused exactly for a key that is not a non-empty string, or for the setters an undefined value; otherwise its data carries the key (and value) |
| MiniProgramBridge.StorageSettled | mini-program-bridge/src/common/miniProgramWebInterface.ts:617-636 | definition: the promise rejects exactly with a truthy error, else resolves with the data for getters and nothing for the others |
| MiniProgramBridge.TradePay | mini-program-bridge/src/common/miniProgramWebInterface.ts:553-595 | a result exists exactly for a non-nullish reply, its code defaults to "-1", and an error is never a success |
| MiniProgramBridge.TradePaySuccessIff | mini-program-bridge/src/common/miniProgramWebInterface.ts:559-592 | success exactly for a success reply without error and code "9000"; processing exactly for code "8000"; never both |
| MiniProgramBridge.TradePayMessages | mini-program-bridge/src/constants.ts:26-32 | a success reads "Success"; a missing code reads "-1" with the default text |
| MiniProgramBridge.TradePayErrors | mini-program-bridge/src/common/miniProgramWebInterface.ts:559-570 | a failure or error reply is not a success, has no processing flag and reports its error or "Unknown" |
| MiniProgramBridge.Bridge.Post | mini-program-bridge/src/common/miniProgramWebInterface.ts:113-140 | the entry is put under the drawn id, the envelope `{id, message, data}` is posted and the id returned |
| MiniProgramBridge.Bridge.RemovePending | mini-program-bridge/src/common/miniProgramWebInterface.ts:100-102 | only the given id is removed |
| MiniProgramBridge.Bridge.OnMessage | mini-program-bridge/src/common/miniProgramWebInterface.ts:184-224 | the handler is `OnMessageSpec` and posts nothing |
| MiniProgramBridge.Bridge.Storage | mini-program-bridge/src/common/miniProgramWebInterface.ts:603-852 | refused arguments post nothing; otherwise the helper's message is posted with a default-once entry |
| AppConfig.FileStem | config/src/lib/index.ts:42-48 | the name from the url has no `/` and no `.` |
| AppConfig.ConfigName | config/src/lib/index.ts:38-49 | definition: the given name, else the file stem of the url |
| AppConfig.Prepare | config/src/lib/index.ts:58-64 | definition: the modified-since value: cleared by `force`, else read from storage |
| AppConfig.Conclude | config/src/lib/index.ts:78-106 | definition: the outcome of the configuration response and what it stores |
| AppConfig.InitSpec | config/src/lib/index.ts:25-107 | definition: `init`: name, url check, modified-since step, fetch and conclusion |
| AppConfig.Walk | config/src/lib/index.ts:125-132 | definition: the `&&` walk of a value along a path of keys |
| AppConfig.GetValue | config/src/lib/index.ts:109-135 | definition: `get`: null for a bad key, else the walk of the dotted key over the stored or default configuration |
| AppConfig.FileStemOf | config/src/lib/index.ts:42-48 | the name of `<dir>/<stem>.<ext>` or `<dir>/<stem>` is `stem` |
| AppConfig.ConfigNameRules | config/src/lib/index.ts:38-49 | a non-empty given name is used; otherwise the stem of the url |
| AppConfig.IfModifiedSince | config/src/lib/index.ts:66-70 | definition: the header is sent exactly for a truthy modified-since value |
| AppConfig.DefaultNameSetOnce | config/src/lib/index.ts:51-53 | the first init without a default name sets it; later ones keep it |
| AppConfig.ModifiedSinceRules | config/src/lib/index.ts:58-64 | `force` sends no modified-since value and clears the stored one; otherwise the stored value is read and nothing changes |
| AppConfig.KeysDistinct | config/src/lib/index.ts:60-63 | the configuration and its modified-since value never share a storage key |
| AppConfig.NotModifiedKeepsConfig | config/src/lib/index.ts:93-95 | a 304 with a cached configuration gives true and leaves the configuration as it was |
| AppConfig.ConcludeOutcomes | config/src/lib/index.ts:78-106 | a missing, failed or result-less response (not a 304 over a cached configuration) gives false; a good response gives true, and its result then reads back from storage |
| AppConfig.WalkAppend | config/src/lib/index.ts:125-132 | walking a path is walking its first part, then the rest |
| AppConfig.WalkFalsy | config/src/lib/index.ts:127-129 | a walk stops at a falsy value and returns it |
| AppConfig.WalkNested | config/src/lib/index.ts:131 | a step into an object reads the named field |
| AppConfig.GetWalksJoinedKeys | config/src/lib/index.ts:118-134 | a dotted key walks its parts in order, from the stored configuration or the default one |
| AppConfig.FallsBackToDefaultConfig | config/src/lib/index.ts:118-122 | without a stored configuration the default configuration is walked |
| AppConfig.Config.constructor | config/src/lib/index.ts:20-23 | no url, an empty default configuration and no default name |
| AppConfig.Config.Init | config/src/lib/index.ts:25-107 | init on the object is `InitSpec` on its stores and fields |
| AppConfig.Config.FetchState | config/src/lib/index.ts:72-106 | the fetch and what follows it are `FetchAndConclude` |
| AppConfig.Config.PrepareState | config/src/lib/index.ts:58-64 | the modified-since step is `Prepare` |
| AppConfig.Config.ConcludeState | config/src/lib/index.ts:78-106 | the final step is `Conclude` |
| AppConfig.Config.Get | config/src/lib/index.ts:109-135 | the loop is `GetValue`: null for a bad key, else the walk of the split key |
| Environments.Collapse | environment/src/index.ts:9 | collapsing slash runs leaves no double slash and keeps the first character |
| Environments.JoinPaths | environment/src/index.ts:9 | definition: `joinPaths`: the parts joined with `/`, slash runs collapsed and the scheme's `://` restored |
| Environments.IsRelativePath | environment/src/index.ts:10 | definition: `isRelativePath`: not a string that starts with "http" |
| Environments.WithDefaults | environment/src/index.ts:60-64 | definition: the defaulting step of one environment |
| Environments.WithPaths | environment/src/index.ts:78-84 | definition: the path and navigator-type step of one environment |
| Environments.Detect | environment/src/index.ts:93-107 | definition: the first environment whose ui host, without scheme and port, is the page host |
| Environments.CurrentOf | environment/src/index.ts:89-107 | definition: the environment `init` makes current: prod, production or `{}`, replaced by a detected one |
| Environments.InitSpec | environment/src/index.ts:24-110 | definition: `init`: the table and the current environment written to the session |
| Environments.SetEnvSpec | environment/src/index.ts:116-128 | definition: `set`: a known name's environment written as current |
| Environments.CurrentSpec | environment/src/index.ts:112-114 | definition: `current`: the stored current environment, or `{}` |
| Environments.CollapseClean | environment/src/index.ts:9 | text without a double slash is unchanged |
| Environments.CollapseAppend | environment/src/index.ts:9 | pieces that do not meet at two slashes collapse separately |
| Environments.FirstColonSlash | environment/src/index.ts:9 | the index found is -1 or leaves room for the slash |
| Environments.FirstColonSlashFinds | environment/src/index.ts:9 | the index is that of the first ":/", and -1 means there is none |
| Environments.JoinPathsSlashes | environment/src/index.ts:9 | a joined path has no double slash after its scheme, and none at all without ":/" |
| Environments.JoinHostAndBase | environment/src/index.ts:9 | `<scheme>://<host>` and `/<base>` join with one slash and keep the scheme's two slashes |
| Environments.NavigatorType | environment/src/index.ts:82-84 | the navigator type is "browser" exactly when one was given or the ui host mentions localhost, else "memory" |
| Environments.NavigatorTypeGrouped | environment/src/index.ts:82-84 | with the conditional grouped under `||`, a given type would be kept |
| Environments.GivenNavigatorTypeLost | environment/src/index.ts:82-84 | instance: a given "memory" on a remote host becomes "browser" |
| Environments.NavigatorReadingsDiffer | environment/src/index.ts:82-84 | the two readings differ exactly on a given type other than "browser" |
| Environments.NormaliseDefaults | environment/src/index.ts:60-64 | name, bases and asset host get their defaults; every other field is kept |
| Environments.NormalisePaths | environment/src/index.ts:78-80 | the api, ui and asset paths each join the host and its (already defaulted) base; every other field is kept |
| Environments.NormaliseNavigatorType | environment/src/index.ts:82-84 | the navigator type written is "browser" exactly when one was given or the ui host mentions localhost, else "memory" |
| Environments.DefaultBasesAreRelative | environment/src/index.ts:61-63 | a missing base becomes "/", which is relative, and relative bases stay relative |
| Environments.EnvironmentsOf | environment/src/index.ts:53-87 | the table has unique names |
| Environments.ConfiguredIsObject | environment/src/index.ts:55 | a kept entry is a plain object |
| Environments.EnvironmentNames | environment/src/index.ts:53-87 | the table's names are exactly the lower-cased names of the kept entries |
| Environments.LastEntryDecides | environment/src/index.ts:86 | the last kept entry of a name decides its environment |
| Environments.UnconfiguredSkipped | environment/src/index.ts:55-58 | an entry without ui or api host leaves the table as it was |
| Environments.EnvHostOfUrl | environment/src/index.ts:99 | `<scheme>://<host>:<port>` is detected by its bare host |
| Environments.StripPortWithoutColon | environment/src/index.ts:99 | a host without a colon is unchanged by the port removal |
| Environments.DetectFirstMatch | environment/src/index.ts:93-107 | the detected environment matches the page host and none before it does; none is detected exactly when none matches |
| Environments.DetectsOwnHost | environment/src/index.ts:93-107 | an environment with that host is detected on the page of its host, whatever its scheme and port |
| Environments.DetectNonStringHost | environment/src/index.ts:95-101 | a ui host that is not a string matches exactly when there is no page host |
| Environments.CurrentDefaults | environment/src/index.ts:91 | without detection, the current environment is prod, then production, then `{}` |
| Environments.InitWithoutConfig | environment/src/index.ts:40-48 | a missing or empty configuration stores nothing |
| Environments.InitSucceeds | environment/src/index.ts:89-109 | the writes of init never fail |
| Environments.CurrentIsObject | environment/src/index.ts:91-107 | the current environment is one of the table's objects or `{}` |
| Environments.InitThenCurrent | environment/src/index.ts:89-114 | after init, `current` reads the chosen environment (as its JSON round trip on the Web back ends) |
| Environments.SetUnknownKeepsCurrent | environment/src/index.ts:116-125 | set with an unknown name leaves the current environment as it was |
| Environments.SetKnownSwitches | environment/src/index.ts:116-128 | on every back end, set with a known name succeeds and makes that environment current: MemState reads it back itself, the Web back ends as the parse of its JSON round trip |
| Environments.Environment.Build | environment/src/index.ts:53-87 | the loop over the configured entries builds exactly `EnvironmentsOf` |
| Environments.Environment.Init | environment/src/index.ts:24-110 | the loop and writes of init are `InitSpec` |
| Environments.Environment.Detected | environment/src/index.ts:91-107 | the detect loop gives `CurrentOf` |
| Environments.Environment.Set | environment/src/index.ts:116-128 | set is `SetEnvSpec` on the stores |
| Environments.Environment.Current | environment/src/index.ts:112-114 | current is `CurrentSpec` on the stores |
| JsValue.Or | environment/src/index.ts:60-64 | definition: `a || b` is `a` when truthy, else `b` |
| JsValue.JsonIsPlain | state/state/src/lib/state.ts:629 | the JSON round trip of a value JSON keeps is plain data: no undefined fields, functions or maps |
| JsValue.JsonOfPlain | state/state/src/lib/state.ts:629 | plain data survives a JSON round trip unchanged |
| JsValue.JsonIdempotent | state/state/src/lib/state.ts:80 | a second JSON round trip changes nothing |
| Ordered.LookupFinds | events/events/src/events.ts:20 | a lookup finds exactly the names present, with their value |
| Ordered.Put | events/events/src/events.ts:30 | `Map.set` gives the name the new value, adds it to the names, changes no other name and keeps names unique |
| Ordered.Delete | events/events/src/events.ts:66 | `Map.delete` removes just that name, changes no other name and adds no entry |
| Text.JoinSplit | config/src/lib/index.ts:120 | splitting and joining again gives the text back |
| Text.SplitJoin | config/src/lib/index.ts:120 | joining parts without the separator and splitting again gives the parts back |
| Text.LastIndexOf | config/src/lib/index.ts:42 | the index is the last occurrence, or -1 when there is none |
| Text.IndexOf | config/src/lib/index.ts:44 | the index is the first occurrence, or -1 when there is none |
| Text.Lower | environment/src/index.ts:86 | definition: lower-casing keeps the length, character by character |
| Text.Upper | state/state/src/lib/state.ts:291-294 | definition: upper-casing keeps the length, character by character |
| Text.DigitsValueOfNatToString | mini-program-bridge/src/common/miniProgramWebInterface.ts:162-165 | a number's decimal text reads back as the number |

## Findings

| source | as written | input that shows it | evidently intended | confidence | as-written member | corrected member |
|---|---|---|---|---|---|---|
| state/state/src/lib/state.ts:327-329 | `cachedResponse["stamp"]` is read before the cache is checked, and the read's fallback is `null`, so `fetch` throws a TypeError on a cold cache. The strategy rewrite just below it handles exactly that case. | any fetch whose cache key holds nothing, e.g. the first CacheFirst GET of a url | an entry that is not there counts as expired, and the cold-cache rule turns the strategy into NetworkFirst | not executed | StateFetch.StampAsWritten (exhibited by StateFetch.ColdCacheStamp) | StateFetch.Stamp |
| state/state/src/lib/state.ts:534-552 | `let FormData: any;` declares an undefined local that shadows the global `FormData`. `body instanceof FormData` then throws whenever a truthy content-type header is reached, so the request rejects. | a POST with the header `{"Content-Type": "application/json"}` | the global `FormData`: a multipart content type over a form-data body is not set, and every other truthy header is | not executed | StateHeaders.MergeHeadersAsWritten (exhibited by StateHeaders.JsonRequestRejectsAsWritten) | StateHeaders.MergeHeaders |

## Left out

- XMLHttpRequest is not modelled. The reply is the input `NetResponse`, with its status, parsed body, trace and date headers, and header text. The "XHR not supported" branch, timeouts and network errors are not modelled.
- `md5`, `qs.stringify` (with `arrayFormat`), the `URL_REGEX` test, the text of `JSON.stringify` and `${v}` are parameters of `StateFetch.Host`. Nothing is claimed about them beyond determinism.
- `setPathParameters` builds a regular expression from each key. The model replaces the literal placeholders `:key` and `{key}` from left to right, a key with regex metacharacters is not modelled, nor are `$` patterns in the replacement value or values that are not strings.
- StateObjects.State.Fetch: its contract is `FetchSpec`, which reads the stamp with the corrected `Stamp`. As written, every fetch on a cold cache rejects with a TypeError (state/state/src/lib/state.ts:327-329, see "## Findings"); the model sends it as NetworkFirst instead. `StateFetch.Dispatch`, `StateFetch.FetchSpec`, `AppConfig.Config.Init` and `AppConfig.Config.FetchState` inherit this.
- StateObjects.State.Request: its contract is `RequestSpec`, which merges headers with the corrected `MergeHeaders`. As written, a request with a truthy content-type header rejects (state/state/src/lib/state.ts:534-552, see "## Findings"); the model sends it.
- StateObjects.BuildRequest: builds the corrected header plan of `MergeHeaders`, not the rejection of the loop as written (`MergeHeadersAsWritten`).
- StateFetch.FetchThenServeFromCache: it and `FirstFetchStores` and `DefaultFetchPersists` describe the corrected program, in which a cold cache does not throw. They leave out the WebState rejection of a persisted write over a session key (that is `WebMixedPersistence`) and a second fetch other than CacheOnly.
- `IndexedDBState` (state.ts:758-907) is not modelled. It is a callback-driven transaction protocol and its `get` resolves a Promise.
- `State.with` (state.ts:61-70) chooses `IndexedDBState` for every call with the default options, because `{useIndexedDB: {}}` is truthy. So the real `Config.state` and `Environment.state` are IndexedDB states, whose `get` returns a Promise. `Config` and `Environment` are modelled over a synchronous `State` (any of the three modelled back ends) instead.
- The CacheFirst background request is taken to finish within the same `fetch` call. Its scheduling against other calls is not modelled.
- The error report to `reportUrl` is modelled only as the flag `reportsError`. Sentry and console warnings are not modelled, including the base-path, https and asset-path warnings of `Environment.init` (environment/src/index.ts:66-76).
- `Date()` is text with whole seconds; the model stamps the exact time `now` in milliseconds, so expiry can differ by under a second. Parsing date text is not modelled.
- Numbers are integers. NaN is `None` where the source tests for it (`defaultCacheTTL`, `maxFetchLogs`, a stamp). Floating point and numeric coercion of strings are not modelled.
- Parsing text that is not JSON is not modelled; stored values are kept as values. The one case that matters, the text "undefined" left by storing `undefined`-like values, is `ParseError`.
- Properties inherited from prototypes (`"x".length` aside) read as undefined. Callbacks that throw or re-enter the registry, the table or the state are not modelled.
- `Object.values` and `Object.entries` put integer-like keys first. The model keeps insertion order for every key.
- `toLowerCase` and `toUpperCase` are modelled on the ASCII letters only.
- The uuid of a posted message is an argument. A fresh id is not required; a reused id replaces the old entry, as `Map.set` does. `miniProgramApi.postMessage` is the `sent` list of the bridge.
- The Promise wrappers of the bridge other than the storage helpers and `tradePay` are not modelled. They are thin glue over the pending table.
- `Environment.init` mutates the caller's environment objects in place. The model builds new values, so that aliasing is not captured.
- `getLoggedFetch` with a non-integer `maxFetchLogs` is not modelled.
- `createLog` and `shouldLog` are applied to the result only. The uri and options of the call are fixed for one wrapped call.
- The default `createLog` record shape is not modelled.
- `insights/src/insights.ts` and `mini-program-bridge/src/hooks/useAccelerometer.ts` are not part of this model.
