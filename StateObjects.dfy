/** The objects of state/state/src/lib/state.ts: the Web Storage areas (shared by every
    `State` object of a window), a `State` object with its back end, and the static
    configuration of the `State` class. The subclasses `WebState`, `UNSAFE_WebState`
    and `MemState` share `fetch` and `request` and differ in `get` and `set`, so one class
    carries a `backend` tag and `get` and `set` dispatch on it. */
module StateObjects {
  import opened Wrappers
  import opened JsValue
  import opened Ordered
  import opened StateRules
  import opened StateHeaders
  import opened StateStore
  import opened StateFetch

  /** A Web Storage area (`window.sessionStorage` or `window.localStorage`). */
  class Storage {
    var items: map<string, Value>

    constructor ()
      ensures items == map[]
    {
      items := map[];
    }
  }

  /** The request `request` sends: headers after `refreshAuth`, merged with the defaults,
      and the body as JSON text when the content type asks for it. */
  method BuildRequest(statics: Statics, host: Host, url: string, o: FetchOptions) returns (sent: SentRequest)
    ensures sent == Outgoing(statics, host, url, o)
  {
    var headers := RequestHeaders(o.headers, o.checkAuth, statics.auth);
    var plan := MergeHeaders(statics.defaultHeaders, headers, o.bodyIsFormData);
    var body := if BodyIsJsonText(plan.contentType) then Str(host.stringify(o.body)) else o.body;
    sent := SentRequest(o.verb, url, plan.sent, body);
  }

  class State {
    const context: string
    const basePath: string
    const backend: Backend
    const sessionStorage: Storage
    const localStorage: Storage
    var memStorage: map<string, Value>

    /** The two areas are distinct objects. */
    ghost predicate Valid()
      reads this
    {
      sessionStorage != localStorage
    }

    function StoresOf(): Stores
      reads this, sessionStorage, localStorage
    {
      Stores(sessionStorage.items, localStorage.items, memStorage)
    }

    /** `new WebState(context, basePath)` (or `UNSAFE_WebState`, or `MemState`) over the
        window's storage areas. */
    constructor (backend: Backend, context: string, basePath: Value, session: Storage, local: Storage)
      requires session != local
      ensures Valid()
      ensures this.backend == backend && this.context == context && this.basePath == BasePath(basePath)
      ensures sessionStorage == session && localStorage == local && memStorage == map[]
    {
      this.backend := backend;
      this.context := context;
      this.basePath := BasePath(basePath);
      sessionStorage := session;
      localStorage := local;
      memStorage := map[];
    }

    /** `get(key, fallback, shared)`. */
    method Get(key: Value, fallback: Value, shared: bool) returns (r: Result<Value, StateError>)
      requires Valid()
      modifies sessionStorage
      ensures (r, StoresOf()) == GetSpec(backend, old(StoresOf()), context, key, fallback, shared)
    {
      if !IsValidKey(key) {
        return Ok(fallback);
      }
      var ck := ContextKey(context, key.s, shared);
      match backend
      case Web =>
        if ck in sessionStorage.items {
          r := ParseItem(sessionStorage.items[ck]);
        } else if ck in localStorage.items {
          r := ParseItem(localStorage.items[ck]);
        } else {
          r := Ok(fallback);
        }
      case UnsafeWeb =>
        if ck in sessionStorage.items {
          r := ParseItem(sessionStorage.items[ck]);
        } else if ck in localStorage.items {
          var item := localStorage.items[ck];
          sessionStorage.items := sessionStorage.items[ck := item];
          r := ParseItem(item);
        } else {
          r := Ok(fallback);
        }
      case Mem =>
        r := Ok(if ck in memStorage && Truthy(memStorage[ck]) then memStorage[ck] else fallback);
    }

    /** `set(key, value, shouldPersist, shared)`. */
    method Set(key: Value, value: Value, persist: bool, shared: bool) returns (r: Result<(), StateError>)
      requires Valid()
      modifies this, sessionStorage, localStorage
      ensures (r, StoresOf()) == SetSpec(backend, old(StoresOf()), context, key, value, persist, shared)
    {
      r := Ok(());
      match backend
      case Web =>
        if !IsValidKey(key) || value.Undefined? {
          return;
        }
        var ck := ContextKey(context, key.s, shared);
        if !persist {
          sessionStorage.items := sessionStorage.items[ck := Json(value)];
        } else if ck in sessionStorage.items {
          r := Err(MixedPersistence(ck));
        } else {
          localStorage.items := localStorage.items[ck := Json(value)];
        }
      case UnsafeWeb =>
        if !IsValidKey(key) || value.Undefined? {
          return;
        }
        var ck := ContextKey(context, key.s, shared);
        sessionStorage.items := sessionStorage.items[ck := Json(value)];
        if persist {
          var wk := ContextKey(context, WarningKeyName, false);
          if wk !in sessionStorage.items {
            sessionStorage.items := sessionStorage.items[wk := Bool(true)];
          }
          localStorage.items := localStorage.items[ck := Json(value)];
        }
      case Mem =>
        if IsValidKey(key) {
          memStorage := memStorage[ContextKey(context, key.s, shared) := value];
        }
    }

    /** `request(url, options)`, with the network reply `net` arriving at time `now`. */
    method Request(statics: Statics, host: Host, url: string, o: FetchOptions, strategy: Strategy,
                   cacheKey: string, net: NetResponse, now: int) returns (rr: RequestResult)
      requires Valid()
      modifies this, sessionStorage, localStorage
      ensures (rr, StoresOf()) == RequestSpec(backend, old(StoresOf()), context, statics, host, url, o, strategy, cacheKey, net, now)
    {
      var sent := BuildRequest(statics, host, url, o);
      var normalised := NormaliseResponse(net, o.enabledTracing, o.keepOriginalResult, cacheKey, now);
      if normalised.Err? {
        return RequestResult(Err(normalised.error), sent, false);
      }
      var response := normalised.value;
      if StatusOk(net.status) && strategy != Strategy.None {
        var w := Set(Str(cacheKey), response, o.shouldPersist, false);
        if w.Err? {
          return RequestResult(Err(w.error), sent, false);
        }
        return RequestResult(Ok(response), sent, false);
      }
      return RequestResult(Ok(response), sent, !StatusOk(net.status) && net.status != 304);
    }

    /** `fetch(uri, options)`, the CacheFirst background request included. */
    method Fetch(statics: Statics, host: Host, uri: string, o: FetchOptions, net: NetResponse, now: int) returns (outcome: FetchOutcome)
      requires Valid()
      modifies this, sessionStorage, localStorage
      ensures (outcome, StoresOf()) == FetchSpec(backend, old(StoresOf()), context, basePath, statics, host, uri, o, net, now)
    {
      var valid := ValidateFetch(uri, o.verb, o.callback);
      if valid.Err? {
        return Rejected(valid.error);
      }
      var url := RequestUrl(host, basePath, uri, o);
      var user := Get(Str("user"), Str("default-user"), true);
      if user.Err? {
        return Rejected(user.error);
      }
      var key := host.md5(CacheKeyText(host.display(user.value), url, host.stringify(o.body)));
      var got := Get(Str(key), Null, false);
      if got.Err? {
        return Rejected(got.error);
      }
      ghost var read := CacheRead(key, got.value);
      assert ReadCache(backend, old(StoresOf()), context, basePath, host, uri, o) == (Ok(read), StoresOf());
      var cached := got.value;
      var ttl := o.cacheTTL.GetOr(statics.defaultCacheTTL);
      var strategy := NormaliseStrategy(o.strategy, cached, IsExpired(Stamp(cached), ttl, now));
      match strategy
      case CacheOnly =>
        outcome := FetchOutcome(Ok(cached), strategy, key, Option.None, Option.None);
      case Unrecognised(n) =>
        outcome := FetchOutcome(Err(InvalidStrategy(n)), strategy, key, Option.None, Option.None);
      case None =>
        var rr := Request(statics, host, url, o, strategy, key, net, now);
        outcome := FetchOutcome(rr.response, strategy, key, Some(rr), Option.None);
      case NetworkFirst =>
        var rr := Request(statics, host, url, o, strategy, key, net, now);
        outcome := FetchOutcome(NetworkFirstResult(rr.response, cached), strategy, key, Some(rr), Option.None);
      case CacheFirst =>
        var rr := Request(statics, host, url, o, strategy, key, net, now);
        outcome := FetchOutcome(Ok(cached), strategy, key, Some(rr), CallbackArg(o.callbackOnFail, rr.response));
    }
  }

  /** The static configuration of the `State` class, with its initial values: no default
      headers, a default ttl of 0 and no auth callbacks. */
  class StateDefaults {
    var defaultHeaders: Option<Headers>
    var defaultCacheTTL: Option<int>
    var isAuthenticated: Value
    var reAuthenticate: Value
    var getTokens: Value

    constructor ()
      ensures defaultHeaders.None? && defaultCacheTTL == Some(0)
      ensures isAuthenticated == Null && reAuthenticate == Null && getTokens == Null
    {
      defaultHeaders := Option.None;
      defaultCacheTTL := Some(0);
      isAuthenticated := Null;
      reAuthenticate := Null;
      getTokens := Null;
    }

    /** The three callbacks are functions. */
    predicate CallbacksSet()
      reads this
    {
      isAuthenticated.Func? && reAuthenticate.Func? && getTokens.Func?
    }

    /** The static configuration one `fetch` sees, with what `isAuthenticated()`,
        `reAuthenticate()` and `getTokens().access` give on that call. */
    function StaticsFor(authenticated: bool, refreshed: bool, access: string): Statics
      reads this
    {
      Statics(defaultHeaders.GetOr([]), defaultCacheTTL, Auth(CallbacksSet(), authenticated, refreshed, access))
    }

    /** `setDefaultHeaders(h)`; `None` is a falsy argument. Accepted headers are stored as
        their JSON round trip; anything else leaves the defaults as they were. */
    method SetDefaultHeaders(h: Option<Headers>) returns (accepted: bool)
      modifies this
      ensures accepted <==> h.Some? && |h.value| > 0
      ensures accepted ==> defaultHeaders == Some(JsonHeaders(h.value))
      ensures !accepted ==> defaultHeaders == old(defaultHeaders)
      ensures defaultCacheTTL == old(defaultCacheTTL) && isAuthenticated == old(isAuthenticated)
      ensures reAuthenticate == old(reAuthenticate) && getTokens == old(getTokens)
    {
      if h.None? || |h.value| == 0 {
        return false;
      }
      defaultHeaders := Some(JsonHeaders(h.value));
      return true;
    }

    /** `setDefaultCacheTTL(ttl)`; `None` is NaN, which is refused. */
    method SetDefaultCacheTTL(ttl: Option<int>) returns (accepted: bool)
      modifies this
      ensures accepted <==> ttl.Some?
      ensures defaultCacheTTL == if accepted then ttl else old(defaultCacheTTL)
      ensures defaultHeaders == old(defaultHeaders) && isAuthenticated == old(isAuthenticated)
      ensures reAuthenticate == old(reAuthenticate) && getTokens == old(getTokens)
    {
      if ttl.None? {
        return false;
      }
      defaultCacheTTL := ttl;
      return true;
    }

    /** `setAuthCallbacks(isAuthenticated, reAuthenticate, getTokens)`: all three must be
        functions, or nothing changes. */
    method SetAuthCallbacks(a: Value, r: Value, g: Value) returns (accepted: bool)
      modifies this
      ensures accepted <==> a.Func? && r.Func? && g.Func?
      ensures accepted ==> isAuthenticated == a && reAuthenticate == r && getTokens == g && CallbacksSet()
      ensures !accepted ==> isAuthenticated == old(isAuthenticated) && reAuthenticate == old(reAuthenticate) && getTokens == old(getTokens)
      ensures defaultHeaders == old(defaultHeaders) && defaultCacheTTL == old(defaultCacheTTL)
    {
      if !(a.Func? && r.Func? && g.Func?) {
        return false;
      }
      isAuthenticated, reAuthenticate, getTokens := a, r, g;
      return true;
    }
  }

  /** Once `setDefaultHeaders(h)` has stored `h`, a request without a form-data body sends
      each default header the call does not set itself, with its stored value, exactly
      when that value is truthy. */
  lemma DefaultHeadersReachRequest(d: StateDefaults, h: Headers, authenticated: bool, refreshed: bool, access: string,
                                   host: Host, url: string, o: FetchOptions, n: string)
    requires d.defaultHeaders == Some(JsonHeaders(h)) && UniqueNames(h) && !o.bodyIsFormData
    requires n !in Names(RequestHeaders(o.headers, o.checkAuth, d.StaticsFor(authenticated, refreshed, access).auth))
    ensures var v := Lookup(JsonHeaders(h), n);
            Lookup(Outgoing(d.StaticsFor(authenticated, refreshed, access), host, url, o).headers, n) ==
              if v.Some? && Truthy(v.value) then v else Option.None
  {
    DefaultHeaderSent(d.StaticsFor(authenticated, refreshed, access), host, url, o, n);
  }
}
