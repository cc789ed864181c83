/** The remote configuration loader `Config` (config/src/lib/index.ts): `init` fetches a
    configuration file through a `State` object with the context "Config", sending
    `if-modified-since` when it has a stored `last-modified`, and keeps the result under
    the configuration's name; `get` looks a dotted path up in a stored configuration. */
module AppConfig {
  import opened Wrappers
  import opened Text
  import opened JsValue
  import opened StateRules
  import opened StateHeaders
  import opened StateStore
  import opened StateFetch
  import opened StateObjects

  datatype ConfigError = InvalidConfigUrl | StateFailed(error: StateError)

  /** The static fields `Config.url`, `Config.defaultConfig` and `Config.defaultConfigName`
      (the empty name stands for the initial `null`: both are falsy and both are refused
      as a storage key). */
  datatype Fields = Fields(url: string, defaultConfig: Value, defaultConfigName: string)

  // ------------------------------------------------------------------ the name

  /** The file name of a configuration url without its extension: the text after the
      last '/', cut at its first '.'. */
  function FileStem(url: string): (r: string)
    ensures forall i :: 0 <= i < |r| ==> r[i] != '/' && r[i] != '.'
  {
    var file := url[LastIndexOf(url, '/') + 1..];
    var dot := IndexOf(file, '.');
    if dot >= 0 then file[..dot] else file
  }

  /** The configuration's name: the given one when it is a non-empty string, else the
      file stem of the url. */
  function ConfigName(name: Option<string>, configUrl: string): string {
    if name.Some? && name.value != "" then name.value else FileStem(configUrl)
  }

  /** The stem of `<dir>/<stem>.<ext>` is `stem`, whatever the directories. */
  lemma FileStemOf(dir: string, stem: string, ext: string)
    requires forall i :: 0 <= i < |stem| ==> stem[i] != '/' && stem[i] != '.'
    requires forall i :: 0 <= i < |ext| ==> ext[i] != '/'
    ensures FileStem(dir + "/" + stem + "." + ext) == stem
    ensures FileStem(dir + "/" + stem) == stem
  {
    var u := dir + "/" + stem + "." + ext;
    assert u[|dir|] == '/';
    var l := LastIndexOf(u, '/');
    assert l == |dir|;
    var file := u[l + 1..];
    assert file == stem + "." + ext;
    assert file[|stem|] == '.';
    assert IndexOf(file, '.') == |stem|;
    var v := dir + "/" + stem;
    assert v[|dir|] == '/';
    assert LastIndexOf(v, '/') == |dir|;
    assert v[|dir| + 1..] == stem;
  }

  /** A non-empty name is taken as given; without one, the name comes from the url. */
  lemma ConfigNameRules(name: Option<string>, dir: string, stem: string, ext: string)
    requires forall i :: 0 <= i < |stem| ==> stem[i] != '/' && stem[i] != '.'
    requires forall i :: 0 <= i < |ext| ==> ext[i] != '/'
    ensures name.Some? && name.value != "" ==> ConfigName(name, dir + "/" + stem + "." + ext) == name.value
    ensures !(name.Some? && name.value != "") ==> ConfigName(name, dir + "/" + stem + "." + ext) == stem
  {
    FileStemOf(dir, stem, ext);
  }

  // ------------------------------------------------------------------ init

  /** The storage key of the stored `last-modified`. */
  function ModifiedSinceKey(configName: string): string {
    configName + "-configModifiedSince"
  }

  /** The modified-since value `init` starts from: `null` with `force`, which also clears
      the stored one, otherwise the stored one. */
  function Prepare(b: Backend, s: Stores, context: string, configName: string, force: bool): (Result<Value, StateError>, Stores) {
    if force then
      var (w, s1) := SetSpec(b, s, context, Str(ModifiedSinceKey(configName)), Null, false, false);
      (if w.Err? then Err(w.error) else Ok(Null), s1)
    else GetSpec(b, s, context, Str(ModifiedSinceKey(configName)), Null, false)
  }

  /** The headers of the configuration request. */
  function IfModifiedSince(modifiedSince: Value): (h: Headers)
    ensures h != [] <==> Truthy(modifiedSince)
    ensures h != [] ==> h == [("if-modified-since", modifiedSince)]
  {
    if Truthy(modifiedSince) then [("if-modified-since", modifiedSince)] else []
  }

  /** The options of the configuration fetch: a NetworkFirst GET with those headers and
      the default (no-op) callback. */
  function InitOptions(modifiedSince: Value): FetchOptions {
    DefaultOptions(Func(0)).(headers := IfModifiedSince(modifiedSince), strategy := NetworkFirst)
  }

  /** The `last-modified` header of a response whose headers are a `Map`. */
  function LastModified(res: Value): Value {
    var h := Prop(res, "headers");
    if Truthy(res) && h.Dict? && "last-modified" in h.entries then h.entries["last-modified"] else Undefined
  }

  /** The end of `init` once `fetch` resolved with `res`: the new `last-modified` is kept;
      a 304 with a cached configuration is a success; a missing, failed or empty response
      is a failure; otherwise the result is stored under the configuration's name. */
  function Conclude(b: Backend, s: Stores, context: string, configName: string, res: Value): (Result<bool, StateError>, Stores) {
    var lm := LastModified(res);
    var (w, s1) := if Truthy(lm) then SetSpec(b, s, context, Str(ModifiedSinceKey(configName)), lm, false, false) else (Ok(()), s);
    if w.Err? then (Err(w.error), s1)
    else
      var (config, s2) := GetSpec(b, s1, context, Str(configName), Null, false);
      if config.Err? then (Err(config.error), s2)
      else if Truthy(res) && Truthy(config.value) && Prop(res, "status") == Num(304) then (Ok(true), s2)
      else if !Truthy(res) || !Truthy(Prop(res, "ok")) || !Truthy(Prop(res, "result")) then (Ok(false), s2)
      else
        var (w2, s3) := SetSpec(b, s2, context, Str(configName), Prop(res, "result"), false, false);
        (if w2.Err? then Err(w2.error) else Ok(true), s3)
  }

  /** `init` refuses an http(s) url that `isValidUrl` rejects, unless it is on localhost. */
  predicate UrlRejected(configUrl: string, isValidUrl: string -> bool) {
    StartsWith(configUrl, "http") && !isValidUrl(configUrl) && !StartsWith(configUrl, "http://localhost")
  }

  /** `Config.init({configUrl, force, name, defaultConfig})` on a `State` with back end `b`,
      stores `s` and the given context and base path, with the network reply `net`
      arriving at time `now`; `isValidUrl` is `Config.URL_REGEX`. */
  function InitSpec(b: Backend, s: Stores, f: Fields, context: string, basePath: string, statics: Statics, host: Host,
                    isValidUrl: string -> bool, configUrl: string, force: bool, name: Option<string>, defaultConfig: Value,
                    net: NetResponse, now: int): (Result<bool, ConfigError>, Stores, Fields) {
    if UrlRejected(configUrl, isValidUrl) then
      (Err(InvalidConfigUrl), s, f)
    else
      var configName := ConfigName(name, configUrl);
      var f1 := Fields(configUrl, defaultConfig, if f.defaultConfigName == "" then configName else f.defaultConfigName);
      var (r, s3) := Sync(b, s, context, basePath, statics, host, configUrl, configName, force, net, now);
      (r, s3, f1)
  }

  /** The storage part of `init`: the modified-since value, then the fetch. */
  function Sync(b: Backend, s: Stores, context: string, basePath: string, statics: Statics, host: Host,
                configUrl: string, configName: string, force: bool, net: NetResponse, now: int): (Result<bool, ConfigError>, Stores) {
    var (ms, s1) := Prepare(b, s, context, configName, force);
    if ms.Err? then (Err(StateFailed(ms.error)), s1)
    else FetchAndConclude(b, s1, context, basePath, statics, host, configUrl, configName, ms.value, net, now)
  }

  /** The configuration fetch with the modified-since value `ms`, and what follows it. */
  function FetchAndConclude(b: Backend, s: Stores, context: string, basePath: string, statics: Statics, host: Host,
                            configUrl: string, configName: string, ms: Value, net: NetResponse, now: int): (Result<bool, ConfigError>, Stores) {
    var (out, s2) := FetchSpec(b, s, context, basePath, statics, host, configUrl, InitOptions(ms), net, now);
    if out.result.Err? then (Err(StateFailed(out.result.error)), s2)
    else
      var (r, s3) := Conclude(b, s2, context, configName, out.result.value);
      (if r.Err? then Err(StateFailed(r.error)) else Ok(r.value), s3)
  }

  /** The first `init` that finds no default name sets it; later ones keep it. */
  lemma DefaultNameSetOnce(b: Backend, s: Stores, f: Fields, context: string, basePath: string, statics: Statics, host: Host,
                           isValidUrl: string -> bool, configUrl: string, force: bool, name: Option<string>, defaultConfig: Value,
                           net: NetResponse, now: int)
    ensures var f1 := InitSpec(b, s, f, context, basePath, statics, host, isValidUrl, configUrl, force, name, defaultConfig, net, now).2;
            f.defaultConfigName != "" ==> f1.defaultConfigName == f.defaultConfigName
    ensures var r := InitSpec(b, s, f, context, basePath, statics, host, isValidUrl, configUrl, force, name, defaultConfig, net, now);
            r.0 != Err(InvalidConfigUrl) ==>
              r.2.url == configUrl && r.2.defaultConfig == defaultConfig &&
              (f.defaultConfigName == "" ==> r.2.defaultConfigName == ConfigName(name, configUrl))
  {
    var r := InitSpec(b, s, f, context, basePath, statics, host, isValidUrl, configUrl, force, name, defaultConfig, net, now);
    if !UrlRejected(configUrl, isValidUrl) {
      var configName := ConfigName(name, configUrl);
      assert r.2 == Fields(configUrl, defaultConfig, if f.defaultConfigName == "" then configName else f.defaultConfigName);
    }
  }

  /** `if-modified-since` is sent exactly when `force` is off and a truthy value is
      stored; `force` leaves `null` stored in its place. */
  lemma {:induction false} ModifiedSinceRules(b: Backend, s: Stores, context: string, configName: string, force: bool)
    ensures var (ms, s1) := Prepare(b, s, context, configName, force);
            var stored := GetSpec(b, s, context, Str(ModifiedSinceKey(configName)), Null, false).0;
            (!force ==> ms == stored) &&
            (force ==> ms == Ok(Null) && GetSpec(b, s1, context, Str(ModifiedSinceKey(configName)), Null, false).0 == Ok(Null)) &&
            (ms.Ok? ==> (InitOptions(ms.value).headers != [] <==> !force && stored.Ok? && Truthy(stored.value)))
  {
    var key := ModifiedSinceKey(configName);
    assert key != "";
    if force {
      var s1 := Prepare(b, s, context, configName, force).1;
      var ck := ContextKey(context, key, false);
      if b == Mem {
        MemSetThenGet(s, context, key, Null, false, false, Null);
      } else {
        assert Json(Null) == Null;
        WebSetThenGet(b, s, context, key, Null, false, false, Null);
      }
    }
  }

  /** The configuration key and the modified-since key of one name are distinct storage
      keys. */
  lemma KeysDistinct(context: string, configName: string)
    ensures ContextKey(context, configName, false) != ContextKey(context, ModifiedSinceKey(configName), false)
  {
    assert |ContextKey(context, configName, false)| < |ContextKey(context, ModifiedSinceKey(configName), false)|;
  }

  /** A 304 with a cached configuration succeeds and leaves the cached configuration as
      it was. */
  lemma {:induction false} NotModifiedKeepsConfig(b: Backend, s: Stores, context: string, configName: string, res: Value)
    requires configName != ""
    requires Truthy(res) && Prop(res, "status") == Num(304)
    requires var c := GetSpec(b, s, context, Str(configName), Null, false).0; c.Ok? && Truthy(c.value)
    ensures var (r, s3) := Conclude(b, s, context, configName, res);
            r.Ok? ==>
              r == Ok(true) &&
              GetSpec(b, s3, context, Str(configName), Null, false).0 == GetSpec(b, s, context, Str(configName), Null, false).0
  {
    var lm := LastModified(res);
    var ck := ContextKey(context, configName, false);
    KeysDistinct(context, configName);
    if Truthy(lm) {
      SetTouchesOnlyItsKey(b, s, context, ModifiedSinceKey(configName), lm, false, false, ck);
    }
    var s1 := if Truthy(lm) then SetSpec(b, s, context, Str(ModifiedSinceKey(configName)), lm, false, false).1 else s;
    assert GetSpec(b, s1, context, Str(configName), Null, false).0 == GetSpec(b, s, context, Str(configName), Null, false).0;
    var s2 := GetSpec(b, s1, context, Str(configName), Null, false).1;
    assert GetSpec(b, s2, context, Str(configName), Null, false).0 == GetSpec(b, s1, context, Str(configName), Null, false).0;
  }

  /** A missing, failed or result-less response (that is not a 304 served from a cached
      configuration) gives false; a good one is stored and reads back. */
  lemma {:induction false} ConcludeOutcomes(b: Backend, s: Stores, context: string, configName: string, res: Value)
    requires configName != ""
    ensures var (r, s3) := Conclude(b, s, context, configName, res);
            var bad := !Truthy(res) || !Truthy(Prop(res, "ok")) || !Truthy(Prop(res, "result"));
            (r.Ok? && !Truthy(res) ==> r == Ok(false)) &&
            (r.Ok? && Prop(res, "status") != Num(304) ==> (r.value <==> !bad)) &&
            (r == Ok(true) && Prop(res, "status") != Num(304) && b == Mem ==>
               GetSpec(b, s3, context, Str(configName), Null, false).0 == Ok(Prop(res, "result"))) &&
            (r == Ok(true) && Prop(res, "status") != Num(304) && b != Mem ==>
               GetSpec(b, s3, context, Str(configName), Null, false).0 == ParseItem(Json(Prop(res, "result"))))
  {
    var lm := LastModified(res);
    var s1 := if Truthy(lm) then SetSpec(b, s, context, Str(ModifiedSinceKey(configName)), lm, false, false).1 else s;
    var s2 := GetSpec(b, s1, context, Str(configName), Null, false).1;
    var result := Prop(res, "result");
    if Truthy(res) && Truthy(Prop(res, "ok")) && Truthy(result) {
      if b == Mem {
        MemSetThenGet(s2, context, configName, result, false, false, Null);
      } else if SetSpec(b, s2, context, Str(configName), result, false, false).0.Ok? {
        assert !result.Undefined?;
        WebSetThenGet(b, s2, context, configName, result, false, false, Null);
      }
    }
  }

  // ------------------------------------------------------------------ get

  /** The dotted-path walk of `Config.get`: each step reads a property, and a falsy value
      ends the walk. */
  function Walk(v: Value, keys: seq<string>): Value
    decreases |keys|
  {
    if keys == [] || !Truthy(v) then v else Walk(Prop(v, keys[0]), keys[1..])
  }

  /** Walking a path is walking its first part, then the rest. */
  lemma {:induction false} WalkAppend(v: Value, a: seq<string>, b: seq<string>)
    ensures Walk(v, a + b) == Walk(Walk(v, a), b)
    decreases |a|
  {
    if a != [] && Truthy(v) {
      assert (a + b)[1..] == a[1..] + b;
      WalkAppend(Prop(v, a[0]), a[1..], b);
    } else if a != [] {
      assert Walk(v, a + b) == v;
      WalkFalsy(v, b);
    } else {
      assert a + b == b;
    }
  }

  /** A falsy value is where every walk from it ends. */
  lemma WalkFalsy(v: Value, keys: seq<string>)
    requires !Truthy(v)
    ensures Walk(v, keys) == v
  {
  }

  /** The walk reads nested objects: `a.b` of `{a: {b: x}}` is `x`. */
  lemma {:induction false} WalkNested(m: map<string, Value>, k: string, rest: seq<string>)
    requires k in m
    ensures Walk(Obj(m), [k] + rest) == Walk(m[k], rest)
  {
    assert ([k] + rest)[1..] == rest;
  }

  /** `Config.get(key, name)`: `null` for a key that is not a non-empty string; else the
      walk of the key's dot-separated parts over the stored configuration of `name` (or
      of the default name), or over the default configuration when none is stored. */
  function GetValue(b: Backend, s: Stores, context: string, f: Fields, key: Value, name: Value): (Result<Value, StateError>, Stores) {
    if !key.Str? || key.s == "" then (Ok(Null), s)
    else
      var (config, s1) := GetSpec(b, s, context, Or(name, Str(f.defaultConfigName)), Null, false);
      if config.Err? then (Err(config.error), s1)
      else (Ok(Walk(Or(config.value, f.defaultConfig), Split(key.s, "."))), s1)
  }

  /** A dotted key made of plain names walks those names in order. */
  lemma {:induction false} GetWalksJoinedKeys(b: Backend, s: Stores, context: string, f: Fields, parts: seq<string>, name: Value)
    requires |parts| >= 1 && Join(parts, ".") != ""
    requires forall k :: 0 <= k < |parts| ==> forall i :: 0 <= i < |parts[k]| ==> parts[k][i] != '.'
    ensures var config := GetSpec(b, s, context, Or(name, Str(f.defaultConfigName)), Null, false).0;
            config.Ok? ==>
              GetValue(b, s, context, f, Str(Join(parts, ".")), name).0 == Ok(Walk(Or(config.value, f.defaultConfig), parts))
  {
    SplitJoin(parts, '.');
  }

  /** Without a stored configuration, the default configuration is walked. */
  lemma FallsBackToDefaultConfig(b: Backend, s: Stores, context: string, f: Fields, key: string, name: Value)
    requires key != ""
    requires GetSpec(b, s, context, Or(name, Str(f.defaultConfigName)), Null, false).0 == Ok(Null)
    ensures GetValue(b, s, context, f, Str(key), name).0 == Ok(Walk(f.defaultConfig, Split(key, ".")))
  {
  }

  /** The static side of `Config`, over its `State` object. */
  class Config {
    var url: string
    var defaultConfig: Value
    var defaultConfigName: string
    const state: State

    function FieldsOf(): Fields
      reads this
    {
      Fields(url, defaultConfig, defaultConfigName)
    }

    /** The initial fields: no url, an empty default configuration and no default name. */
    constructor (state: State)
      ensures FieldsOf() == Fields("", Obj(map[]), "") && this.state == state
    {
      url := "";
      defaultConfig := Obj(map[]);
      defaultConfigName := "";
      this.state := state;
    }

    /** `Config.init({configUrl, force, name, defaultConfig})`. */
    method Init(statics: Statics, host: Host, isValidUrl: string -> bool, configUrl: string, force: bool, name: Option<string>,
                defaultConfig: Value, net: NetResponse, now: int) returns (r: Result<bool, ConfigError>)
      requires state.Valid()
      modifies this, state, state.sessionStorage, state.localStorage
      ensures (r, state.StoresOf(), FieldsOf()) ==
              InitSpec(state.backend, old(state.StoresOf()), old(FieldsOf()), state.context, state.basePath, statics, host,
                       isValidUrl, configUrl, force, name, defaultConfig, net, now)
    {
      if UrlRejected(configUrl, isValidUrl) {
        return Err(InvalidConfigUrl);
      }
      var configName := ConfigName(name, configUrl);
      if defaultConfigName == "" {
        defaultConfigName := configName;
      }
      url := configUrl;
      this.defaultConfig := defaultConfig;
      r := SyncState(statics, host, configUrl, configName, force, net, now);
    }

    /** The storage part of `init`. */
    method SyncState(statics: Statics, host: Host, configUrl: string, configName: string, force: bool, net: NetResponse, now: int)
      returns (r: Result<bool, ConfigError>)
      requires state.Valid()
      modifies state, state.sessionStorage, state.localStorage
      ensures (r, state.StoresOf()) ==
              Sync(state.backend, old(state.StoresOf()), state.context, state.basePath, statics, host, configUrl, configName, force, net, now)
    {
      var ms := PrepareState(configName, force);
      if ms.Err? {
        return Err(StateFailed(ms.error));
      }
      r := FetchState(statics, host, configUrl, configName, ms.value, net, now);
    }

    /** The configuration fetch of `init` and what follows it. */
    method FetchState(statics: Statics, host: Host, configUrl: string, configName: string, ms: Value, net: NetResponse, now: int)
      returns (r: Result<bool, ConfigError>)
      requires state.Valid()
      modifies state, state.sessionStorage, state.localStorage
      ensures (r, state.StoresOf()) ==
              FetchAndConclude(state.backend, old(state.StoresOf()), state.context, state.basePath, statics, host, configUrl, configName, ms, net, now)
    {
      var out := state.Fetch(statics, host, configUrl, InitOptions(ms), net, now);
      if out.result.Err? {
        return Err(StateFailed(out.result.error));
      }
      var done := ConcludeState(configName, out.result.value);
      r := if done.Err? then Err(StateFailed(done.error)) else Ok(done.value);
    }

    /** The modified-since part of `init`. */
    method PrepareState(configName: string, force: bool) returns (ms: Result<Value, StateError>)
      requires state.Valid()
      modifies state, state.sessionStorage, state.localStorage
      ensures (ms, state.StoresOf()) == Prepare(state.backend, old(state.StoresOf()), state.context, configName, force)
    {
      var msKey := Str(ModifiedSinceKey(configName));
      if force {
        var w := state.Set(msKey, Null, false, false);
        ms := if w.Err? then Err(w.error) else Ok(Null);
      } else {
        ms := state.Get(msKey, Null, false);
      }
    }

    /** The part of `init` after `fetch` resolved with `res`. */
    method ConcludeState(configName: string, res: Value) returns (r: Result<bool, StateError>)
      requires state.Valid()
      modifies state, state.sessionStorage, state.localStorage
      ensures (r, state.StoresOf()) == Conclude(state.backend, old(state.StoresOf()), state.context, configName, res)
    {
      var lm := LastModified(res);
      if Truthy(lm) {
        var w := state.Set(Str(ModifiedSinceKey(configName)), lm, false, false);
        if w.Err? {
          return Err(w.error);
        }
      }
      var config := state.Get(Str(configName), Null, false);
      if config.Err? {
        return Err(config.error);
      }
      if Truthy(res) && Truthy(config.value) && Prop(res, "status") == Num(304) {
        return Ok(true);
      }
      if !Truthy(res) || !Truthy(Prop(res, "ok")) || !Truthy(Prop(res, "result")) {
        return Ok(false);
      }
      var w2 := state.Set(Str(configName), Prop(res, "result"), false, false);
      r := if w2.Err? then Err(w2.error) else Ok(true);
    }

    /** `Config.get(key, name)`. */
    method Get(key: Value, name: Value) returns (r: Result<Value, StateError>)
      requires state.Valid()
      modifies state.sessionStorage
      ensures (r, state.StoresOf()) == GetValue(state.backend, old(state.StoresOf()), state.context, FieldsOf(), key, name)
    {
      if !key.Str? || key.s == "" {
        return Ok(Null);
      }
      var config := state.Get(Or(name, Str(defaultConfigName)), Null, false);
      if config.Err? {
        return Err(config.error);
      }
      var keys := Split(key.s, ".");
      var value := Or(config.value, defaultConfig);
      ghost var start := value;
      var i := 0;
      while i < |keys|
        invariant 0 <= i <= |keys|
        invariant Walk(value, keys[i..]) == Walk(start, keys)
      {
        if !Truthy(value) {
          break;
        }
        assert keys[i..][1..] == keys[i + 1..];
        value := Prop(value, keys[i]);
        i := i + 1;
      }
      return Ok(value);
    }
  }
}
