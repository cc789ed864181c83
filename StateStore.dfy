/** What the storage back ends of `State` do with their stores (state/state/src/lib/state.ts):
    `WebState`, which keeps session and persisted values apart; `UNSAFE_WebState`, which
    writes through the session; `MemState`, a map in memory. A Web Storage item is text;
    the model keeps the value `JSON.parse` reads back from that text, with `Undefined`
    standing for the text "undefined" that storing a function leaves behind. */
module StateStore {
  import opened Wrappers
  import opened JsValue
  import opened StateRules

  datatype Backend = Web | UnsafeWeb | Mem

  /** The session and local Web Storage areas, and the memory map of a `MemState`. */
  datatype Stores = Stores(session: map<string, Value>, local: map<string, Value>, mem: map<string, Value>)

  /** `JSON.parse(item)`: the text "undefined" is not JSON. */
  function ParseItem(item: Value): (r: Result<Value, StateError>)
    ensures r.Ok? <==> !item.Undefined?
    ensures r.Ok? ==> r.value == item
  {
    if item.Undefined? then Err(ParseError) else Ok(item)
  }

  const WarningKeyName: string := "unsafe-state-deprecation-warning"

  /** `get(key, fallback, shared)` of each back end, and the stores afterwards (only
      `UNSAFE_WebState` changes them, copying a persisted value into the session). */
  function GetSpec(b: Backend, s: Stores, context: string, key: Value, fallback: Value, shared: bool): (Result<Value, StateError>, Stores) {
    if !IsValidKey(key) then (Ok(fallback), s)
    else
      var ck := ContextKey(context, key.s, shared);
      match b
      case Web =>
        if ck in s.session then (ParseItem(s.session[ck]), s)
        else if ck in s.local then (ParseItem(s.local[ck]), s)
        else (Ok(fallback), s)
      case UnsafeWeb =>
        if ck in s.session then (ParseItem(s.session[ck]), s)
        else if ck in s.local then (ParseItem(s.local[ck]), s.(session := s.session[ck := s.local[ck]]))
        else (Ok(fallback), s)
      case Mem =>
        (Ok(if ck in s.mem && Truthy(s.mem[ck]) then s.mem[ck] else fallback), s)
  }

  /** `set(key, value, shouldPersist, shared)` of each back end: the outcome and the new
      stores. What is stored in Web Storage is the text of `JSON.stringify(value)`. */
  function SetSpec(b: Backend, s: Stores, context: string, key: Value, value: Value, persist: bool, shared: bool): (Result<(), StateError>, Stores) {
    match b
    case Web =>
      if !IsValidKey(key) || value.Undefined? then (Ok(()), s)
      else
        var ck := ContextKey(context, key.s, shared);
        if !persist then (Ok(()), s.(session := s.session[ck := Json(value)]))
        else if ck in s.session then (Err(MixedPersistence(ck)), s)
        else (Ok(()), s.(local := s.local[ck := Json(value)]))
    case UnsafeWeb =>
      if !IsValidKey(key) || value.Undefined? then (Ok(()), s)
      else
        var ck := ContextKey(context, key.s, shared);
        var session := s.session[ck := Json(value)];
        if !persist then (Ok(()), s.(session := session))
        else
          var wk := ContextKey(context, WarningKeyName, false);
          var session' := if wk in session then session else session[wk := Bool(true)];
          (Ok(()), Stores(session', s.local[ck := Json(value)], s.mem))
    case Mem =>
      if !IsValidKey(key) then (Ok(()), s)
      else (Ok(()), s.(mem := s.mem[ContextKey(context, key.s, shared) := value]))
  }

  /** A value written by `WebState` or `UNSAFE_WebState` reads back as its JSON round
      trip; a function reads back as a parse error. */
  lemma WebSetThenGet(b: Backend, s: Stores, context: string, key: string, value: Value, persist: bool, shared: bool, fallback: Value)
    requires b != Mem && key != "" && !value.Undefined?
    requires SetSpec(b, s, context, Str(key), value, persist, shared).0.Ok?
    ensures GetSpec(b, SetSpec(b, s, context, Str(key), value, persist, shared).1, context, Str(key), fallback, shared).0
            == ParseItem(Json(value))
  {
  }

  /** `MemState` gives back the value itself, unless it is falsy. */
  lemma MemSetThenGet(s: Stores, context: string, key: string, value: Value, persist: bool, shared: bool, fallback: Value)
    requires key != ""
    ensures GetSpec(Mem, SetSpec(Mem, s, context, Str(key), value, persist, shared).1, context, Str(key), fallback, shared).0
            == Ok(if Truthy(value) then value else fallback)
  {
  }

  /** `WebState` refuses a persisted write of a key whose value lives in the session, and
      then changes nothing. */
  lemma WebMixedPersistence(s: Stores, context: string, key: string, v1: Value, v2: Value, shared: bool)
    requires key != "" && !v1.Undefined? && !v2.Undefined?
    ensures var s1 := SetSpec(Web, s, context, Str(key), v1, false, shared).1;
            SetSpec(Web, s1, context, Str(key), v2, true, shared) ==
              (Err(MixedPersistence(ContextKey(context, key, shared))), s1)
  {
  }

  /** `UNSAFE_WebState` never refuses a write: a persisted value is written to both areas. */
  lemma UnsafeWritesThrough(s: Stores, context: string, key: string, value: Value, persist: bool, shared: bool)
    requires key != "" && !value.Undefined?
    ensures var r := SetSpec(UnsafeWeb, s, context, Str(key), value, persist, shared);
            var ck := ContextKey(context, key, shared);
            r.0.Ok? && ck in r.1.session && r.1.session[ck] == Json(value) &&
            (persist ==> ck in r.1.local && r.1.local[ck] == Json(value))
  {
  }

  /** A persisted value read through `UNSAFE_WebState` is copied into the session, so
      the next read finds it there. */
  lemma UnsafeGetCopiesIntoSession(s: Stores, context: string, key: string, fallback: Value, shared: bool)
    requires key != ""
    requires var ck := ContextKey(context, key, shared); ck !in s.session && ck in s.local
    ensures var ck := ContextKey(context, key, shared);
            var r := GetSpec(UnsafeWeb, s, context, Str(key), fallback, shared);
            ck in r.1.session && r.1.session[ck] == s.local[ck] &&
            GetSpec(UnsafeWeb, r.1, context, Str(key), fallback, shared).0 == r.0
  {
  }

  /** The deprecation flag is raised by the first persisted write of a context and then
      stays: it is set exactly when a persisted write finds it absent. */
  lemma UnsafeWarningFlag(s: Stores, context: string, key: string, value: Value, shared: bool)
    requires key != "" && !value.Undefined?
    requires ContextKey(context, key, shared) != ContextKey(context, WarningKeyName, false)
    ensures var wk := ContextKey(context, WarningKeyName, false);
            var s1 := SetSpec(UnsafeWeb, s, context, Str(key), value, true, shared).1;
            wk in s1.session &&
            (wk !in s.session ==> s1.session[wk] == Bool(true)) &&
            (wk in s.session ==> s1.session[wk] == s.session[wk])
  {
  }

  /** An invalid key is never written and always reads as the fallback. */
  lemma InvalidKeyIsInert(b: Backend, s: Stores, context: string, key: Value, value: Value, persist: bool, shared: bool, fallback: Value)
    requires !IsValidKey(key)
    ensures SetSpec(b, s, context, key, value, persist, shared) == (Ok(()), s)
    ensures GetSpec(b, s, context, key, fallback, shared) == (Ok(fallback), s)
  {
  }

  /** What a back end holds under a context key, before parsing. */
  function Held(b: Backend, s: Stores, ck: string): (Option<Value>, Option<Value>) {
    match b
    case Mem => (if ck in s.mem then Some(s.mem[ck]) else Option.None, Option.None)
    case _ => (if ck in s.session then Some(s.session[ck]) else Option.None,
               if ck in s.local then Some(s.local[ck]) else Option.None)
  }

  /** A write touches only its own context key (and, for `UNSAFE_WebState`, the
      deprecation flag of its context, when it persists). */
  lemma SetTouchesOnlyItsKey(b: Backend, s: Stores, context: string, key: string, value: Value, persist: bool, shared: bool, other: string)
    requires other != ContextKey(context, key, shared)
    requires b == UnsafeWeb && persist ==> other != ContextKey(context, WarningKeyName, false)
    ensures Held(b, SetSpec(b, s, context, Str(key), value, persist, shared).1, other) == Held(b, s, other)
  {
  }

  /** What a back end keeps of a value written to it: Web Storage keeps the JSON text of
      the value, `MemState` the value itself. */
  function Stored(b: Backend, v: Value): Value {
    if b == Mem then v else Json(v)
  }

  /** A read of the context key `ck` changes no store: only `UNSAFE_WebState` changes
      them, when the value is persisted but not yet in the session. */
  predicate Settled(b: Backend, s: Stores, ck: string) {
    b != UnsafeWeb || ck in s.session || ck !in s.local
  }

  /** A write of an object on any back end succeeds (for `WebState`, unless it persists a
      key the session holds) and reads back as what the back end keeps of it, by a read
      that changes no store. */
  lemma SetThenGet(b: Backend, s: Stores, context: string, key: string, value: Value, persist: bool, shared: bool, fallback: Value)
    requires key != "" && value.Obj?
    requires b == Web && persist ==> ContextKey(context, key, shared) !in s.session
    ensures var w := SetSpec(b, s, context, Str(key), value, persist, shared);
            w.0.Ok? && GetSpec(b, w.1, context, Str(key), fallback, shared) == (Ok(Stored(b, value)), w.1)
  {
  }

  /** The deprecation flag never lands on the shared `user` key. */
  lemma UserKeyIsNotWarningKey(context: string)
    ensures ContextKey(context, "user", true) != ContextKey(context, WarningKeyName, false)
  {
    assert |ContextKey(context, "user", true)| < |ContextKey(context, WarningKeyName, false)|;
  }

  /** A read of a settled key changes no store. */
  lemma GetSettled(b: Backend, s: Stores, context: string, key: string, fallback: Value, shared: bool)
    requires Settled(b, s, ContextKey(context, key, shared))
    ensures GetSpec(b, s, context, Str(key), fallback, shared).1 == s
  {
  }

  /** A read settles its own key and keeps every settled key settled. */
  lemma GetSettles(b: Backend, s: Stores, context: string, key: string, fallback: Value, shared: bool, other: string)
    ensures key != "" ==> Settled(b, GetSpec(b, s, context, Str(key), fallback, shared).1, ContextKey(context, key, shared))
    ensures Settled(b, s, other) ==> Settled(b, GetSpec(b, s, context, Str(key), fallback, shared).1, other)
  {
  }

  /** What a read gives, and whether it changes the stores, depends only on what the back
      end holds under the key. */
  lemma GetByHeld(b: Backend, s: Stores, t: Stores, context: string, key: string, fallback: Value, shared: bool)
    requires Held(b, s, ContextKey(context, key, shared)) == Held(b, t, ContextKey(context, key, shared))
    ensures GetSpec(b, s, context, Str(key), fallback, shared).0 == GetSpec(b, t, context, Str(key), fallback, shared).0
    ensures Settled(b, s, ContextKey(context, key, shared)) <==> Settled(b, t, ContextKey(context, key, shared))
  {
  }

  /** Two `State` objects with distinct non-empty contexts that share the window's
      storage do not see each other's unshared values. */
  lemma ContextsAreIsolated(b: Backend, s: Stores, c1: string, c2: string, key: string, value: Value, persist: bool, fallback: Value)
    requires c1 != "" && c2 != "" && c1 != c2 && key != ""
    requires b == UnsafeWeb && persist ==> ContextKey(c2, key, false) != ContextKey(c1, WarningKeyName, false)
    ensures GetSpec(b, SetSpec(b, s, c1, Str(key), value, persist, false).1, c2, Str(key), fallback, false).0
            == GetSpec(b, s, c2, Str(key), fallback, false).0
  {
    ContextKeysSeparateContexts(c1, c2, key);
    SetTouchesOnlyItsKey(b, s, c1, key, value, persist, false, ContextKey(c2, key, false));
  }

  /** A read never changes what any later read gives (the copy made by
      `UNSAFE_WebState` holds the value that was read). */
  lemma GetKeepsReads(b: Backend, s: Stores, context: string, k1: Value, f1: Value, sh1: bool, k2: Value, f2: Value, sh2: bool)
    ensures GetSpec(b, GetSpec(b, s, context, k1, f1, sh1).1, context, k2, f2, sh2).0 == GetSpec(b, s, context, k2, f2, sh2).0
  {
  }
}
