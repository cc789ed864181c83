/** The JavaScript values that flow through the core: configuration objects, cached
    responses, payloads, callbacks. Numbers are integers; NaN appears only where a caller
    tests for it, and is modelled there by an `Option`. */
module JsValue {
  import opened Wrappers
  import opened Text

  /** `Obj` is a plain object (its own enumerable properties), `Dict` a JavaScript `Map`
      (what `parseHeaders` builds), `Func` a function told apart by an opaque id. */
  datatype Value =
    | Undefined
    | Null
    | Bool(b: bool)
    | Num(n: int)
    | Str(s: string)
    | Arr(items: seq<Value>)
    | Obj(fields: map<string, Value>)
    | Dict(entries: map<string, Value>)
    | Func(id: nat)

  /** JavaScript truthiness: `undefined`, `null`, `false`, `0` and `""` are falsy. */
  predicate Truthy(v: Value) {
    match v
    case Undefined => false
    case Null => false
    case Bool(b) => b
    case Num(n) => n != 0
    case Str(s) => s != ""
    case _ => true
  }

  /** `a || b`. */
  function Or(a: Value, b: Value): (r: Value)
    ensures Truthy(a) ==> r == a
    ensures !Truthy(a) ==> r == b
  {
    if Truthy(a) then a else b
  }

  /** `v === undefined || v === null`: reading a property of such a value throws. */
  predicate IsNullish(v: Value) {
    v.Undefined? || v.Null?
  }

  /** `typeof v === "object"` (which holds for `null`, arrays and maps too). */
  predicate IsObjectType(v: Value) {
    v.Null? || v.Arr? || v.Obj? || v.Dict?
  }

  /** `v[k]` for a value that is not nullish: own properties of objects, `length` and
      canonical indices of arrays and strings; every other value has no such property. */
  function Prop(v: Value, k: string): Value {
    match v
    case Obj(m) => if k in m then m[k] else Undefined
    case Arr(a) =>
      if k == "length" then Num(|a|)
      else (match CanonicalIndex(k)
            case Some(i) => if i < |a| then a[i] else Undefined
            case None => Undefined)
    case Str(s) =>
      if k == "length" then Num(|s|)
      else (match CanonicalIndex(k)
            case Some(i) => if i < |s| then Str([s[i]]) else Undefined
            case None => Undefined)
    case _ => Undefined
  }

  /** Indexing with a number reads the element at that position. */
  lemma PropAtIndex(a: seq<Value>, i: nat)
    requires i < |a|
    ensures Prop(Arr(a), NatToString(i)) == a[i]
  {
    CanonicalIndexOfNatToString(i);
    assert NatToString(i) != "length" by {
      assert IsDigits(NatToString(i));
      assert !IsDigit('l');
    }
  }

  /** A value `JSON.stringify` writes out inside an object or an array: `undefined` and
      functions are left out of objects and become `null` in arrays. */
  predicate Kept(v: Value) {
    !v.Undefined? && !v.Func?
  }

  /** `JSON.parse(JSON.stringify(v))`: what storing a value as text and reading it back
      gives. A `Map` comes back as an empty object; `undefined` and functions at the top
      level give `undefined`. */
  function Json(v: Value): Value {
    match v
    case Undefined => Undefined
    case Func(_) => Undefined
    case Dict(_) => Obj(map[])
    case Arr(a) => Arr(JsonItems(a))
    case Obj(m) => Obj(map k | k in m && Kept(m[k]) :: Json(m[k]))
    case _ => v
  }

  function JsonItems(a: seq<Value>): (r: seq<Value>)
    ensures |r| == |a|
  {
    if a == [] then [] else [if Kept(a[0]) then Json(a[0]) else Null] + JsonItems(a[1..])
  }

  /** A value made only of null, booleans, numbers, strings, arrays and plain objects. */
  predicate PlainJson(v: Value) {
    match v
    case Null => true
    case Bool(_) => true
    case Num(_) => true
    case Str(_) => true
    case Arr(a) => forall i :: 0 <= i < |a| ==> PlainJson(a[i])
    case Obj(m) => forall k :: k in m ==> PlainJson(m[k])
    case _ => false
  }

  /** Plain JSON survives the round trip through text unchanged. */
  lemma {:induction false} JsonOfPlain(v: Value)
    requires PlainJson(v)
    ensures Json(v) == v
    decreases v, 1
  {
    match v
    case Arr(a) => JsonItemsOfPlain(a);
    case Obj(m) =>
      forall k | k in m ensures Json(m[k]) == m[k] {
        JsonOfPlain(m[k]);
      }
      assert (map k | k in m && Kept(m[k]) :: Json(m[k])) == m;
    case _ =>
  }

  lemma {:induction false} JsonItemsOfPlain(a: seq<Value>)
    requires forall i :: 0 <= i < |a| ==> PlainJson(a[i])
    ensures JsonItems(a) == a
    decreases a, 0
  {
    if a != [] {
      JsonOfPlain(a[0]);
      JsonItemsOfPlain(a[1..]);
      assert a == [a[0]] + a[1..];
    }
  }

  /** Whatever survives the round trip is plain JSON. */
  lemma {:induction false} JsonIsPlain(v: Value)
    requires Kept(v)
    ensures PlainJson(Json(v))
    decreases v, 1
  {
    match v
    case Arr(a) => JsonItemsArePlain(a);
    case Obj(m) =>
      forall k | k in m && Kept(m[k]) ensures PlainJson(Json(m[k])) {
        JsonIsPlain(m[k]);
      }
    case _ =>
  }

  lemma {:induction false} JsonItemsArePlain(a: seq<Value>)
    ensures forall i :: 0 <= i < |a| ==> PlainJson(JsonItems(a)[i])
    decreases a, 0
  {
    if a != [] {
      if Kept(a[0]) {
        JsonIsPlain(a[0]);
      }
      JsonItemsArePlain(a[1..]);
      forall i | 0 <= i < |a| ensures PlainJson(JsonItems(a)[i]) {
        if i > 0 {
          assert JsonItems(a)[i] == JsonItems(a[1..])[i - 1];
        }
      }
    }
  }

  /** Storing a value that was read back from storage changes nothing. */
  lemma JsonIdempotent(v: Value)
    ensures Json(Json(v)) == Json(v)
  {
    if Kept(v) {
      JsonIsPlain(v);
      JsonOfPlain(Json(v));
    }
  }
}
