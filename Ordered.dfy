/** Insertion-ordered dictionaries: the own properties of a JavaScript object as
    `Object.entries` lists them, and the entries of a JavaScript `Map`. */
module Ordered {
  import opened Wrappers
  import opened JsValue

  /** Names in insertion order, with their values. */
  type Entries = seq<(string, Value)>


  function Names(h: Entries): set<string> {
    set i | 0 <= i < |h| :: h[i].0
  }

  predicate UniqueNames(h: Entries) {
    forall i, j :: 0 <= i < j < |h| ==> h[i].0 != h[j].0
  }

  lemma NamesCons(h: Entries)
    requires h != []
    ensures Names(h) == {h[0].0} + Names(h[1..])
  {
    assert forall i :: 1 <= i < |h| ==> h[i] == h[1..][i - 1];
  }

  /** `h[name]` as an own property: `None` when `h` has no such key. */
  function Lookup(h: Entries, name: string): (r: Option<Value>)
    ensures r.None? <==> name !in Names(h)
  {
    if h == [] then Option.None
    else if h[0].0 == name then Some(h[0].1)
    else NamesCons(h); Lookup(h[1..], name)
  }

  /** A value looked up is the value of an entry with that name. */
  lemma {:induction false} LookupFinds(h: Entries, name: string)
    requires Lookup(h, name).Some?
    ensures (name, Lookup(h, name).value) in h
    decreases |h|
  {
    if h[0].0 != name {
      LookupFinds(h[1..], name);
      assert forall e :: e in h[1..] ==> e in h;
    }
  }

  /** `h[name] = v`: an existing name keeps its place and takes the new value, a new
      name goes last. */
  function Put(h: Entries, name: string, v: Value): (r: Entries)
    ensures Lookup(r, name) == Some(v)
    ensures forall n :: n != name ==> Lookup(r, n) == Lookup(h, n)
    ensures Names(r) == Names(h) + {name}
    ensures UniqueNames(h) ==> UniqueNames(r)
  {
    if h == [] then [(name, v)]
    else
      var r := if h[0].0 == name then [(name, v)] + h[1..] else [h[0]] + Put(h[1..], name, v);
      NamesCons(h);
      NamesCons(r);
      assert r[1..] == if h[0].0 == name then h[1..] else Put(h[1..], name, v);
      assert UniqueNames(h) ==> h[0].0 !in Names(h[1..]);
      r
  }

  /** `delete h[name]` (or `map.delete(name)`): the entry goes, the others keep their order. */
  function Delete(h: Entries, name: string): (r: Entries)
    ensures Lookup(r, name).None?
    ensures forall n :: n != name ==> Lookup(r, n) == Lookup(h, n)
    ensures Names(r) == Names(h) - {name}
    ensures UniqueNames(h) ==> UniqueNames(r)
    ensures forall e :: e in r ==> e in h
    decreases |h|
  {
    if h == [] then []
    else
      var rest := Delete(h[1..], name);
      NamesCons(h);
      if h[0].0 == name then rest
      else
        var r := [h[0]] + rest;
        NamesCons(r);
        assert r[1..] == rest;
        assert UniqueNames(h) ==> h[0].0 !in Names(h[1..]);
        r
  }

  /** Deleting a name the entries do not hold changes nothing. */
  lemma {:induction false} DeleteAbsent(h: Entries, name: string)
    requires name !in Names(h)
    ensures Delete(h, name) == h
    decreases |h|
  {
    if h != [] {
      NamesCons(h);
      DeleteAbsent(h[1..], name);
      assert h == [h[0]] + h[1..];
    }
  }

  /** The object with these own properties (an unordered view). */
  function ToMap(h: Entries): (m: map<string, Value>)
    ensures forall n :: n in m <==> n in Names(h)
    ensures forall n :: n in m ==> Lookup(h, n) == Some(m[n])
    decreases |h|
  {
    if h == [] then map[]
    else NamesCons(h); ToMap(h[1..])[h[0].0 := h[0].1]
  }
}
