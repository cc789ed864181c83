/** The publish/subscribe registry `Events` (events/events/src/events.ts): for each event
    name, a `Map` from subscriber context to callback, in subscription order. */
module EventBus {
  import opened Wrappers
  import opened JsValue
  import opened Ordered

  /** What a successful `subscribe` returns (its `remove` closure is `Events.remove` of
      the same pair). */
  datatype Subscription = Subscription(event: string, context: string, callback: Value)

  /** The callback `context` has for `event`, `Undefined` when there is none. */
  function SubscriptionOf(subs: map<string, Entries>, event: string, context: string): Value {
    if event in subs then Lookup(subs[event], context).GetOr(Undefined) else Undefined
  }

  /** Whether `subscribe(event, context, callback)` adds the callback: the three
      arguments have the right types and the pair has no (truthy) callback yet. */
  predicate SubscribeAccepts(subs: map<string, Entries>, event: Value, context: Value, callback: Value) {
    event.Str? && context.Str? && callback.Func? && !Truthy(SubscriptionOf(subs, event.s, context.s))
  }

  /** The registry after a `subscribe` that adds the pair: `callback` set for `context`
      in the map of `event`, which is created empty when missing. */
  function Subscribed(subs: map<string, Entries>, event: string, context: string, callback: Value): map<string, Entries> {
    subs[event := Put(if event in subs then subs[event] else [], context, callback)]
  }

  /** `subscribe` sets the callback of its own pair and touches no other pair. */
  lemma SubscribeIsLocal(subs: map<string, Entries>, event: string, context: string, callback: Value, e: string, c: string)
    ensures SubscriptionOf(Subscribed(subs, event, context, callback), e, c) ==
              if e == event && c == context then callback else SubscriptionOf(subs, e, c)
  {
  }

  /** Adding a function callback keeps the registry well formed. */
  lemma SubscribedWellFormed(subs: map<string, Entries>, event: string, context: string, callback: Value)
    requires WellFormed(subs) && callback.Func?
    ensures WellFormed(Subscribed(subs, event, context, callback))
  {
    var inner := if event in subs then subs[event] else [];
    PutKeepsFunctions(inner, context, callback);
  }

  /** The registry after `remove(event, context)` with string arguments. */
  function Removed(subs: map<string, Entries>, event: string, context: string): map<string, Entries> {
    if event in subs then subs[event := Delete(subs[event], context)] else subs
  }

  /** The callbacks `emit` calls, in order, with the argument each receives: every
      callback up to the first falsy one. */
  function EmitCalls(entries: Entries, event: string, params: Value): (calls: seq<(Value, Value)>)
    ensures |calls| <= |entries|
    decreases |entries|
  {
    if entries == [] || !Truthy(entries[0].1) then []
    else [(entries[0].1, EventArg(event, params))] + EmitCalls(entries[1..], event, params)
  }

  /** `{name: event, data: params}`. */
  function EventArg(event: string, params: Value): Value {
    Obj(map["name" := Str(event), "data" := params])
  }

  /** Every callback of the registry is a function and contexts are listed once. */
  ghost predicate WellFormed(subs: map<string, Entries>) {
    forall e :: e in subs ==> UniqueNames(subs[e]) && forall i :: 0 <= i < |subs[e]| ==> subs[e][i].1.Func?
  }

  /** With only function callbacks, `emit` calls every subscriber, in subscription order. */
  lemma {:induction false} EmitReachesEverySubscriber(entries: Entries, event: string, params: Value)
    requires forall i :: 0 <= i < |entries| ==> entries[i].1.Func?
    ensures |EmitCalls(entries, event, params)| == |entries|
    ensures forall i :: 0 <= i < |entries| ==> EmitCalls(entries, event, params)[i] == (entries[i].1, EventArg(event, params))
    decreases |entries|
  {
    if entries != [] {
      EmitReachesEverySubscriber(entries[1..], event, params);
      forall i | 1 <= i < |entries|
        ensures EmitCalls(entries, event, params)[i] == (entries[i].1, EventArg(event, params))
      {
        assert entries[1..][i - 1] == entries[i];
      }
    }
  }

  /** A falsy callback stops the loop: nothing after it is called. */
  lemma {:induction false} EmitStopsAtFalsy(entries: Entries, event: string, params: Value, k: nat)
    requires k < |entries| && !Truthy(entries[k].1)
    ensures |EmitCalls(entries, event, params)| <= k
    decreases k
  {
    if k > 0 && entries != [] && Truthy(entries[0].1) {
      assert entries[1..][k - 1] == entries[k];
      EmitStopsAtFalsy(entries[1..], event, params, k - 1);
    }
  }

  /** After `remove`, the same context can subscribe again. */
  lemma ResubscribeAfterRemove(subs: map<string, Entries>, event: string, context: string, callback: Value)
    requires callback.Func?
    ensures SubscribeAccepts(Removed(subs, event, context), Str(event), Str(context), callback)
  {
  }

  /** `remove` touches no other pair. */
  lemma RemoveIsLocal(subs: map<string, Entries>, event: string, context: string, e: string, c: string)
    requires e != event || c != context
    ensures SubscriptionOf(Removed(subs, event, context), e, c) == SubscriptionOf(subs, e, c)
  {
  }

  /** `Events.CoreEventSubscriptions` and the three static methods. */
  class Events {
    var subscriptions: map<string, Entries>

    constructor ()
      ensures subscriptions == map[]
    {
      subscriptions := map[];
    }

    /** `subscribe(event, context, callback)`: returns the subscription when it was added,
        `None` (`undefined`) when the arguments are invalid or the pair is taken. */
    method Subscribe(event: Value, context: Value, callback: Value) returns (r: Option<Subscription>)
      modifies this
      ensures r.Some? <==> SubscribeAccepts(old(subscriptions), event, context, callback)
      ensures r.Some? ==> r.value == Subscription(event.s, context.s, callback)
      ensures r.Some? ==> subscriptions == Subscribed(old(subscriptions), event.s, context.s, callback)
      ensures r.None? ==> subscriptions == old(subscriptions)
      ensures WellFormed(old(subscriptions)) ==> WellFormed(subscriptions)
    {
      if !(event.Str? && context.Str? && callback.Func?) {
        return Option.None;
      }
      var inner := if event.s in subscriptions then subscriptions[event.s] else [];
      var existing := Lookup(inner, context.s);
      if existing.Some? && Truthy(existing.value) {
        return Option.None;
      }
      if WellFormed(subscriptions) {
        SubscribedWellFormed(subscriptions, event.s, context.s, callback);
      }
      subscriptions := Subscribed(subscriptions, event.s, context.s, callback);
      return Some(Subscription(event.s, context.s, callback));
    }

    /** `remove(event, context)`: non-string arguments and unknown events change nothing. */
    method Remove(event: Value, context: Value)
      modifies this
      ensures subscriptions == if event.Str? && context.Str? then Removed(old(subscriptions), event.s, context.s) else old(subscriptions)
      ensures WellFormed(old(subscriptions)) ==> WellFormed(subscriptions)
    {
      if !(event.Str? && context.Str?) {
        return;
      }
      if event.s !in subscriptions {
        return;
      }
      var inner := subscriptions[event.s];
      if Lookup(inner, context.s).Some? {
        DeleteKeepsFunctions(inner, context.s);
        inner := Delete(inner, context.s);
      } else {
        DeleteAbsent(inner, context.s);
      }
      subscriptions := subscriptions[event.s := inner];
    }

    /** `emit(event, params)`: the calls made, in order. */
    method Emit(event: Value, params: Value) returns (calls: seq<(Value, Value)>)
      ensures calls == if event.Str? && event.s in subscriptions then EmitCalls(subscriptions[event.s], event.s, params) else []
    {
      calls := [];
      if !event.Str? || event.s !in subscriptions {
        return;
      }
      var entries := subscriptions[event.s];
      var i := 0;
      while i < |entries|
        invariant 0 <= i <= |entries|
        invariant calls + EmitCalls(entries[i..], event.s, params) == EmitCalls(entries, event.s, params)
      {
        assert entries[i..][1..] == entries[i + 1..];
        var callback := entries[i].1;
        if !Truthy(callback) {
          return;
        }
        calls := calls + [(callback, EventArg(event.s, params))];
        i := i + 1;
      }
    }
  }

  lemma PutKeepsFunctions(h: Entries, name: string, v: Value)
    requires v.Func?
    ensures (forall i :: 0 <= i < |h| ==> h[i].1.Func?) ==>
              forall i :: 0 <= i < |Put(h, name, v)| ==> Put(h, name, v)[i].1.Func?
    decreases |h|
  {
    if h != [] && h[0].0 != name {
      PutKeepsFunctions(h[1..], name, v);
      var r := Put(h, name, v);
      assert r[1..] == Put(h[1..], name, v);
      if forall i :: 0 <= i < |h| ==> h[i].1.Func? {
        forall i | 0 <= i < |r| ensures r[i].1.Func? {
          if i > 0 {
            assert r[i] == r[1..][i - 1];
            assert forall j :: 0 <= j < |h[1..]| ==> h[1..][j] == h[j + 1];
          }
        }
      }
    }
  }

  lemma DeleteKeepsFunctions(h: Entries, name: string)
    ensures (forall i :: 0 <= i < |h| ==> h[i].1.Func?) ==>
              forall i :: 0 <= i < |Delete(h, name)| ==> Delete(h, name)[i].1.Func?
  {
    var r := Delete(h, name);
    if forall i :: 0 <= i < |h| ==> h[i].1.Func? {
      forall i | 0 <= i < |r| ensures r[i].1.Func? {
        assert r[i] in r;
        assert r[i] in h;
      }
    }
  }
}
