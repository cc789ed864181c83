/** The fetch log of state/state/src/lib/logFetch.ts: a module-wide list of log entries,
    newest first, that a wrapped `fetch` publishes to, bounded by `maxFetchLogs`. */
module LogFetch {
  import opened Wrappers
  import opened JsValue
  import opened StateRules
  import opened StateStore
  import opened StateFetch
  import opened StateObjects

  /** The log after one publish: with a positive bound that is reached, only the newest
      `max - 1` entries are kept (`splice(0, max - 1)`); the new entry goes in front
      (`unshift`). */
  function Published(logs: seq<Value>, max: int, entry: Value): seq<Value> {
    [entry] + (if |logs| >= max && max > 0 then logs[..max - 1] else logs)
  }

  /** The new entry is first, and the earlier entries follow in their order, the oldest
      ones dropped first. */
  lemma PublishedOrder(logs: seq<Value>, max: int, entry: Value)
    ensures var r := Published(logs, max, entry);
            |r| >= 1 && r[0] == entry && r[1..] == logs[..|r| - 1]
  {
  }

  /** A positive bound is never exceeded once reached; without one, the log only grows. */
  lemma PublishedLength(logs: seq<Value>, max: int, entry: Value)
    ensures max > 0 && |logs| <= max ==> |Published(logs, max, entry)| <= max
    ensures max > 0 && |logs| >= max ==> |Published(logs, max, entry)| == max
    ensures max > 0 && |logs| < max ==> |Published(logs, max, entry)| == |logs| + 1
    ensures max <= 0 ==> |Published(logs, max, entry)| == |logs| + 1
  {
  }

  /** A bound reached once is kept by every later publish with that bound. */
  lemma {:induction false} PublishedStaysBounded(logs: seq<Value>, max: int, entries: seq<Value>)
    requires max > 0 && |logs| <= max
    ensures |PublishAll(logs, max, entries)| <= max
    decreases |entries|
  {
    if entries != [] {
      PublishedLength(logs, max, entries[0]);
      PublishedStaysBounded(Published(logs, max, entries[0]), max, entries[1..]);
    }
  }

  /** Several publishes, in order. */
  function PublishAll(logs: seq<Value>, max: int, entries: seq<Value>): seq<Value>
    decreases |entries|
  {
    if entries == [] then logs else PublishAll(Published(logs, max, entries[0]), max, entries[1..])
  }

  /** `getLoggedFetch({state, shouldLog, createLog, maxFetchLogs})`: the wrapper exists
      only for a state whose `fetch` is a function and a bound that is a number (`None`
      is NaN); it then carries the bound. */
  function GetLoggedFetch(stateHasFetch: bool, maxFetchLogs: Option<int>): (r: Option<int>)
    ensures r.Some? <==> stateHasFetch && maxFetchLogs.Some?
    ensures r.Some? ==> r == maxFetchLogs
  {
    if !stateHasFetch then Option.None
    else if maxFetchLogs.None? then Option.None
    else maxFetchLogs
  }

  /** `publishLog(uri, options, res)`, as a function of the log; `shouldLog` and
      `createLog` are the caller's functions, applied to this call's uri and options. */
  function PublishIf(logs: seq<Value>, max: int, shouldLog: Value -> bool, createLog: Value -> Value, res: Value): seq<Value> {
    if shouldLog(res) then Published(logs, max, createLog(res)) else logs
  }

  /** The log after a wrapped call that ended as `out`: nothing when `fetch` rejected;
      otherwise one publish of the result, and, when the CacheFirst callback fired, a
      second publish of the same primary result, after the caller's callback ran (which
      throws, skipping the publish, when it is truthy but not a function). */
  function LogAfter(logs: seq<Value>, max: int, shouldLog: Value -> bool, createLog: Value -> Value,
                    userCallback: Value, out: FetchOutcome): seq<Value> {
    if out.result.Err? then logs
    else
      var l1 := PublishIf(logs, max, shouldLog, createLog, out.result.value);
      if out.callbackArg.Some? && (!Truthy(userCallback) || userCallback.Func?) then
        PublishIf(l1, max, shouldLog, createLog, out.result.value)
      else l1
  }

  /** The callback of the wrapper logs the primary result again, not the network
      response it was handed. */
  lemma CallbackLogsPrimaryResult(logs: seq<Value>, max: int, shouldLog: Value -> bool, createLog: Value -> Value,
                                  userCallback: Value, out: FetchOutcome)
    requires out.result.Ok? && out.callbackArg.Some? && userCallback.Func?
    requires shouldLog(out.result.value) && max != 1
    ensures var l := LogAfter(logs, max, shouldLog, createLog, userCallback, out);
            |l| >= 2 && l[0] == createLog(out.result.value) && l[1] == createLog(out.result.value)
  {
  }

  /** A rejected fetch is not logged. */
  lemma RejectedFetchNotLogged(logs: seq<Value>, max: int, shouldLog: Value -> bool, createLog: Value -> Value,
                               userCallback: Value, out: FetchOutcome)
    requires out.result.Err?
    ensures LogAfter(logs, max, shouldLog, createLog, userCallback, out) == logs
  {
  }

  /** What the wrapped call gives its caller: the result of `fetch`, and what the
      caller's own callback was called with. */
  datatype LoggedCall = LoggedCall(result: Result<Value, StateError>, userCallbackArg: Option<Value>)

  /** The module-wide `fetchLogs`. */
  class FetchLogs {
    var entries: seq<Value>

    constructor ()
      ensures entries == []
    {
      entries := [];
    }

    /** `publishLog`, with `shouldLog(uri, options, res)` already evaluated. */
    method Publish(max: int, shouldLog: bool, entry: Value)
      modifies this
      ensures entries == if shouldLog then Published(old(entries), max, entry) else old(entries)
    {
      if shouldLog {
        if |entries| >= max && max > 0 {
          entries := entries[..max - 1];
        }
        entries := [entry] + entries;
      }
    }

    /** The function `getLoggedFetch` returns, called with `uri` and `options` on the state
        `st`: `fetch` is called with the wrapper's own callback (the function
        `logCallback`), then the result is published; the callback forwards to the
        caller's callback and publishes the same result. */
    method LoggedFetch(st: State, statics: Statics, host: Host, uri: string, o: FetchOptions, net: NetResponse, now: int,
                       max: int, shouldLog: Value -> bool, createLog: Value -> Value, logCallback: nat)
      returns (r: LoggedCall)
      requires st.Valid()
      modifies this, st, st.sessionStorage, st.localStorage
      ensures var f := FetchSpec(st.backend, old(st.StoresOf()), st.context, st.basePath, statics, host, uri,
                                 o.(callback := Func(logCallback)), net, now);
              st.StoresOf() == f.1 && r.result == f.0.result &&
              r.userCallbackArg == (if Truthy(o.callback) then f.0.callbackArg else Option.None) &&
              entries == LogAfter(old(entries), max, shouldLog, createLog, o.callback, f.0)
    {
      var out := st.Fetch(statics, host, uri, o.(callback := Func(logCallback)), net, now);
      r := LoggedCall(out.result, if Truthy(o.callback) then out.callbackArg else Option.None);
      if out.result.Err? {
        return;
      }
      var res := out.result.value;
      Publish(max, shouldLog(res), createLog(res));
      if out.callbackArg.Some? && (!Truthy(o.callback) || o.callback.Func?) {
        Publish(max, shouldLog(res), createLog(res));
      }
    }
  }
}
