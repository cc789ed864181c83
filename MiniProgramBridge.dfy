/** The message bridge between a web view and the Mini Program shell
    (mini-program-bridge/src/common/miniProgramWebInterface.ts): a table of pending
    messages keyed by id, the handler the shell calls with its responses, the error text
    those responses carry, the mapping of `tradePay` results, and the argument checks of
    the storage helpers. */
module MiniProgramBridge {
  import opened Wrappers
  import opened Text
  import opened JsValue

  /** An entry of `pendingMessages`: `{callback, once, message}`. */
  datatype Pending = Pending(callback: Value, once: Value, message: string)

  /** One call `callback(error, data, id)`: `error` is the text given to `new Error`, or
      `None` for `undefined`. */
  datatype Call = Call(callback: Value, error: Option<Value>, data: Value, id: string)

  /** What `onMessage` did: ignored an id that is not pending (returning false), or
      called the entry's callback and returned `returned`. */
  datatype Received = NotPending | Called(call: Call, returned: bool)

  /** Why a bridge operation throws or rejects. */
  datatype BridgeError =
    | NullishResponse        // destructuring a null or undefined response
    | CallbackNotFunction    // calling a callback that is not a function
    | InvalidKey(helper: string)
    | InvalidValue(helper: string)

  /** `once` after its default (`true` when left undefined). */
  function OnceOf(once: Value): (r: Value)
    ensures once.Undefined? ==> r == Bool(true)
    ensures !once.Undefined? ==> r == once
  {
    if once.Undefined? then Bool(true) else once
  }

  /** The table after `postMessageToMiniProgram(message, callback, {data, once})` drew the
      id `id` (a uuid). */
  function Posted(table: map<string, Pending>, id: string, message: string, callback: Value, once: Value): map<string, Pending> {
    table[id := Pending(callback, OnceOf(once), message)]
  }

  /** The message sent to the shell: `{id, message, data}`. */
  function Envelope(id: string, message: string, data: Value): Value {
    Obj(map["id" := Str(id), "message" := Str(message), "data" := data])
  }

  /** The text of `error.error` when `/^\d+$/` accepts it: a string of digits, or a
      non-negative number. */
  function ErrorCode(v: Value): (r: Option<string>)
    ensures r.Some? ==> IsDigits(r.value)
    ensures v.Str? && IsDigits(v.s) ==> r == Some(v.s)
    ensures v.Num? && v.n >= 0 ==> r == Some(NatToString(v.n))
    ensures r.Some? <==> (v.Str? && IsDigits(v.s)) || (v.Num? && v.n >= 0)
  {
    match v
    case Str(s) => if IsDigits(s) then Some(s) else Option.None
    case Num(n) => if n >= 0 then Some(NatToString(n)) else Option.None
    case _ => Option.None
  }

  /** `getErrorMessage(message, error)`: the first truthy of `error.message` and
      `error.errorMessage`; then `error.error`, spelled out with the message for a
      numeric code; else an unknown-error text. */
  function GetErrorMessage(message: string, error: Value): (r: Value)
    ensures Truthy(r)
  {
    var m := Prop(error, "message");
    var em := Prop(error, "errorMessage");
    var e := Prop(error, "error");
    if Truthy(m) then m
    else if Truthy(em) then em
    else if Truthy(e) then
      (match ErrorCode(e)
       case Some(code) => Str(message + " returned with error code: " + code)
       case None => e)
    else Str("Unknown error for " + message)
  }

  /** The precedence of the three fields: a truthy field hides every field after it; a
      truthy `error` is spelled out after the message when it is a code, else given as it is. */
  lemma ErrorMessagePrecedence(message: string, error: Value)
    ensures var r := GetErrorMessage(message, error);
            (Truthy(Prop(error, "message")) ==> r == Prop(error, "message")) &&
            (!Truthy(Prop(error, "message")) && Truthy(Prop(error, "errorMessage")) ==> r == Prop(error, "errorMessage")) &&
            (!Truthy(Prop(error, "message")) && !Truthy(Prop(error, "errorMessage")) && Truthy(Prop(error, "error")) ==>
               r == (if ErrorCode(Prop(error, "error")).Some?
                     then Str(message + " returned with error code: " + ErrorCode(Prop(error, "error")).value)
                     else Prop(error, "error"))) &&
            (!Truthy(Prop(error, "message")) && !Truthy(Prop(error, "errorMessage")) && !Truthy(Prop(error, "error")) ==>
               r == Str("Unknown error for " + message))
  {
  }

  /** A numeric code is spelled out after the message, and can be read back from the end
      of the text (the code 0 is falsy and gives the unknown-error text). */
  lemma {:induction false} ErrorCodeReadsBack(message: string, n: nat)
    requires n > 0
    ensures var code := NatToString(n);
            var r := GetErrorMessage(message, Obj(map["error" := Num(n)]));
            r == Str(message + " returned with error code: " + code) &&
            |r.s| >= |code| && DigitsValue(r.s[|r.s| - |code|..]) == n
  {
    var code := NatToString(n);
    var r := GetErrorMessage(message, Obj(map["error" := Num(n)]));
    assert Prop(Obj(map["error" := Num(n)]), "message") == Undefined;
    assert Prop(Obj(map["error" := Num(n)]), "errorMessage") == Undefined;
    var prefix := message + " returned with error code: ";
    assert r.s == prefix + code;
    assert r.s[|r.s| - |code|..] == code;
    DigitsValueOfNatToString(n);
  }

  /** A code given as a string of digits, the form the shell documents for `error`, is
      spelled out after the message. */
  lemma DigitCodeIsSpelledOut(message: string, code: string)
    requires IsDigits(code)
    ensures GetErrorMessage(message, Obj(map["error" := Str(code)])) ==
            Str(message + " returned with error code: " + code)
  {
    assert Prop(Obj(map["error" := Str(code)]), "message") == Undefined;
    assert Prop(Obj(map["error" := Str(code)]), "errorMessage") == Undefined;
  }

  /** A code that is not made of digits is passed on as it is. */
  lemma NonNumericCodeIsKept(message: string, code: string)
    requires code != "" && !IsDigits(code)
    ensures GetErrorMessage(message, Obj(map["error" := Str(code)])) == Str(code)
  {
    assert Prop(Obj(map["error" := Str(code)]), "message") == Undefined;
    assert Prop(Obj(map["error" := Str(code)]), "errorMessage") == Undefined;
  }

  /** `miniProgramApi.onMessage(response)` on the table `table`: the outcome and the new
      table. The entry is removed, when `once` is truthy, before its callback is called. */
  function OnMessageSpec(table: map<string, Pending>, response: Value): (Result<Received, BridgeError>, map<string, Pending>) {
    if IsNullish(response) then (Err(NullishResponse), table)
    else
      var id := Prop(response, "id");
      if !id.Str? || id.s !in table then (Ok(NotPending), table)
      else
        var p := table[id.s];
        var table' := if Truthy(p.once) then table - {id.s} else table;
        var error := Prop(response, "error");
        var data := Prop(response, "data");
        if !p.callback.Func? then (Err(CallbackNotFunction), table')
        else if Truthy(error) then
          (Ok(Called(Call(p.callback, Some(GetErrorMessage(p.message, error)), data, id.s), false)), table')
        else (Ok(Called(Call(p.callback, Option.None, data, id.s), true)), table')
  }

  /** A response whose id is not pending is refused and changes nothing. */
  lemma UnknownIdIgnored(table: map<string, Pending>, response: Value)
    requires !IsNullish(response)
    requires var id := Prop(response, "id"); !id.Str? || id.s !in table
    ensures OnMessageSpec(table, response) == (Ok(NotPending), table)
  {
  }

  /** A pending entry is removed exactly when it was posted with a truthy `once`; every
      other entry stays. */
  lemma OnceDecidesRemoval(table: map<string, Pending>, response: Value, other: string)
    requires !IsNullish(response) && Prop(response, "id").Str? && Prop(response, "id").s in table
    requires other != Prop(response, "id").s
    ensures var id := Prop(response, "id").s;
            var t := OnMessageSpec(table, response).1;
            (id in t <==> !Truthy(table[id].once)) &&
            (other in t <==> other in table) && (other in t ==> t[other] == table[other])
  {
  }

  /** The callback of a pending entry is called with the error text when the response
      carries a truthy error, and `onMessage` then returns false; otherwise with
      `undefined`, and it returns true. Either way it receives the data and the id. */
  lemma CallbackReceivesResponse(table: map<string, Pending>, response: Value)
    requires !IsNullish(response) && Prop(response, "id").Str? && Prop(response, "id").s in table
    requires table[Prop(response, "id").s].callback.Func?
    ensures var id := Prop(response, "id").s;
            var r := OnMessageSpec(table, response).0;
            r.Ok? && r.value.Called? &&
            r.value.call.callback == table[id].callback && r.value.call.data == Prop(response, "data") && r.value.call.id == id &&
            (r.value.returned <==> !Truthy(Prop(response, "error"))) &&
            (r.value.call.error.Some? <==> Truthy(Prop(response, "error"))) &&
            (r.value.call.error.Some? ==> r.value.call.error.value == GetErrorMessage(table[id].message, Prop(response, "error")))
  {
  }

  /** A message posted with `once: false` answers every response, and its entry stays. */
  lemma {:induction false} PersistentEntrySurvives(table: map<string, Pending>, id: string, message: string, callback: Value,
                                                   r1: Value, r2: Value)
    requires callback.Func?
    requires !IsNullish(r1) && !IsNullish(r2) && Prop(r1, "id") == Str(id) && Prop(r2, "id") == Str(id)
    ensures var t0 := Posted(table, id, message, callback, Bool(false));
            var (o1, t1) := OnMessageSpec(t0, r1);
            var (o2, t2) := OnMessageSpec(t1, r2);
            t1 == t0 && t2 == t0 && o1.Ok? && o1.value.Called? && o2.Ok? && o2.value.Called?
  {
    var t0 := Posted(table, id, message, callback, Bool(false));
    assert t0[id] == Pending(callback, Bool(false), message);
    assert OnMessageSpec(t0, r1).1 == t0;
  }

  /** A message posted with the default `once` is answered once: the first response
      reaches its callback, the next one finds nothing pending. */
  lemma {:induction false} DefaultEntryAnsweredOnce(table: map<string, Pending>, id: string, message: string, callback: Value,
                                                    r1: Value, r2: Value)
    requires callback.Func?
    requires !IsNullish(r1) && !IsNullish(r2) && Prop(r1, "id") == Str(id) && Prop(r2, "id") == Str(id)
    ensures var t0 := Posted(table, id, message, callback, Undefined);
            var (o1, t1) := OnMessageSpec(t0, r1);
            var (o2, t2) := OnMessageSpec(t1, r2);
            o1.Ok? && o1.value.Called? && o1.value.call.callback == callback &&
            t1 == table - {id} && o2 == Ok(NotPending) && t2 == t1
  {
    var t0 := Posted(table, id, message, callback, Undefined);
    assert t0[id] == Pending(callback, Bool(true), message);
    assert t0 - {id} == table - {id};
    var t1 := OnMessageSpec(t0, r1).1;
    assert id !in t1;
  }

  /** The storage helpers that reach the shell. */
  datatype StorageHelper = GetStorageSync | GetStorage | SetStorage | SetStorageSync | RemoveStorage

  function HelperName(h: StorageHelper): string {
    match h
    case GetStorageSync => "getStorageSync"
    case GetStorage => "getStorage"
    case SetStorage => "setStorage"
    case SetStorageSync => "setStorageSync"
    case RemoveStorage => "removeStorage"
  }

  predicate TakesValue(h: StorageHelper) {
    h == SetStorage || h == SetStorageSync
  }

  /** The argument checks of a storage helper, and the data of the message it posts
      otherwise: a key that is a non-empty string, and for the setters a defined value. */
  function StorageRequest(h: StorageHelper, key: Value, value: Value): (r: Result<Value, BridgeError>)
    ensures r.Err? <==> !(key.Str? && key.s != "") || (TakesValue(h) && value.Undefined?)
    ensures r.Err? && !(key.Str? && key.s != "") ==> r.error == InvalidKey(HelperName(h))
    ensures r.Ok? ==> Prop(r.value, "key") == key && (TakesValue(h) ==> Prop(r.value, "value") == value)
    ensures r.Ok? && !TakesValue(h) ==> Prop(r.value, "value") == Undefined
  {
    if !Truthy(key) || !key.Str? then Err(InvalidKey(HelperName(h)))
    else if TakesValue(h) && value.Undefined? then Err(InvalidValue(HelperName(h)))
    else if TakesValue(h) then Ok(Obj(map["key" := key, "value" := value]))
    else Ok(Obj(map["key" := key]))
  }

  /** How the promise of a storage helper settles once its callback runs: rejected with a
      truthy error, otherwise resolved with the data (getters) or with nothing. */
  function StorageSettled(h: StorageHelper, error: Value, data: Value): (r: Result<Value, Value>)
    ensures r.Err? <==> Truthy(error)
    ensures r.Err? ==> r.error == error
    ensures r.Ok? ==> r.value == if h == GetStorage || h == GetStorageSync then data else Undefined
  {
    if Truthy(error) then Err(error)
    else if h == GetStorage || h == GetStorageSync then Ok(data)
    else Ok(Undefined)
  }

  /** The codes of `TradePayResultCodes` (mini-program-bridge/src/constants.ts). */
  function TradePayMessage(code: string): Option<string> {
    if code == "9000" then Some("Success")
    else if code == "8000" then Some("Trade is processing")
    else if code == "4000" then Some("Payment failed")
    else if code == "6002" then Some("Invalid Configuration")
    else if code == "6001" then Some("User cancelled payment.")
    else Option.None
  }

  /** The property name a `resultCode` indexes the table with. */
  function CodeKey(v: Value): Option<string> {
    match v
    case Str(s) => Some(s)
    case Num(n) => if n >= 0 then Some(NatToString(n)) else Option.None
    case _ => Option.None
  }

  function TableMessage(code: Value, otherwise: string): string {
    match CodeKey(code)
    case Some(k) => TradePayMessage(k).GetOr(otherwise)
    case None => otherwise
  }

  /** How the shell answers `tradePay`. */
  datatype TradeReply = Success(res: Value) | Fail(res: Value)

  /** The `TradePayResult` the promise resolves with. */
  datatype TradePayResult = TradePayResult(success: bool, isProcessing: Option<bool>, error: Option<Value>, code: Value, message: string)

  /** `tradePay(paymentUrl)` after the shell's reply; `None` when the handler throws on
      a nullish `res` and the promise never settles. */
  function TradePay(reply: TradeReply): (r: Option<TradePayResult>)
    ensures r.Some? <==> !IsNullish(reply.res)
    ensures r.Some? ==> r.value.code == Or(Prop(reply.res, "resultCode"), Str("-1"))
    ensures r.Some? && r.value.error.Some? ==> !r.value.success
  {
    var res := reply.res;
    if IsNullish(res) then Option.None
    else
      var code := Prop(res, "resultCode");
      var error := Prop(res, "error");
      if reply.Fail? || Truthy(error) then
        Some(TradePayResult(false, Option.None, Some(Or(error, Str("Unknown"))), Or(code, Str("-1")), TableMessage(code, "Unknown error")))
      else
        Some(TradePayResult(code == Str("9000"), Some(code == Str("8000")), Option.None, Or(code, Str("-1")), TableMessage(code, "Unknown result code")))
  }

  /** A payment succeeded exactly when the shell called `success` without an error and
      with the result code "9000"; it is processing exactly when the code is "8000". */
  lemma TradePaySuccessIff(reply: TradeReply)
    requires !IsNullish(reply.res)
    ensures var r := TradePay(reply).value;
            var code := Prop(reply.res, "resultCode");
            (r.success <==> reply.Success? && !Truthy(Prop(reply.res, "error")) && code == Str("9000")) &&
            (r.isProcessing == Some(true) <==> reply.Success? && !Truthy(Prop(reply.res, "error")) && code == Str("8000")) &&
            !(r.success && r.isProcessing == Some(true))
  {
  }

  /** A successful payment is described as "Success"; a missing code reads "-1". */
  lemma TradePayMessages(reply: TradeReply)
    requires !IsNullish(reply.res)
    ensures var r := TradePay(reply).value;
            (r.success ==> r.message == "Success" && r.code == Str("9000")) &&
            (!Truthy(Prop(reply.res, "resultCode")) ==>
               r.code == Str("-1") && r.message == (if r.isProcessing.Some? then "Unknown result code" else "Unknown error"))
  {
  }

  /** A failure or an error reply is never a success, and reports its error (or
      "Unknown"). */
  lemma TradePayErrors(reply: TradeReply)
    requires !IsNullish(reply.res) && (reply.Fail? || Truthy(Prop(reply.res, "error")))
    ensures var r := TradePay(reply).value;
            !r.success && r.isProcessing.None? && r.error == Some(Or(Prop(reply.res, "error"), Str("Unknown")))
  {
  }

  /** The module's table of pending messages, and the messages sent to the shell. */
  class Bridge {
    var pending: map<string, Pending>
    var sent: seq<Value>

    constructor ()
      ensures pending == map[] && sent == []
    {
      pending := map[];
      sent := [];
    }

    /** `postMessageToMiniProgram(message, callback, {data, once})`, with `id` the uuid
        drawn for it. */
    method Post(message: string, callback: Value, data: Value, once: Value, id: string) returns (r: string)
      modifies this
      ensures r == id
      ensures pending == Posted(old(pending), id, message, callback, once)
      ensures sent == old(sent) + [Envelope(id, message, data)]
    {
      pending := pending[id := Pending(callback, OnceOf(once), message)];
      sent := sent + [Envelope(id, message, data)];
      return id;
    }

    /** `removePendingMessage(id)`. */
    method RemovePending(id: string)
      modifies this
      ensures pending == old(pending) - {id} && sent == old(sent)
    {
      pending := pending - {id};
    }

    /** `miniProgramApi.onMessage(response)`. */
    method OnMessage(response: Value) returns (r: Result<Received, BridgeError>)
      modifies this
      ensures (r, pending) == OnMessageSpec(old(pending), response) && sent == old(sent)
    {
      if IsNullish(response) {
        return Err(NullishResponse);
      }
      var id := Prop(response, "id");
      if !id.Str? || id.s !in pending {
        return Ok(NotPending);
      }
      var p := pending[id.s];
      if Truthy(p.once) {
        pending := pending - {id.s};
      }
      if !p.callback.Func? {
        return Err(CallbackNotFunction);
      }
      var error := Prop(response, "error");
      if Truthy(error) {
        var text := GetErrorMessage(p.message, error);
        return Ok(Called(Call(p.callback, Some(text), Prop(response, "data"), id.s), false));
      }
      return Ok(Called(Call(p.callback, Option.None, Prop(response, "data"), id.s), true));
    }

    /** A storage helper: refused arguments reject before anything is posted; otherwise the
        helper's message is posted with its own callback `callback` and the id `id`. */
    method Storage(h: StorageHelper, key: Value, value: Value, callback: Value, id: string) returns (r: Result<string, BridgeError>)
      modifies this
      ensures var req := StorageRequest(h, key, value);
              (req.Err? ==> r == Err(req.error) && pending == old(pending) && sent == old(sent)) &&
              (req.Ok? ==> r == Ok(id) && pending == Posted(old(pending), id, HelperName(h), callback, Undefined) &&
                           sent == old(sent) + [Envelope(id, HelperName(h), req.value)])
    {
      var req := StorageRequest(h, key, value);
      if req.Err? {
        return Err(req.error);
      }
      var posted := Post(HelperName(h), callback, req.value, Undefined, id);
      return Ok(posted);
    }
  }
}
