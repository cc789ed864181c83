/** The headers of a `State` request (state/state/src/lib/state.ts): the ordered header
    objects, the bearer token, the merge of the default and per-call headers, the path
    parameters, and `parseHeaders`, which reads the raw response headers. */
module StateHeaders {
  import opened Wrappers
  import opened Text
  import opened JsValue
  import opened StateRules
  import opened Ordered

  /** A header object as `Object.entries` lists it. */
  type Headers = Entries

  /** `{...a, ...b}`: every entry of `b` put into `a` in order. */
  function Spread(a: Headers, b: Headers): (r: Headers)
    ensures UniqueNames(a) ==> UniqueNames(r)
    decreases |b|
  {
    if b == [] then a else Spread(Put(a, b[0].0, b[0].1), b[1..])
  }

  /** In the spread, a per-call header wins over the default of the same name, and every
      other name keeps its default. */
  lemma {:induction false} SpreadLookup(a: Headers, b: Headers, n: string)
    requires UniqueNames(b)
    ensures Lookup(Spread(a, b), n) == if Lookup(b, n).Some? then Lookup(b, n) else Lookup(a, n)
    decreases |b|
  {
    if b != [] {
      var a1 := Put(a, b[0].0, b[0].1);
      assert Spread(a, b) == Spread(a1, b[1..]);
      assert UniqueNames(b[1..]) by {
        forall i, j | 0 <= i < j < |b[1..]| ensures b[1..][i].0 != b[1..][j].0 {
          assert b[1..][i] == b[i + 1] && b[1..][j] == b[j + 1];
        }
      }
      SpreadLookup(a1, b[1..], n);
      if n == b[0].0 {
        assert n !in Names(b[1..]);
        assert Lookup(b, n) == Some(b[0].1);
      } else {
        assert Lookup(b, n) == Lookup(b[1..], n);
      }
    }
  }

  /** A name the per-call headers do not have keeps its default in the spread. */
  lemma {:induction false} SpreadLookupDefault(a: Headers, b: Headers, n: string)
    requires n !in Names(b)
    ensures Lookup(Spread(a, b), n) == Lookup(a, n)
    decreases |b|
  {
    if b != [] {
      NamesCons(b);
      SpreadLookupDefault(Put(a, b[0].0, b[0].1), b[1..], n);
    }
  }

  /** `JSON.parse(JSON.stringify(h))` of a header object: entries whose value is
      `undefined` or a function are dropped, the others take their JSON round trip. */
  function JsonHeaders(h: Headers): (r: Headers)
    ensures |r| <= |h|
    ensures forall i :: 0 <= i < |r| ==> PlainJson(r[i].1)
    ensures Names(r) <= Names(h)
    ensures UniqueNames(h) ==> UniqueNames(r)
    decreases |h|
  {
    if h == [] then []
    else
      var rest := JsonHeaders(h[1..]);
      NamesCons(h);
      assert UniqueNames(h) ==> UniqueNames(h[1..]) && h[0].0 !in Names(h[1..]);
      if Kept(h[0].1) then
        JsonIsPlain(h[0].1);
        var r := [(h[0].0, Json(h[0].1))] + rest;
        NamesCons(r);
        assert r[1..] == rest;
        r
      else rest
  }

  /** Stored defaults are stored again unchanged. */
  lemma {:induction false} JsonHeadersIdempotent(h: Headers)
    ensures JsonHeaders(JsonHeaders(h)) == JsonHeaders(h)
    decreases |h|
  {
    if h != [] {
      JsonHeadersIdempotent(h[1..]);
      var r := JsonHeaders(h);
      if Kept(h[0].1) {
        JsonIdempotent(h[0].1);
        JsonIsPlain(h[0].1);
        assert r[1..] == JsonHeaders(h[1..]);
      }
    }
  }

  // ---------------------------------------------------------------- bearer token

  /** The name the bearer token goes under: the caller's own lower-case `authorization`
      when the headers have that key (whatever its value), else `Authorization`. */
  function AuthHeaderName(h: Headers): string {
    if Lookup(h, "authorization").Some? then "authorization" else "Authorization"
  }

  /** The headers with `Bearer <access>` under `AuthHeaderName`. */
  function WithBearer(h: Headers, access: string): (r: Headers)
    ensures Lookup(r, AuthHeaderName(h)) == Some(Str("Bearer " + access))
    ensures forall n :: n != AuthHeaderName(h) ==> Lookup(r, n) == Lookup(h, n)
    ensures UniqueNames(h) ==> UniqueNames(r)
  {
    Put(h, AuthHeaderName(h), Str("Bearer " + access))
  }

  /** A caller who wrote `authorization` gets their value replaced and no second,
      capitalised header; otherwise `Authorization` is set and `authorization` stays absent. */
  lemma BearerTakesCallersSpelling(h: Headers, access: string)
    ensures Lookup(h, "authorization").Some? ==>
              Lookup(WithBearer(h, access), "authorization") == Some(Str("Bearer " + access)) &&
              Lookup(WithBearer(h, access), "Authorization") == Lookup(h, "Authorization")
    ensures Lookup(h, "authorization").None? ==>
              Lookup(WithBearer(h, access), "Authorization") == Some(Str("Bearer " + access)) &&
              Lookup(WithBearer(h, access), "authorization").None?
  {
  }

  // ---------------------------------------------------------------- merge

  const MultipartFormData: string := "multipart/form-data"
  const ApplicationJson: string := "application/json"

  predicate IsContentTypeName(name: string) {
    Lower(name) == "content-type"
  }

  /** The headers set on the request, in order, and the content type the body is encoded by. */
  datatype HeaderPlan = HeaderPlan(sent: Headers, contentType: Value)

  /** The loop over the merged entries, from the content type already found: falsy values
      are skipped; the first truthy content-type entry, whatever its case, fixes the
      content type; a multipart content type with a form-data body is left for the
      browser to set (with its boundary), and every other entry is set. */
  function PlanHeaders(entries: Headers, bodyIsFormData: bool, contentType: Value): HeaderPlan
    decreases |entries|
  {
    if entries == [] then HeaderPlan([], contentType)
    else
      var name, v := entries[0].0, entries[0].1;
      if !Truthy(v) then PlanHeaders(entries[1..], bodyIsFormData, contentType)
      else if !Truthy(contentType) && IsContentTypeName(name) then
        var p := PlanHeaders(entries[1..], bodyIsFormData, v);
        if bodyIsFormData && v == Str(MultipartFormData) then p
        else HeaderPlan([(name, v)] + p.sent, p.contentType)
      else
        var p := PlanHeaders(entries[1..], bodyIsFormData, contentType);
        HeaderPlan([(name, v)] + p.sent, p.contentType)
  }

  /** The value of the first entry that has a truthy value and a content-type name. */
  function FirstContentType(entries: Headers): (r: Value)
    ensures !Truthy(r) ==> r == Undefined
  {
    if entries == [] then Undefined
    else if Truthy(entries[0].1) && IsContentTypeName(entries[0].0) then entries[0].1
    else FirstContentType(entries[1..])
  }

  /** It is found exactly when some entry has a truthy value and a content-type name. */
  lemma {:induction false} FirstContentTypeFound(entries: Headers)
    ensures Truthy(FirstContentType(entries)) <==>
              exists i :: 0 <= i < |entries| && Truthy(entries[i].1) && IsContentTypeName(entries[i].0)
    decreases |entries|
  {
    if entries != [] {
      FirstContentTypeFound(entries[1..]);
      assert forall i :: 1 <= i < |entries| ==> entries[i] == entries[1..][i - 1];
      if Truthy(FirstContentType(entries[1..])) {
        var i :| 0 <= i < |entries[1..]| && Truthy(entries[1..][i].1) && IsContentTypeName(entries[1..][i].0);
        assert entries[i + 1] == entries[1..][i];
      }
    }
  }

  /** The entries with a truthy value, in order. */
  function TruthyEntries(entries: Headers): (r: Headers)
    ensures forall i :: 0 <= i < |r| ==> Truthy(r[i].1)
    decreases |entries|
  {
    if entries == [] then []
    else if Truthy(entries[0].1) then [entries[0]] + TruthyEntries(entries[1..])
    else TruthyEntries(entries[1..])
  }

  /** With unique names, a name has a truthy entry kept exactly when its entry is truthy. */
  lemma {:induction false} LookupTruthyEntries(entries: Headers, n: string)
    requires UniqueNames(entries)
    ensures Lookup(TruthyEntries(entries), n) ==
            if Lookup(entries, n).Some? && Truthy(Lookup(entries, n).value) then Lookup(entries, n) else Option.None
    decreases |entries|
  {
    if entries != [] {
      NamesCons(entries);
      assert UniqueNames(entries[1..]);
      LookupTruthyEntries(entries[1..], n);
      if entries[0].0 == n {
        assert n !in Names(entries[1..]);
      }
    }
  }

  /** The first content type wins: one already found is kept, and from scratch it is the
      first truthy content-type entry. */
  lemma {:induction false} PlanContentType(entries: Headers, bodyIsFormData: bool, contentType: Value)
    ensures Truthy(contentType) ==> PlanHeaders(entries, bodyIsFormData, contentType).contentType == contentType
    ensures !Truthy(contentType) ==> PlanHeaders(entries, bodyIsFormData, contentType).contentType == Or(FirstContentType(entries), contentType)
    decreases |entries|
  {
    if entries != [] {
      PlanContentType(entries[1..], bodyIsFormData, contentType);
      PlanContentType(entries[1..], bodyIsFormData, entries[0].1);
    }
  }

  /** Without a form-data body, exactly the truthy entries are set, in order. */
  lemma {:induction false} PlanSendsTruthyEntries(entries: Headers, contentType: Value)
    ensures PlanHeaders(entries, false, contentType).sent == TruthyEntries(entries)
    decreases |entries|
  {
    if entries != [] {
      PlanSendsTruthyEntries(entries[1..], contentType);
      PlanSendsTruthyEntries(entries[1..], entries[0].1);
    }
  }

  /** Every header set has a truthy value and comes from the merged entries. */
  lemma {:induction false} PlanSendsOnlyTruthyEntries(entries: Headers, bodyIsFormData: bool, contentType: Value)
    ensures forall i :: 0 <= i < |PlanHeaders(entries, bodyIsFormData, contentType).sent| ==>
              Truthy(PlanHeaders(entries, bodyIsFormData, contentType).sent[i].1) &&
              PlanHeaders(entries, bodyIsFormData, contentType).sent[i] in entries
    decreases |entries|
  {
    if entries != [] {
      var s := PlanHeaders(entries, bodyIsFormData, contentType).sent;
      var name, v := entries[0].0, entries[0].1;
      var t := if Truthy(v) && !Truthy(contentType) && IsContentTypeName(name) then v else contentType;
      var s1 := PlanHeaders(entries[1..], bodyIsFormData, t).sent;
      PlanSendsOnlyTruthyEntries(entries[1..], bodyIsFormData, t);
      assert forall j :: 0 <= j < |s1| ==> Truthy(s1[j].1) && s1[j] in entries[1..];
      assert forall e :: e in entries[1..] ==> e in entries;
      assert s == s1 || (s == [(name, v)] + s1 && Truthy(v));
      forall i | 0 <= i < |s| ensures Truthy(s[i].1) && s[i] in entries {
        if s == s1 {
          assert s[i] == s1[i];
        } else if i > 0 {
          assert s[i] == s1[i - 1];
        } else {
          assert s[0] == entries[0];
        }
      }
    }
  }

  /** The body is sent as JSON text when no content type was given or it is JSON. */
  predicate BodyIsJsonText(contentType: Value) {
    !Truthy(contentType) || contentType == Str(ApplicationJson)
  }

  /** The header loop with `State.defaultHeaders` and the per-call headers merged, as the
      request evidently means it: with `body instanceof FormData` decided by the host and
      passed in as `bodyIsFormData`. */
  method MergeHeaders(defaults: Headers, headers: Headers, bodyIsFormData: bool) returns (plan: HeaderPlan)
    ensures plan == PlanHeaders(Spread(defaults, headers), bodyIsFormData, Undefined)
    ensures plan.contentType == FirstContentType(Spread(defaults, headers))
  {
    var entries := Spread(defaults, headers);
    var sent: Headers := [];
    var contentType := Undefined;
    var i := 0;
    while i < |entries|
      invariant 0 <= i <= |entries|
      invariant var p := PlanHeaders(entries[i..], bodyIsFormData, contentType);
                PlanHeaders(entries, bodyIsFormData, Undefined) == HeaderPlan(sent + p.sent, p.contentType)
    {
      assert entries[i..][1..] == entries[i + 1..];
      var name, v := entries[i].0, entries[i].1;
      if Truthy(v) {
        if !Truthy(contentType) && IsContentTypeName(name) {
          contentType := v;
          if !(bodyIsFormData && v == Str(MultipartFormData)) {
            sent := sent + [(name, v)];
          }
        } else {
          sent := sent + [(name, v)];
        }
      }
      i := i + 1;
    }
    assert entries[i..] == [];
    plan := HeaderPlan(sent, contentType);
    PlanContentType(entries, bodyIsFormData, Undefined);
  }

  /** Whether the header loop as written throws: `let FormData: any;` in the request
      shadows the global constructor, so `body instanceof FormData` throws a TypeError
      the first time it is evaluated, which is on the first truthy content-type entry. */
  predicate MergeThrowsAsWritten(entries: Headers) {
    Truthy(FirstContentType(entries))
  }

  /** The header loop as written: it rejects with a TypeError exactly when a truthy
      content-type header is present, and otherwise sets the truthy entries. */
  method MergeHeadersAsWritten(defaults: Headers, headers: Headers) returns (r: Result<HeaderPlan, StateError>)
    ensures MergeThrowsAsWritten(Spread(defaults, headers)) <==> r.Err?
    ensures r.Err? ==> r.error == TypeError("instanceof")
    ensures r.Ok? ==> r.value == HeaderPlan(TruthyEntries(Spread(defaults, headers)), Undefined)
  {
    var entries := Spread(defaults, headers);
    var sent: Headers := [];
    var i := 0;
    while i < |entries|
      invariant 0 <= i <= |entries|
      invariant !Truthy(FirstContentType(entries[..i]))
      invariant sent == TruthyEntries(entries[..i])
    {
      var name, v := entries[i].0, entries[i].1;
      if Truthy(v) {
        if IsContentTypeName(name) {
          FirstContentTypeOfPrefix(entries, i);
          return Err(TypeError("instanceof"));
        }
        sent := sent + [(name, v)];
      }
      FirstContentTypeOfPrefix(entries, i);
      TruthyEntriesOfPrefix(entries, i);
      i := i + 1;
    }
    assert entries[..i] == entries;
    PlanSendsTruthyEntries(entries, Undefined);
    return Ok(HeaderPlan(sent, Undefined));
  }

  lemma {:induction false} FirstContentTypeOfPrefix(entries: Headers, i: nat)
    requires i < |entries|
    requires !Truthy(FirstContentType(entries[..i]))
    ensures FirstContentType(entries) == FirstContentType(entries[i..])
    ensures FirstContentType(entries[..i + 1]) == FirstContentType([entries[i]])
    decreases i
  {
    if i > 0 {
      assert entries[0] == entries[..i][0];
      assert !(Truthy(entries[0].1) && IsContentTypeName(entries[0].0));
      assert entries[..i][1..] == entries[1..][..i - 1];
      assert entries[..i + 1][1..] == entries[1..][..i];
      FirstContentTypeOfPrefix(entries[1..], i - 1);
      assert entries[1..][i - 1..] == entries[i..];
    }
  }

  lemma {:induction false} TruthyEntriesOfPrefix(entries: Headers, i: nat)
    requires i < |entries|
    ensures TruthyEntries(entries[..i + 1]) == TruthyEntries(entries[..i]) + TruthyEntries([entries[i]])
    decreases i
  {
    if i > 0 {
      assert entries[..i + 1][1..] == entries[1..][..i];
      assert entries[..i][1..] == entries[1..][..i - 1];
      TruthyEntriesOfPrefix(entries[1..], i - 1);
    }
  }

  /** A JSON request, however its content-type header is spelled, rejects as written. */
  lemma JsonRequestRejectsAsWritten(defaults: Headers)
    ensures MergeThrowsAsWritten(Spread(defaults, [("Content-Type", Str(ApplicationJson))]))
  {
    var b: Headers := [("Content-Type", Str(ApplicationJson))];
    SpreadLookup(defaults, b, "Content-Type");
    var s := Spread(defaults, b);
    LookupFinds(s, "Content-Type");
    var i :| 0 <= i < |s| && s[i] == ("Content-Type", Str(ApplicationJson));
    ContentTypeSpelling();
    assert Truthy(s[i].1) && IsContentTypeName(s[i].0);
    FirstContentTypeFound(s);
  }

  /** The usual spelling is a content-type name. */
  lemma ContentTypeSpelling()
    ensures IsContentTypeName("Content-Type")
  {
    assert Lower("Content-Type") == "content-type";
  }

  // ---------------------------------------------------------------- path parameters

  /** Every `:key` and `{key}` in `s` replaced by `val`, scanning left to right. */
  function ReplacePlaceholder(s: string, key: string, val: string): string
    decreases |s|
  {
    if s == [] then []
    else if StartsWith(s, ":" + key) then val + ReplacePlaceholder(s[|key| + 1..], key, val)
    else if StartsWith(s, "{" + key + "}") then val + ReplacePlaceholder(s[|key| + 2..], key, val)
    else [s[0]] + ReplacePlaceholder(s[1..], key, val)
  }

  /** `setPathParameters`: the parameters applied one after another, in order. */
  function WithPathParameters(url: string, parameters: seq<(string, string)>): string
    decreases |parameters|
  {
    if parameters == [] then url
    else WithPathParameters(ReplacePlaceholder(url, parameters[0].0, parameters[0].1), parameters[1..])
  }

  /** Text holding neither `:` nor `{` is copied unchanged. */
  lemma {:induction false} ReplaceSkipsPlainText(a: string, b: string, key: string, val: string)
    requires forall i :: 0 <= i < |a| ==> a[i] != ':' && a[i] != '{'
    ensures ReplacePlaceholder(a + b, key, val) == a + ReplacePlaceholder(b, key, val)
    decreases |a|
  {
    if a != [] {
      var s := a + b;
      assert !StartsWith(s, ":" + key) by { assert s[0] == a[0]; }
      assert !StartsWith(s, "{" + key + "}") by { assert s[0] == a[0]; }
      assert s[1..] == a[1..] + b;
      ReplaceSkipsPlainText(a[1..], b, key, val);
      assert ReplacePlaceholder(s, key, val) == [a[0]] + ReplacePlaceholder(a[1..] + b, key, val);
      assert a + ReplacePlaceholder(b, key, val) == [a[0]] + (a[1..] + ReplacePlaceholder(b, key, val));
    } else {
      assert a + b == b;
    }
  }

  /** Both spellings of a placeholder are replaced. */
  lemma ReplaceBothSpellings(key: string, val: string, b: string)
    ensures ReplacePlaceholder(":" + key + b, key, val) == val + ReplacePlaceholder(b, key, val)
    ensures ReplacePlaceholder("{" + key + "}" + b, key, val) == val + ReplacePlaceholder(b, key, val)
  {
    var s1 := ":" + key + b;
    assert s1[..|key| + 1] == ":" + key;
    assert s1[|key| + 1..] == b;
    var s2 := "{" + key + "}" + b;
    assert !StartsWith(s2, ":" + key) by { assert s2[0] == '{'; }
    assert s2[..|key| + 2] == "{" + key + "}";
    assert StartsWith(s2, "{" + key + "}");
    assert s2[|key| + 2..] == b;
  }

  /** `/users/:id` with `id = 7` becomes `/users/7`. */
  lemma UserPath()
    ensures WithPathParameters("/users/:id", [("id", "7")]) == "/users/7"
  {
    ReplaceSkipsPlainText("/users/", ":id", "id", "7");
    assert "/users/:id" == "/users/" + ":id";
    ReplaceBothSpellings("id", "7", "");
    assert ":id" == ":" + "id" + "";
  }

  /** `setPathParameters(url, parameters)`; `None` is a falsy `parameters`. */
  method SetPathParameters(url: string, parameters: Option<seq<(string, string)>>) returns (r: string)
    ensures parameters.None? ==> r == url
    ensures parameters.Some? ==> r == WithPathParameters(url, parameters.value)
  {
    if parameters.None? {
      return url;
    }
    r := url;
    var i := 0;
    while i < |parameters.value|
      invariant 0 <= i <= |parameters.value|
      invariant WithPathParameters(r, parameters.value[i..]) == WithPathParameters(url, parameters.value)
    {
      assert parameters.value[i..][1..] == parameters.value[i + 1..];
      r := ReplacePlaceholder(r, parameters.value[i].0, parameters.value[i].1);
      i := i + 1;
    }
  }

  // ---------------------------------------------------------------- parseHeaders

  /** `const [key, val] = line.split(":")`: the text before the first colon and the text
      between the first and the second (`undefined` when there is no colon). */
  function HeaderLine(line: string): (string, Value) {
    var parts := Split(line, ":");
    (parts[0], if |parts| > 1 then Str(parts[1]) else Undefined)
  }

  /** One line into the map: empty lines, empty keys and keys already present are skipped. */
  function AddHeaderLine(m: map<string, Value>, line: string): map<string, Value> {
    if line == "" then m
    else
      var kv := HeaderLine(line);
      if kv.0 == "" || kv.0 in m then m else m[kv.0 := kv.1]
  }

  function AddHeaderLines(m: map<string, Value>, lines: seq<string>): map<string, Value>
    decreases |lines|
  {
    if lines == [] then m else AddHeaderLines(AddHeaderLine(m, lines[0]), lines[1..])
  }

  /** The map `parseHeaders(raw)` builds from the lines of `getAllResponseHeaders()`. */
  function ParsedHeaders(raw: string): map<string, Value> {
    if raw == "" then map[] else AddHeaderLines(map[], Split(raw, "\r\n"))
  }

  /** `parseHeaders`, line by line. */
  method ParseHeaders(raw: string) returns (m: map<string, Value>)
    ensures m == ParsedHeaders(raw)
  {
    m := map[];
    if raw == "" {
      return;
    }
    var lines := Split(raw, "\r\n");
    var i := 0;
    while i < |lines|
      invariant 0 <= i <= |lines|
      invariant AddHeaderLines(m, lines[i..]) == ParsedHeaders(raw)
    {
      assert lines[i..][1..] == lines[i + 1..];
      var line := lines[i];
      if line != "" {
        var parts := Split(line, ":");
        var key := parts[0];
        if key != "" && key !in m {
          m := m[key := if |parts| > 1 then Str(parts[1]) else Undefined];
        }
      }
      i := i + 1;
    }
  }

  /** A key, once read, is never overridden by a later line. */
  lemma {:induction false} HeaderLinesKeepFirst(m: map<string, Value>, lines: seq<string>, k: string)
    requires k in m
    ensures k in AddHeaderLines(m, lines) && AddHeaderLines(m, lines)[k] == m[k]
    decreases |lines|
  {
    if lines != [] {
      HeaderLinesKeepFirst(AddHeaderLine(m, lines[0]), lines[1..], k);
    }
  }

  /** Nothing but the lines adds keys. */
  lemma {:induction false} HeaderLinesOnlyAdd(m: map<string, Value>, lines: seq<string>)
    ensures m.Keys <= AddHeaderLines(m, lines).Keys
    ensures forall k :: k in AddHeaderLines(m, lines) && k !in m ==>
              exists i :: 0 <= i < |lines| && lines[i] != "" && HeaderLine(lines[i]).0 == k
    decreases |lines|
  {
    if lines != [] {
      var m1 := AddHeaderLine(m, lines[0]);
      HeaderLinesOnlyAdd(m1, lines[1..]);
      forall k | k in AddHeaderLines(m, lines) && k !in m
        ensures exists i :: 0 <= i < |lines| && lines[i] != "" && HeaderLine(lines[i]).0 == k
      {
        if k in m1 {
          assert lines[0] != "" && HeaderLine(lines[0]).0 == k;
        } else {
          var i :| 0 <= i < |lines[1..]| && lines[1..][i] != "" && HeaderLine(lines[1..][i]).0 == k;
          assert lines[i + 1] == lines[1..][i];
        }
      }
    }
  }

  /** The first line with a given key decides its value. */
  lemma {:induction false} HeaderLinesFirstWins(m: map<string, Value>, lines: seq<string>, i: nat)
    requires i < |lines| && lines[i] != ""
    requires HeaderLine(lines[i]).0 != "" && HeaderLine(lines[i]).0 !in m
    requires forall j :: 0 <= j < i ==> lines[j] == "" || HeaderLine(lines[j]).0 != HeaderLine(lines[i]).0
    ensures var k := HeaderLine(lines[i]).0;
            k in AddHeaderLines(m, lines) && AddHeaderLines(m, lines)[k] == HeaderLine(lines[i]).1
    decreases i
  {
    var m1 := AddHeaderLine(m, lines[0]);
    if i == 0 {
      HeaderLinesKeepFirst(m1, lines[1..], HeaderLine(lines[0]).0);
    } else {
      assert lines[1..][i - 1] == lines[i];
      forall j | 0 <= j < i - 1
        ensures lines[1..][j] == "" || HeaderLine(lines[1..][j]).0 != HeaderLine(lines[i]).0
      {
        assert lines[1..][j] == lines[j + 1];
      }
      HeaderLinesFirstWins(m1, lines[1..], i - 1);
    }
  }

  /** Only the text between the first and second colon is kept, so a value holding a
      colon is cut short. */
  lemma HeaderLineCutsAtSecondColon()
    ensures HeaderLine("a:b:c") == ("a", Str("b"))
    ensures HeaderLine("etag") == ("etag", Undefined)
  {
    var parts := ["a", "b", "c"];
    assert Join(parts, ":") == "a:b:c";
    SplitJoin(parts, ':');
    SplitNoChar("etag", ':');
  }
}
