/** The deployment environments of an application (environment/src/index.ts): `init`
    normalises a table of environments, keeps them in a `State` object with the context
    "Environment", and picks the current one (prod, then production, or the one whose ui
    host is the page's host); `set` switches to a named one. */
module Environments {
  import opened Wrappers
  import opened Text
  import opened JsValue
  import opened Ordered
  import opened StateRules
  import opened StateStore
  import opened StateObjects

  // ------------------------------------------------------------------ paths

  /** No two slashes in a row. */
  predicate NoDoubleSlash(s: string) {
    forall i :: 0 <= i < |s| - 1 ==> !(s[i] == '/' && s[i + 1] == '/')
  }

  /** `s.replace(/\/\/+/g, '/')`: every run of slashes becomes one slash. */
  function Collapse(s: string): (r: string)
    ensures NoDoubleSlash(r)
    ensures |s| > 0 ==> |r| > 0 && r[0] == s[0]
    decreases |s|
  {
    if |s| >= 2 && s[0] == '/' && s[1] == '/' then Collapse(s[1..])
    else if s == [] then []
    else
      var rest := Collapse(s[1..]);
      assert s[0] == '/' && |s| >= 2 ==> rest[0] != '/';
      [s[0]] + rest
  }

  /** Text without a double slash is left as it is. */
  lemma {:induction false} CollapseClean(s: string)
    requires NoDoubleSlash(s)
    ensures Collapse(s) == s
    decreases |s|
  {
    if s != [] {
      CollapseClean(s[1..]);
      assert s == [s[0]] + s[1..];
    }
  }

  /** Collapsing works piece by piece where the pieces do not meet at two slashes. */
  lemma {:induction false} CollapseAppend(a: string, b: string)
    requires !(|a| > 0 && |b| > 0 && a[|a| - 1] == '/' && b[0] == '/')
    ensures Collapse(a + b) == Collapse(a) + Collapse(b)
    decreases |a|
  {
    if a == [] {
      assert a + b == b;
    } else {
      assert (a + b)[1..] == a[1..] + b;
      CollapseAppend(a[1..], b);
    }
  }

  /** ":/" starts at index `i` of `s`. */
  predicate ColonSlashAt(s: string, i: int) {
    0 <= i && i + 1 < |s| && s[i] == ':' && s[i + 1] == '/'
  }

  /** The first index of ":/", or -1. */
  function FirstColonSlash(s: string): (r: int)
    ensures -1 <= r && (r >= 0 ==> r + 1 < |s|)
    decreases |s|
  {
    if |s| < 2 then -1
    else if s[0] == ':' && s[1] == '/' then 0
    else
      var k := FirstColonSlash(s[1..]);
      if k == -1 then -1 else k + 1
  }

  /** `FirstColonSlash` finds the first ":/", and -1 means there is none. */
  lemma {:induction false} FirstColonSlashFinds(s: string)
    ensures var r := FirstColonSlash(s);
            (r >= 0 ==> ColonSlashAt(s, r) && forall j :: 0 <= j < r ==> !ColonSlashAt(s, j)) &&
            (r == -1 ==> forall j :: 0 <= j < |s| ==> !ColonSlashAt(s, j))
    decreases |s|
  {
    if |s| >= 2 && !(s[0] == ':' && s[1] == '/') {
      var t := s[1..];
      FirstColonSlashFinds(t);
      var k := FirstColonSlash(t);
      forall j | 0 <= j < |s| ensures ColonSlashAt(s, j) <==> j > 0 && ColonSlashAt(t, j - 1) {
        if j > 0 {
          assert t[j - 1] == s[j];
          if j < |t| {
            assert t[j] == s[j + 1];
          }
        }
      }
      if k >= 0 {
        assert ColonSlashAt(s, k + 1);
      }
    }
  }

  /** `s.replace(/^(.*?)\:\//g, '$1://')`: the first ":/" gets its second slash back. */
  function RestoreScheme(s: string): string {
    var i := FirstColonSlash(s);
    if i < 0 then s else s[..i + 2] + "/" + s[i + 2..]
  }

  /** `joinPaths(...paths)`. */
  function JoinPaths(parts: seq<string>): string
    requires |parts| >= 1
  {
    RestoreScheme(Collapse(Join(parts, "/")))
  }

  /** Outside its scheme, a joined path has no double slash; with no ":/" in it, none at
      all. */
  lemma JoinPathsSlashes(parts: seq<string>)
    requires |parts| >= 1
    ensures var c := Collapse(Join(parts, "/"));
            var i := FirstColonSlash(c);
            var r := JoinPaths(parts);
            (i < 0 ==> r == c && NoDoubleSlash(r)) &&
            (i >= 0 ==> r == c[..i] + "://" + c[i + 2..] && NoDoubleSlash(c[..i] + ":/") && NoDoubleSlash("/" + c[i + 2..]))
  {
    RestoreSchemeSlashes(Collapse(Join(parts, "/")));
  }

  lemma RestoreSchemeSlashes(c: string)
    requires NoDoubleSlash(c)
    ensures var i := FirstColonSlash(c);
            var r := RestoreScheme(c);
            (i < 0 ==> r == c) &&
            (i >= 0 ==> r == c[..i] + "://" + c[i + 2..] && NoDoubleSlash(c[..i] + ":/") && NoDoubleSlash("/" + c[i + 2..]))
  {
    var i := FirstColonSlash(c);
    if i >= 0 {
      FirstColonSlashFinds(c);
      assert c[..i + 2] == c[..i] + ":/";
      NoDoubleSlashPrefix(c, i + 2);
      NoDoubleSlashAfterSlash(c, i + 1);
    }
  }

  lemma NoDoubleSlashPrefix(c: string, n: nat)
    requires NoDoubleSlash(c) && n <= |c|
    ensures NoDoubleSlash(c[..n])
  {
    forall i | 0 <= i < n - 1 ensures !(c[..n][i] == '/' && c[..n][i + 1] == '/') {
      assert c[..n][i] == c[i] && c[..n][i + 1] == c[i + 1];
    }
  }

  lemma NoDoubleSlashAfterSlash(c: string, k: nat)
    requires NoDoubleSlash(c) && k < |c| && c[k] == '/'
    ensures NoDoubleSlash("/" + c[k + 1..])
  {
    var t := "/" + c[k + 1..];
    forall i | 0 <= i < |t| - 1 ensures !(t[i] == '/' && t[i + 1] == '/') {
      assert t[i] == c[k + i] && t[i + 1] == c[k + i + 1];
    }
  }

  /** A host with a scheme and a base with a leading slash join with one slash between
      them, and the scheme keeps its "://". */
  lemma JoinHostAndBase(scheme: string, h: string, b: string)
    requires forall i :: 0 <= i < |scheme| ==> scheme[i] != ':' && scheme[i] != '/'
    requires h != [] && forall i :: 0 <= i < |h| ==> h[i] != '/'
    requires NoDoubleSlash(b) && (b != [] ==> b[0] != '/')
    ensures JoinPaths([scheme + "://" + h + "/", "/" + b]) == scheme + "://" + h + "/" + b
  {
    JoinHostAndBaseCollapse(scheme, h, b);
    RestoreSchemeAfter(scheme, h + "/" + b);
    assert scheme + "://" + (h + "/" + b) == scheme + "://" + h + "/" + b;
  }

  /** When `x` has no colon, the ":/" right after it is the first, and gets its second
      slash back. */
  lemma RestoreSchemeAfter(x: string, y: string)
    requires forall i :: 0 <= i < |x| ==> x[i] != ':'
    ensures RestoreScheme(x + ":/" + y) == x + "://" + y
  {
    var c := x + ":/" + y;
    assert ColonSlashAt(c, |x|);
    forall j | 0 <= j < |x| ensures !ColonSlashAt(c, j) {
      assert c[j] == x[j];
    }
    FirstColonSlashFinds(c);
    assert c[..|x| + 2] == x + ":/";
    assert c[|x| + 2..] == y;
  }

  lemma JoinTwo(x: string, y: string)
    ensures Join([x, y], "/") == x + "/" + y
  {
    assert [x, y][1..] == [y];
  }

  /** Collapsing the joined text leaves one slash after the colon and one before the base. */
  lemma JoinHostAndBaseCollapse(scheme: string, h: string, b: string)
    requires forall i :: 0 <= i < |scheme| ==> scheme[i] != '/'
    requires h != [] && forall i :: 0 <= i < |h| ==> h[i] != '/'
    requires NoDoubleSlash(b) && (b != [] ==> b[0] != '/')
    ensures Collapse(Join([scheme + "://" + h + "/", "/" + b], "/")) == scheme + ":/" + (h + "/" + b)
  {
    var p1 := scheme + ":";
    JoinedHostAndBase(scheme, h, b);
    assert NoDoubleSlash(p1) by {
      forall i | 0 <= i < |p1| - 1 ensures p1[i] != '/' {
        assert p1[i] == scheme[i];
      }
    }
    CollapseThree(p1, h, b);
    assert p1 + ("/" + h) + ("/" + b) == scheme + ":/" + (h + "/" + b);
  }

  /** The joined text, cut where the slashes run. */
  lemma JoinedHostAndBase(scheme: string, h: string, b: string)
    ensures Join([scheme + "://" + h + "/", "/" + b], "/") == (scheme + ":") + ("//" + h) + ("///" + b)
  {
    JoinTwo(scheme + "://" + h + "/", "/" + b);
  }

  /** Clean text ending in something other than a slash, two slashes and a host, three
      slashes and a clean base: each run of slashes becomes one. */
  lemma CollapseThree(p1: string, h: string, b: string)
    requires NoDoubleSlash(p1) && p1 != [] && p1[|p1| - 1] != '/'
    requires h != [] && forall i :: 0 <= i < |h| ==> h[i] != '/'
    requires NoDoubleSlash(b) && (b != [] ==> b[0] != '/')
    ensures Collapse(p1 + ("//" + h) + ("///" + b)) == p1 + ("/" + h) + ("/" + b)
  {
    var p2 := "//" + h;
    var p3 := "///" + b;
    assert (p1 + p2)[|p1 + p2| - 1] == h[|h| - 1];
    CollapseAppend(p1, p2);
    CollapseAppend(p1 + p2, p3);
    CollapseClean(p1);
    assert p2 == seq(2, _ => '/') + h;
    assert p3 == seq(3, _ => '/') + b;
    assert NoDoubleSlash(h);
    CollapseSlashes(h, 2);
    CollapseSlashes(b, 3);
  }

  /** A run of slashes in front of text without a double slash, that does not start with
      one, collapses to a single slash. */
  lemma {:induction false} CollapseSlashes(t: string, n: nat)
    requires n >= 1 && NoDoubleSlash(t) && (t != [] ==> t[0] != '/')
    ensures Collapse(seq(n, _ => '/') + t) == "/" + t
    decreases n
  {
    var u := seq(n, _ => '/') + t;
    if n == 1 {
      assert u == "/" + t;
      assert NoDoubleSlash(u) by {
        forall i | 0 <= i < |u| - 1 ensures !(u[i] == '/' && u[i + 1] == '/') {
          if i > 0 {
            assert u[i] == t[i - 1] && u[i + 1] == t[i];
          }
        }
      }
      CollapseClean(u);
    } else {
      assert u[0] == '/' && u[1] == '/';
      assert u[1..] == seq(n - 1, _ => '/') + t;
      CollapseSlashes(t, n - 1);
    }
  }

  /** `isRelativePath(p)`: `p` is not a string that starts with "http". */
  predicate IsRelativePath(p: Value) {
    !(p.Str? && StartsWith(p.s, "http"))
  }

  // ------------------------------------------------------------------ one environment

  /** `v.length` is truthy: what `init` asks of `uiHost` and `apiHost`. */
  predicate HasLength(v: Value) {
    Truthy(Prop(v, "length"))
  }

  /** An environment `init` keeps: non-empty ui and api hosts. */
  predicate Configured(env: Value) {
    HasLength(Prop(env, "uiHost")) && HasLength(Prop(env, "apiHost"))
  }

  /** `value.includes?.('localhost')`: for a string, the text occurs in it; for an array,
      it is an element; nothing else has the method. */
  predicate MentionsLocalhost(v: Value) {
    match v
    case Str(s) => Contains(s, "localhost")
    case Arr(a) => Str("localhost") in a
    case _ => false
  }

  /** The text `join` gives a value: strings as they are, anything else as `display`
      spells it. */
  function TextOf(v: Value, display: Value -> string): string {
    if v.Str? then v.s else display(v)
  }

  /** `joinPaths(host, base)` on the text of two fields. */
  function HostPath(host: Value, base: Value, display: Value -> string): string {
    JoinPaths([TextOf(host, display), TextOf(base, display)])
  }

  /** `navigatorType` after `init`. The conditional binds looser than `||`, so the line
      reads `(navigatorType || uiHost.includes('localhost')) ? 'browser' : 'memory'`: any
      given type, like a local ui host, gives "browser". */
  function NavigatorType(given: Value, uiHost: Value): (r: Value)
    ensures r == Str("browser") || r == Str("memory")
    ensures r == Str("browser") <==> Truthy(given) || MentionsLocalhost(uiHost)
  {
    if Truthy(given) || MentionsLocalhost(uiHost) then Str("browser") else Str("memory")
  }

  /** The reading with the conditional grouped under `||`: a given type is kept, and
      only a missing one is chosen by the ui host. */
  function NavigatorTypeGrouped(given: Value, uiHost: Value): (r: Value)
    ensures Truthy(given) ==> r == given
    ensures !Truthy(given) ==> (r == Str("browser") <==> MentionsLocalhost(uiHost))
    ensures !Truthy(given) ==> (r == Str("memory") <==> !MentionsLocalhost(uiHost))
  {
    Or(given, if MentionsLocalhost(uiHost) then Str("browser") else Str("memory"))
  }

  /** A given type "memory" on a remote host still becomes "browser". */
  lemma GivenNavigatorTypeLost()
    ensures NavigatorType(Str("memory"), Str("https://example.com")) == Str("browser")
    ensures NavigatorTypeGrouped(Str("memory"), Str("https://example.com")) == Str("memory")
  {
  }

  /** The two readings differ exactly on a given type other than "browser". */
  lemma NavigatorReadingsDiffer(given: Value, uiHost: Value)
    ensures NavigatorType(given, uiHost) != NavigatorTypeGrouped(given, uiHost) <==> Truthy(given) && given != Str("browser")
  {
  }

  /** A kept environment with its defaults and computed paths. */
  function Normalise(envName: string, m: map<string, Value>, display: Value -> string): map<string, Value> {
    WithPaths(WithDefaults(envName, m), display)
  }

  /** The first assignments of the loop body: the name and the three bases default, the
      asset host falls back to the ui host. */
  function WithDefaults(envName: string, m: map<string, Value>): map<string, Value> {
    var env := Obj(m);
    m["name" := Or(Prop(env, "name"), Str(envName))]
     ["uiBase" := Or(Prop(env, "uiBase"), Str("/"))]
     ["apiBase" := Or(Prop(env, "apiBase"), Str("/"))]
     ["assetBase" := Or(Prop(env, "assetBase"), Str("/"))]
     ["assetHost" := Or(Prop(env, "assetHost"), Prop(env, "uiHost"))]
  }

  /** The later assignments, which read the defaulted fields: the three paths and the
      navigator type. */
  function WithPaths(d: map<string, Value>, display: Value -> string): map<string, Value> {
    var env := Obj(d);
    d["apiPath" := Str(HostPath(Prop(env, "apiHost"), Prop(env, "apiBase"), display))]
     ["uiPath" := Str(HostPath(Prop(env, "uiHost"), Prop(env, "uiBase"), display))]
     ["assetPath" := Str(HostPath(Prop(env, "assetHost"), Prop(env, "assetBase"), display))]
     ["navigatorType" := NavigatorType(Prop(env, "navigatorType"), Prop(env, "uiHost"))]
  }

  const DefaultedKeys: set<string> := {"name", "uiBase", "apiBase", "assetBase", "assetHost"}
  const PathKeys: set<string> := {"apiPath", "uiPath", "assetPath", "navigatorType"}
  const NormalisedKeys: set<string> := DefaultedKeys + PathKeys

  /** The first assignments: the key of the entry as name, "/" for each base, the ui host
      for assets; every other field is left alone. */
  lemma NormaliseDefaults(envName: string, m: map<string, Value>)
    ensures var d := WithDefaults(envName, m);
            var get := (k: string) => if k in m then m[k] else Undefined;
            d["name"] == (if Truthy(get("name")) then get("name") else Str(envName)) &&
            d["uiBase"] == (if Truthy(get("uiBase")) then get("uiBase") else Str("/")) &&
            d["apiBase"] == (if Truthy(get("apiBase")) then get("apiBase") else Str("/")) &&
            d["assetBase"] == (if Truthy(get("assetBase")) then get("assetBase") else Str("/")) &&
            d["assetHost"] == (if Truthy(get("assetHost")) then get("assetHost") else get("uiHost"))
    ensures var d := WithDefaults(envName, m);
            forall k :: k !in DefaultedKeys ==> (k in d <==> k in m) && (k in m ==> d[k] == m[k])
  {
  }

  /** The later assignments: each path joins a host and its (already defaulted) base;
      every other field is left alone. */
  lemma NormalisePaths(d: map<string, Value>, display: Value -> string)
    ensures var n := WithPaths(d, display);
            var get := (k: string) => if k in d then d[k] else Undefined;
            n["apiPath"] == Str(HostPath(get("apiHost"), get("apiBase"), display)) &&
            n["uiPath"] == Str(HostPath(get("uiHost"), get("uiBase"), display)) &&
            n["assetPath"] == Str(HostPath(get("assetHost"), get("assetBase"), display))
    ensures var n := WithPaths(d, display);
            forall k :: k !in PathKeys ==> (k in n <==> k in d) && (k in d ==> n[k] == d[k])
  {
  }

  /** The navigator type is "browser" exactly when one was given or the ui host mentions
      localhost. */
  lemma NormaliseNavigatorType(d: map<string, Value>, display: Value -> string)
    ensures var n := WithPaths(d, display);
            var given := if "navigatorType" in d then d["navigatorType"] else Undefined;
            var uiHost := if "uiHost" in d then d["uiHost"] else Undefined;
            n["navigatorType"] == Str(if Truthy(given) || MentionsLocalhost(uiHost) then "browser" else "memory")
  {
  }

  /** Missing bases default to "/", which is relative; given relative bases stay. */
  lemma DefaultBasesAreRelative(envName: string, m: map<string, Value>)
    requires forall k :: k in {"uiBase", "apiBase", "assetBase"} && k in m ==> IsRelativePath(m[k])
    ensures var d := WithDefaults(envName, m);
            IsRelativePath(d["uiBase"]) && IsRelativePath(d["apiBase"]) && IsRelativePath(d["assetBase"])
  {
    assert IsRelativePath(Str("/"));
  }

  // ------------------------------------------------------------------ the table

  /** The environments of `init`, in the order of `config`: each configured entry under
      its lower-cased name (a later spelling of the same name replaces the value in the
      earlier one's place). */
  function EnvironmentsOf(config: Entries, display: Value -> string): (envs: Entries)
    ensures UniqueNames(envs)
    decreases |config|
  {
    if config == [] then []
    else
      var acc := EnvironmentsOf(config[..|config| - 1], display);
      var (name, env) := config[|config| - 1];
      if Configured(env) && env.Obj? then Put(acc, Lower(name), Obj(Normalise(name, env.fields, display))) else acc
  }

  /** A configured environment is a plain object. */
  lemma ConfiguredIsObject(env: Value)
    requires Configured(env)
    ensures env.Obj?
  {
  }

  /** Some configured entry of `config` has the lower-cased name `k`. */
  predicate NamedIn(config: Entries, k: string) {
    exists i :: 0 <= i < |config| && Configured(config[i].1) && Lower(config[i].0) == k
  }

  /** The names of the table are the lower-cased names of the configured entries. */
  lemma {:induction false} EnvironmentNames(config: Entries, display: Value -> string, k: string)
    ensures k in Names(EnvironmentsOf(config, display)) <==> NamedIn(config, k)
    decreases |config|
  {
    if config != [] {
      var front := config[..|config| - 1];
      EnvironmentNames(front, display, k);
      EnvironmentNamesStep(config, display);
      NamedInStep(config, k);
    }
  }

  lemma EnvironmentNamesStep(config: Entries, display: Value -> string)
    requires config != []
    ensures var last := config[|config| - 1];
            Names(EnvironmentsOf(config, display)) ==
            Names(EnvironmentsOf(config[..|config| - 1], display)) + (if Configured(last.1) then {Lower(last.0)} else {})
  {
    var last := config[|config| - 1];
    if Configured(last.1) {
      ConfiguredIsObject(last.1);
    }
  }

  lemma NamedInStep(config: Entries, k: string)
    requires config != []
    ensures var last := config[|config| - 1];
            NamedIn(config, k) <==> NamedIn(config[..|config| - 1], k) || (Configured(last.1) && Lower(last.0) == k)
  {
    var front := config[..|config| - 1];
    var last := config[|config| - 1];
    if NamedIn(front, k) {
      var i :| 0 <= i < |front| && Configured(front[i].1) && Lower(front[i].0) == k;
      assert config[i] == front[i];
    }
    if Configured(last.1) && Lower(last.0) == k {
      assert config[|config| - 1] == last;
    }
    if NamedIn(config, k) {
      var i :| 0 <= i < |config| && Configured(config[i].1) && Lower(config[i].0) == k;
      if i < |front| {
        assert front[i] == config[i];
      }
    }
  }

  /** The last configured entry of a name decides its environment. */
  lemma LastEntryDecides(config: Entries, name: string, env: map<string, Value>, display: Value -> string)
    requires Configured(Obj(env))
    ensures Lookup(EnvironmentsOf(config + [(name, Obj(env))], display), Lower(name)) == Some(Obj(Normalise(name, env, display)))
  {
    assert (config + [(name, Obj(env))])[..|config|] == config;
  }

  /** An entry that is not configured leaves the table as it was. */
  lemma UnconfiguredSkipped(config: Entries, name: string, env: Value, display: Value -> string)
    requires !Configured(env)
    ensures EnvironmentsOf(config + [(name, env)], display) == EnvironmentsOf(config, display)
  {
    assert (config + [(name, env)])[..|config|] == config;
  }

  // ------------------------------------------------------------------ the current one

  /** `uiHost.replace(/^https?:\/\//, '')`. */
  function StripScheme(s: string): string {
    if StartsWith(s, "https://") then s[8..] else if StartsWith(s, "http://") then s[7..] else s
  }

  function DropDigits(s: string): (r: string)
    ensures |r| <= |s|
    ensures r != [] ==> !IsDigit(r[0])
    decreases |s|
  {
    if s != [] && IsDigit(s[0]) then DropDigits(s[1..]) else s
  }

  /** `host.replace(/:[0-9]+/, '')`: the first ':' that a digit follows goes, with the
      digits after it. */
  function StripPort(s: string): string
    decreases |s|
  {
    if |s| >= 2 && s[0] == ':' && IsDigit(s[1]) then DropDigits(s[1..])
    else if s == [] then [] else [s[0]] + StripPort(s[1..])
  }

  /** The host an environment is detected by. */
  function EnvHost(uiHost: string): string {
    StripPort(StripScheme(uiHost))
  }

  /** A ui host "<scheme>://<host>:<port>" is detected by its bare host. */
  lemma {:induction false} EnvHostOfUrl(h: string, port: nat, secure: bool)
    requires forall i :: 0 <= i < |h| ==> h[i] != ':'
    ensures EnvHost((if secure then "https://" else "http://") + h + ":" + NatToString(port)) == h
    ensures EnvHost((if secure then "https://" else "http://") + h) == h
  {
    var scheme := if secure then "https://" else "http://";
    var u := scheme + h + ":" + NatToString(port);
    assert StripScheme(u) == h + ":" + NatToString(port) by {
      assert u[..|scheme|] == scheme;
      assert u[|scheme|..] == h + ":" + NatToString(port);
      if !secure { assert !StartsWith(u, "https://") by { assert u[4] == ':'; } }
    }
    StripPortOfSuffix(h, NatToString(port));
    var v := scheme + h;
    assert StripScheme(v) == h by {
      assert v[..|scheme|] == scheme;
      assert v[|scheme|..] == h;
      if !secure { assert |v| < 8 || !StartsWith(v, "https://") by { if |v| >= 8 { assert v[4] == ':'; } } }
    }
    StripPortWithoutColon(h);
  }

  lemma {:induction false} StripPortOfSuffix(h: string, digits: string)
    requires forall i :: 0 <= i < |h| ==> h[i] != ':'
    requires IsDigits(digits)
    ensures StripPort(h + ":" + digits) == h
    decreases |h|
  {
    if h == [] {
      assert (":" + digits)[1..] == digits;
      DropAllDigits(digits);
    } else {
      assert (h + ":" + digits)[1..] == h[1..] + ":" + digits;
      StripPortOfSuffix(h[1..], digits);
      assert h == [h[0]] + h[1..];
    }
  }

  lemma {:induction false} DropAllDigits(s: string)
    requires forall i :: 0 <= i < |s| ==> IsDigit(s[i])
    ensures DropDigits(s) == []
    decreases |s|
  {
    if s != [] {
      DropAllDigits(s[1..]);
    }
  }

  lemma {:induction false} StripPortWithoutColon(h: string)
    requires forall i :: 0 <= i < |h| ==> h[i] != ':'
    ensures StripPort(h) == h
    decreases |h|
  {
    if h != [] {
      StripPortWithoutColon(h[1..]);
      assert h == [h[0]] + h[1..];
    }
  }

  /** `uiHost.replace?.(/^https?:\/\//, '').replace(/:[0-9]+/, '')`: a ui host without a
      `replace` method short-circuits the whole chain to `undefined` (`None`). */
  function EnvHostOf(uiHost: Value): Option<string> {
    if uiHost.Str? then Some(EnvHost(uiHost.s)) else Option.None
  }

  /** `envHost === currentHost`, where `currentHost` is the page's lower-cased host, or
      `undefined` when there is none. */
  predicate HostMatches(uiHost: Value, hostname: Option<string>) {
    EnvHostOf(uiHost) == (if hostname.Some? then Some(Lower(hostname.value)) else Option.None)
  }

  /** The auto-detect loop: the first environment whose host is the page's host. */
  function Detect(envs: Entries, hostname: Option<string>): Option<Value>
    decreases |envs|
  {
    if envs == [] then Option.None
    else if HostMatches(Prop(envs[0].1, "uiHost"), hostname) then Some(envs[0].1)
    else Detect(envs[1..], hostname)
  }

  /** Detection picks the first match: the environment found matches, and none before it
      does; nothing is found only when nothing matches. */
  lemma {:induction false} DetectFirstMatch(envs: Entries, hostname: Option<string>)
    ensures Detect(envs, hostname).Some? ==>
              exists i :: 0 <= i < |envs| && envs[i].1 == Detect(envs, hostname).value &&
                HostMatches(Prop(envs[i].1, "uiHost"), hostname) &&
                forall j :: 0 <= j < i ==> !HostMatches(Prop(envs[j].1, "uiHost"), hostname)
    ensures Detect(envs, hostname).None? <==> forall i :: 0 <= i < |envs| ==> !HostMatches(Prop(envs[i].1, "uiHost"), hostname)
    decreases |envs|
  {
    if envs != [] {
      DetectFirstMatch(envs[1..], hostname);
      assert forall j :: 0 < j < |envs| ==> envs[j] == envs[1..][j - 1];
      if !HostMatches(Prop(envs[0].1, "uiHost"), hostname) && Detect(envs, hostname).Some? {
        var i :| 0 <= i < |envs[1..]| && envs[1..][i].1 == Detect(envs, hostname).value &&
                 HostMatches(Prop(envs[1..][i].1, "uiHost"), hostname) &&
                 forall j :: 0 <= j < i ==> !HostMatches(Prop(envs[1..][j].1, "uiHost"), hostname);
        assert envs[i + 1] == envs[1..][i];
      }
    }
  }

  /** A ui host "<scheme>://<host>:<port>" is detected on the page of that host, whatever
      the case of the page's host name. */
  lemma DetectsOwnHost(h: string, port: nat, secure: bool, page: string)
    requires forall i :: 0 <= i < |h| ==> h[i] != ':'
    requires Lower(page) == h
    ensures HostMatches(Str((if secure then "https://" else "http://") + h + ":" + NatToString(port)), Some(page))
  {
    EnvHostOfUrl(h, port, secure);
  }

  /** Without a page host, only an environment whose ui host is not a string (an array,
      say) is detected; with one, such an environment never is. */
  lemma DetectNonStringHost(uiHost: Value, hostname: Option<string>)
    requires !uiHost.Str?
    ensures HostMatches(uiHost, hostname) <==> hostname.None?
  {
  }

  /** The environment `init` makes current: prod, else production, else `{}`; with
      auto-detection, the detected one wins. */
  function CurrentOf(envs: Entries, autoDetect: bool, hostname: Option<string>): Value {
    var fixed := Or(Or(Lookup(envs, "prod").GetOr(Undefined), Lookup(envs, "production").GetOr(Undefined)), Obj(map[]));
    if !autoDetect then fixed else Detect(envs, hostname).GetOr(fixed)
  }

  /** The environments of a kept table are objects, so a prod environment is truthy. */
  lemma CurrentDefaults(config: Entries, display: Value -> string)
    ensures var envs := EnvironmentsOf(config, display);
            var c := CurrentOf(envs, false, Option.None);
            ("prod" in Names(envs) ==> c == Lookup(envs, "prod").value) &&
            ("prod" !in Names(envs) && "production" in Names(envs) ==> c == Lookup(envs, "production").value) &&
            ("prod" !in Names(envs) && "production" !in Names(envs) ==> c == Obj(map[]))
  {
    var envs := EnvironmentsOf(config, display);
    EnvironmentsAreObjects(config, display);
    if "prod" in Names(envs) {
      LookupFinds(envs, "prod");
    } else if "production" in Names(envs) {
      LookupFinds(envs, "production");
    }
  }

  lemma {:induction false} EnvironmentsAreObjects(config: Entries, display: Value -> string)
    ensures forall e :: e in EnvironmentsOf(config, display) ==> e.1.Obj?
    decreases |config|
  {
    if config != [] {
      var acc := EnvironmentsOf(config[..|config| - 1], display);
      EnvironmentsAreObjects(config[..|config| - 1], display);
      var (name, env) := config[|config| - 1];
      if Configured(env) && env.Obj? {
        PutKeepsObjects(acc, Lower(name), Obj(Normalise(name, env.fields, display)));
      }
    }
  }

  lemma {:induction false} PutKeepsObjects(h: Entries, name: string, v: Value)
    requires v.Obj? && forall e :: e in h ==> e.1.Obj?
    ensures forall e :: e in Put(h, name, v) ==> e.1.Obj?
    decreases |h|
  {
    if h != [] && h[0].0 != name {
      PutKeepsObjects(h[1..], name, v);
      assert forall e :: e in Put(h, name, v) ==> e == h[0] || e in Put(h[1..], name, v);
    }
  }

  // ------------------------------------------------------------------ the operations

  /** `Environment.init(config, {autoDetect})` on a `State` with back end `b`, stores `s`
      and context `context`; `config` is `None` when falsy, `hostname` the page's host
      (`None` when there is none). */
  function InitSpec(b: Backend, s: Stores, context: string, config: Option<Entries>, autoDetect: bool,
                    hostname: Option<string>, display: Value -> string): (Result<(), StateError>, Stores) {
    if config.None? || |config.value| == 0 then (Ok(()), s)
    else
      var envs := EnvironmentsOf(config.value, display);
      var (w, s1) := SetSpec(b, s, context, Str("environments"), Obj(ToMap(envs)), false, false);
      if w.Err? then (w, s1)
      else SetSpec(b, s1, context, Str("currentEnvironment"), CurrentOf(envs, autoDetect, hostname), false, false)
  }

  /** A falsy or empty configuration stores nothing. */
  lemma InitWithoutConfig(b: Backend, s: Stores, context: string, config: Option<Entries>, autoDetect: bool,
                          hostname: Option<string>, display: Value -> string)
    requires config.None? || config.value == []
    ensures InitSpec(b, s, context, config, autoDetect, hostname, display) == (Ok(()), s)
  {
  }

  /** The writes of `init` are session writes, which no back end refuses. */
  lemma InitSucceeds(b: Backend, s: Stores, context: string, config: Option<Entries>, autoDetect: bool,
                     hostname: Option<string>, display: Value -> string)
    ensures InitSpec(b, s, context, config, autoDetect, hostname, display).0 == Ok(())
  {
  }

  /** The current environment is one of the table's objects, or `{}`. */
  lemma CurrentIsObject(config: Entries, autoDetect: bool, hostname: Option<string>, display: Value -> string)
    ensures CurrentOf(EnvironmentsOf(config, display), autoDetect, hostname).Obj?
  {
    var envs := EnvironmentsOf(config, display);
    EnvironmentsAreObjects(config, display);
    DetectFirstMatch(envs, hostname);
    if "prod" in Names(envs) {
      LookupFinds(envs, "prod");
    }
    if "production" in Names(envs) {
      LookupFinds(envs, "production");
    }
    if autoDetect && Detect(envs, hostname).Some? {
      var i :| 0 <= i < |envs| && envs[i].1 == Detect(envs, hostname).value;
      assert envs[i] in envs;
    }
  }

  /** After `init` with a non-empty configuration, `current` reads the environment `init`
      chose (through the JSON round trip of Web Storage). */
  lemma {:induction false} InitThenCurrent(b: Backend, s: Stores, context: string, config: Entries, autoDetect: bool,
                                           hostname: Option<string>, display: Value -> string)
    requires config != []
    ensures var c := CurrentOf(EnvironmentsOf(config, display), autoDetect, hostname);
            CurrentSpec(b, InitSpec(b, s, context, Some(config), autoDetect, hostname, display).1, context).0 ==
              Ok(if b == Mem then c else Json(c))
  {
    var envs := EnvironmentsOf(config, display);
    var c := CurrentOf(envs, autoDetect, hostname);
    CurrentIsObject(config, autoDetect, hostname, display);
    var s1 := SetSpec(b, s, context, Str("environments"), Obj(ToMap(envs)), false, false).1;
    if b == Mem {
      MemSetThenGet(s1, context, "currentEnvironment", c, false, false, Obj(map[]));
    } else {
      WebSetThenGet(b, s1, context, "currentEnvironment", c, false, false, Obj(map[]));
    }
  }

  /** The key `set` looks an environment up by: the lower-cased name, or "undefined"
      for a name without `toLowerCase`. */
  function SetKey(envName: Value): string {
    if envName.Str? then Lower(envName.s) else "undefined"
  }

  /** `Environment.set(envName)`. */
  function SetEnvSpec(b: Backend, s: Stores, context: string, envName: Value): (Result<(), StateError>, Stores) {
    var (envs, s1) := GetSpec(b, s, context, Str("environments"), Obj(map[]), false);
    if envs.Err? then (Err(envs.error), s1)
    else
      var env := Prop(envs.value, SetKey(envName));
      if !Truthy(env) then (Ok(()), s1)
      else SetSpec(b, s1, context, Str("currentEnvironment"), env, false, false)
  }

  /** `Environment.current`. */
  function CurrentSpec(b: Backend, s: Stores, context: string): (Result<Value, StateError>, Stores) {
    GetSpec(b, s, context, Str("currentEnvironment"), Obj(map[]), false)
  }

  /** `set` with a name that has no environment leaves the current one as it was. */
  lemma SetUnknownKeepsCurrent(b: Backend, s: Stores, context: string, envName: Value)
    requires var envs := GetSpec(b, s, context, Str("environments"), Obj(map[]), false).0;
             envs.Ok? && !Truthy(Prop(envs.value, SetKey(envName)))
    ensures CurrentSpec(b, SetEnvSpec(b, s, context, envName).1, context).0 == CurrentSpec(b, s, context).0
  {
    GetKeepsReads(b, s, context, Str("environments"), Obj(map[]), false, Str("currentEnvironment"), Obj(map[]), false);
  }

  /** `set` with a known name makes that environment current: `MemState` gives it back
      itself, the Web back ends as the parse of its JSON round trip. */
  lemma SetKnownSwitches(b: Backend, s: Stores, context: string, envName: Value)
    requires var envs := GetSpec(b, s, context, Str("environments"), Obj(map[]), false).0;
             envs.Ok? && Truthy(Prop(envs.value, SetKey(envName)))
    ensures SetEnvSpec(b, s, context, envName).0.Ok?
    ensures var env := Prop(GetSpec(b, s, context, Str("environments"), Obj(map[]), false).0.value, SetKey(envName));
            CurrentSpec(b, SetEnvSpec(b, s, context, envName).1, context).0 ==
              if b == Mem then Ok(env) else ParseItem(Json(env))
  {
    var (envs, s1) := GetSpec(b, s, context, Str("environments"), Obj(map[]), false);
    var env := Prop(envs.value, SetKey(envName));
    assert Truthy(env);
    if b == Mem {
      MemSetThenGet(s1, context, "currentEnvironment", env, false, false, Obj(map[]));
    } else {
      WebSetThenGet(b, s1, context, "currentEnvironment", env, false, false, Obj(map[]));
    }
  }

  /** The environment methods, over the `State` object of the context "Environment". */
  class Environment {
    const state: State

    constructor (state: State)
      ensures this.state == state
    {
      this.state := state;
    }

    /** `Environment.init(config, {autoDetect})`. */
    method Init(config: Option<Entries>, autoDetect: bool, hostname: Option<string>, display: Value -> string)
      returns (r: Result<(), StateError>)
      requires state.Valid()
      modifies state, state.sessionStorage, state.localStorage
      ensures (r, state.StoresOf()) == InitSpec(state.backend, old(state.StoresOf()), state.context, config, autoDetect, hostname, display)
    {
      if config.None? || |config.value| == 0 {
        return Ok(());
      }
      var envs := Build(config.value, display);
      r := state.Set(Str("environments"), Obj(ToMap(envs)), false, false);
      if r.Err? {
        return;
      }
      var current := Detected(envs, autoDetect, hostname);
      r := state.Set(Str("currentEnvironment"), current, false, false);
    }

    /** The loop of `init` over `Object.entries(config)`. */
    method Build(entries: Entries, display: Value -> string) returns (envs: Entries)
      ensures envs == EnvironmentsOf(entries, display)
    {
      envs := [];
      var i := 0;
      while i < |entries|
        invariant 0 <= i <= |entries|
        invariant envs == EnvironmentsOf(entries[..i], display)
      {
        assert entries[..i + 1][..i] == entries[..i];
        var (name, env) := entries[i];
        if Configured(env) && env.Obj? {
          envs := Put(envs, Lower(name), Obj(Normalise(name, env.fields, display)));
        }
        i := i + 1;
      }
      assert entries[..i] == entries;
    }

    /** The choice of the current environment, with its auto-detect loop. */
    method Detected(envs: Entries, autoDetect: bool, hostname: Option<string>) returns (current: Value)
      ensures current == CurrentOf(envs, autoDetect, hostname)
    {
      current := Or(Or(Lookup(envs, "prod").GetOr(Undefined), Lookup(envs, "production").GetOr(Undefined)), Obj(map[]));
      if !autoDetect {
        return;
      }
      var currentHost := if hostname.Some? then Some(Lower(hostname.value)) else Option.None;
      var i := 0;
      while i < |envs|
        invariant 0 <= i <= |envs|
        invariant Detect(envs[i..], hostname) == Detect(envs, hostname)
      {
        assert envs[i..][1..] == envs[i + 1..];
        if EnvHostOf(Prop(envs[i].1, "uiHost")) == currentHost {
          return envs[i].1;
        }
        i := i + 1;
      }
    }

    /** `Environment.set(envName)`. */
    method Set(envName: Value) returns (r: Result<(), StateError>)
      requires state.Valid()
      modifies state, state.sessionStorage, state.localStorage
      ensures (r, state.StoresOf()) == SetEnvSpec(state.backend, old(state.StoresOf()), state.context, envName)
    {
      var envs := state.Get(Str("environments"), Obj(map[]), false);
      if envs.Err? {
        return Err(envs.error);
      }
      var env := Prop(envs.value, SetKey(envName));
      if !Truthy(env) {
        return Ok(());
      }
      r := state.Set(Str("currentEnvironment"), env, false, false);
    }

    /** `Environment.current`. */
    method Current() returns (r: Result<Value, StateError>)
      requires state.Valid()
      modifies state.sessionStorage
      ensures (r, state.StoresOf()) == CurrentSpec(state.backend, old(state.StoresOf()), state.context)
    {
      r := state.Get(Str("currentEnvironment"), Obj(map[]), false);
    }
  }
}
