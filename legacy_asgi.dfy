/**
 * The first, self-contained ASGI application of the repository
 * (`src/asgi.py`): routes are kept in a dict from path to a dict from
 * method to the route, each path compiled to an anchored regular
 * expression; a request goes to the first route, in registration order
 * of the paths, whose method and pattern fit, and is answered with the
 * handler's result as JSON (200), or with 500, 405 or 404 error bodies.
 */
module LegacyAsgi {
  import opened Common
  import opened OrderedDict
  import opened Values
  import opened PathPattern
  import opened Chain
  import opened AsgiIo
  import opened Dispatch

  /** A registered route: its method, its path, its handler's parameter names and behaviour, and the compiled pattern. */
  datatype LegacyRoute = LegacyRoute(
    verb: string, path: string, params: seq<string>,
    handler: seq<Arg> -> Outcome, pattern: seq<Token>)

  /** `self._routes`: path to (method to route). */
  type Table = Dict<string, Dict<string, LegacyRoute>>

  /**
   * What registration keeps true: paths and methods are distinct keys, a
   * route sits under its own method and path, and its pattern is its
   * path compiled.
   */
  ghost predicate TableOk(t: Table) {
    UniqueKeys(t) && forall e :: e in t ==> EntryOk(e.0, e.1)
  }

  /** The method dict of one path. */
  ghost predicate EntryOk(path: string, d: Dict<string, LegacyRoute>) {
    UniqueKeys(d) && forall f :: f in d ==> RouteOk(path, f.0, f.1)
  }

  /** A route filed under `path` and `verb`. */
  ghost predicate RouteOk(path: string, verb: string, rt: LegacyRoute) {
    rt.verb == verb && rt.path == path && Compile(path) == Some(rt.pattern)
  }

  // ---------------------------------------------------------------------
  // Registration
  // ---------------------------------------------------------------------

  /**
   * `_register_route(method, path, handler)`: the table afterwards, and
   * whether compiling the path raised `re.error`. The per-path dict is
   * created before the pattern is compiled, so a bad path still leaves an
   * (empty) entry behind.
   */
  function Registered(t: Table, verb: string, path: string, params: seq<string>, handler: seq<Arg> -> Outcome): (Table, bool) {
    var inner := if path in Keys(t) then Get(t, path).value else [];
    var base := if path in Keys(t) then t else t + [(path, [])];
    match Compile(path)
    case None => (base, true)
    case Some(ts) => (Set(base, path, Set(inner, verb, LegacyRoute(verb, path, params, handler, ts))), false)
  }

  /** Registering keeps the table well formed. */
  lemma RegisteredOk(t: Table, verb: string, path: string, params: seq<string>, handler: seq<Arg> -> Outcome)
    requires TableOk(t)
    ensures TableOk(Registered(t, verb, path, params, handler).0)
  {
    var inner := if path in Keys(t) then Get(t, path).value else [];
    var base := if path in Keys(t) then t else t + [(path, [])];
    if path !in Keys(t) {
      SetNew(t, path, []);
      SetUnique(t, path, []);
    }
    assert TableOk(base);
    assert EntryOk(path, inner) by {
      if path in Keys(t) {
        assert (path, inner) in t;
      }
    }
    if Compile(path).Some? {
      var rt := LegacyRoute(verb, path, params, handler, Compile(path).value);
      InsertOk(base, path, inner, verb, rt);
    }
  }

  /** Filing a route under its own path and method keeps the table well formed. */
  lemma InsertOk(t: Table, path: string, inner: Dict<string, LegacyRoute>, verb: string, rt: LegacyRoute)
    requires TableOk(t) && EntryOk(path, inner) && RouteOk(path, verb, rt)
    ensures TableOk(Set(t, path, Set(inner, verb, rt)))
  {
    var inner' := Set(inner, verb, rt);
    SetUnique(inner, verb, rt);
    SetEntries(inner, verb, rt);
    assert EntryOk(path, inner');
    SetUnique(t, path, inner');
    SetEntries(t, path, inner');
  }

  /** After a successful registration the path's dict holds the new route under its method (the last registration wins). */
  lemma RegisteredFinds(t: Table, verb: string, path: string, params: seq<string>, handler: seq<Arg> -> Outcome)
    requires Compile(path).Some?
    ensures var (t', raised) := Registered(t, verb, path, params, handler);
            && !raised
            && Get(t', path).Some?
            && Get(Get(t', path).value, verb) == Some(LegacyRoute(verb, path, params, handler, Compile(path).value))
  {
    var inner := if path in Keys(t) then Get(t, path).value else [];
    var base := if path in Keys(t) then t else t + [(path, [])];
    var rt := LegacyRoute(verb, path, params, handler, Compile(path).value);
    GetSetSame(base, path, Set(inner, verb, rt));
    GetSetSame(inner, verb, rt);
  }

  /** A path that does not compile raises, and leaves the table with the path's (possibly new, empty) dict and nothing else changed. */
  lemma RegisteredBadPath(t: Table, verb: string, path: string, params: seq<string>, handler: seq<Arg> -> Outcome)
    requires Compile(path).None?
    ensures var (t', raised) := Registered(t, verb, path, params, handler);
            && raised
            && (path in Keys(t) ==> t' == t)
            && (path !in Keys(t) ==> t' == t + [(path, [])])
  {
  }

  /** Registration touches only its own path and method. */
  lemma RegisteredOthers(t: Table, verb: string, path: string, params: seq<string>, handler: seq<Arg> -> Outcome, path': string, verb': string)
    requires path' != path || verb' != verb
    requires path' in Keys(t) && Get(Get(t, path').value, verb').Some?
    ensures var t' := Registered(t, verb, path, params, handler).0;
            Get(t', path').Some? && Get(Get(t', path').value, verb') == Get(Get(t, path').value, verb')
  {
    var inner := if path in Keys(t) then Get(t, path).value else [];
    var base := if path in Keys(t) then t else t + [(path, [])];
    if path !in Keys(t) {
      SetNew(t, path, []);
      GetSetOther(t, path, [], path');
    }
    var t' := Registered(t, verb, path, params, handler).0;
    if path' != path {
      if Compile(path).Some? {
        GetSetOther(base, path, Set(inner, verb, LegacyRoute(verb, path, params, handler, Compile(path).value)), path');
      }
    } else {
      if Compile(path).Some? {
        var rt := LegacyRoute(verb, path, params, handler, Compile(path).value);
        GetSetSame(base, path, Set(inner, verb, rt));
        GetSetOther(inner, verb, rt, verb');
      }
    }
  }

  // ---------------------------------------------------------------------
  // Lookup
  // ---------------------------------------------------------------------

  /** The anchored pattern `^...$` matches the whole path (or the path without one final newline). */
  predicate Hits(rt: LegacyRoute, path: string) {
    Match(rt.pattern, path, EndAnchor).Some?
  }

  /** `_find_route`: the route of the first path, in table order, that has the method and whose pattern matches, with its captured values. */
  function FirstMatch(t: Table, verb: string, path: string): (r: Option<(LegacyRoute, map<string, string>)>)
    ensures r.Some? ==> Hits(r.value.0, path) && Match(r.value.0.pattern, path, EndAnchor) == Some(r.value.1)
  {
    if t == [] then None
    else match Get(t[0].1, verb)
      case Some(rt) =>
        (match Match(rt.pattern, path, EndAnchor)
         case Some(m) => Some((rt, m))
         case None => FirstMatch(t[1..], verb, path))
      case None => FirstMatch(t[1..], verb, path)
  }

  /** Whether the path's entry at `i` has a route for the method whose pattern matches. */
  predicate HitAt(t: Table, i: nat, verb: string, path: string)
    requires i < |t|
  {
    Get(t[i].1, verb).Some? && Hits(Get(t[i].1, verb).value, path)
  }

  /**
   * `_find_route` finds the route at the first entry that has a matching
   * route for the method, and finds nothing exactly when no entry has one.
   */
  lemma {:induction false} FirstMatchMeaning(t: Table, verb: string, path: string)
    ensures FirstMatch(t, verb, path).None? <==> forall i :: 0 <= i < |t| ==> !HitAt(t, i, verb, path)
    ensures FirstMatch(t, verb, path).Some? ==>
              exists i :: 0 <= i < |t| && HitAt(t, i, verb, path)
                          && FirstMatch(t, verb, path).value.0 == Get(t[i].1, verb).value
                          && forall k :: 0 <= k < i ==> !HitAt(t, k, verb, path)
  {
    if t != [] {
      FirstMatchMeaning(t[1..], verb, path);
      assert forall i :: 1 <= i < |t| ==> (HitAt(t, i, verb, path) <==> HitAt(t[1..], i - 1, verb, path));
      if !HitAt(t, 0, verb, path) && FirstMatch(t, verb, path).Some? {
        var i :| 0 <= i < |t[1..]| && HitAt(t[1..], i, verb, path)
                 && FirstMatch(t[1..], verb, path).value.0 == Get(t[1..][i].1, verb).value
                 && forall k :: 0 <= k < i ==> !HitAt(t[1..], k, verb, path);
        assert HitAt(t, i + 1, verb, path);
      }
    }
  }

  /** `_path_exists_with_different_method`: some route of any method matches the path. */
  predicate AnyHit(t: Table, path: string) {
    exists i, j :: 0 <= i < |t| && 0 <= j < |t[i].1| && Hits(t[i].1[j].1, path)
  }

  /** In a well-formed table, when no route for the method matches but some route does, that route has another method. */
  lemma OtherMethodOnly(t: Table, verb: string, path: string)
    requires TableOk(t)
    requires FirstMatch(t, verb, path).None? && AnyHit(t, path)
    ensures exists i, j :: 0 <= i < |t| && 0 <= j < |t[i].1| && Hits(t[i].1[j].1, path) && t[i].1[j].1.verb != verb
  {
    FirstMatchMeaning(t, verb, path);
    var i, j :| 0 <= i < |t| && 0 <= j < |t[i].1| && Hits(t[i].1[j].1, path);
    assert t[i] in t && t[i].1[j] in t[i].1;
    GetAt(t[i].1, j);
    assert !HitAt(t, i, verb, path);
  }

  /** A route found for the method is also a route of some method: the 405 check never contradicts the lookup. */
  lemma FoundImpliesAnyHit(t: Table, verb: string, path: string)
    requires FirstMatch(t, verb, path).Some?
    ensures AnyHit(t, path)
  {
    FirstMatchMeaning(t, verb, path);
    var i :| 0 <= i < |t| && HitAt(t, i, verb, path);
    var rt := Get(t[i].1, verb).value;
    var j :| 0 <= j < |t[i].1| && t[i].1[j] == (verb, rt);
  }

  /** `match.groupdict()`: the captured values, in the order the groups appear in the pattern. */
  function GroupDict(names: seq<string>, m: map<string, string>): (r: Dict<string, string>)
    ensures forall e :: e in r ==> e.0 in names && e.0 in m && e.1 == m[e.0]
    ensures forall k :: k in names && k in m ==> k in Keys(r)
  {
    if names == [] then []
    else
      var rest := GroupDict(names[1..], m);
      assert forall k :: k in names && k != names[0] ==> k in names[1..];
      if names[0] in m then [(names[0], m[names[0]])] + rest else rest
  }

  /** Looking a name up in the group dict gives its captured value. */
  lemma GetGroupDict(names: seq<string>, m: map<string, string>, k: string)
    ensures Get(GroupDict(names, m), k) == if k in names && k in m then Some(m[k]) else None
  {
  }

  // ---------------------------------------------------------------------
  // Responding
  // ---------------------------------------------------------------------

  /** `_call_handler`: the handler called with its bound arguments (a request is always passed); exceptions are not wrapped. */
  function CallLegacyHandler(rt: LegacyRoute, pathParams: Dict<string, string>): Outcome {
    rt.handler(BindArgs(rt.params, pathParams, true))
  }

  /**
   * The older `_call_handler` binds arguments exactly as the framework's
   * does: both return the same value, and where the older one lets an
   * exception through, the framework's wraps that same exception.
   */
  lemma LegacyCallAgrees(rt: LegacyRoute, pathParams: Dict<string, string>)
    ensures var o := CallLegacyHandler(rt, pathParams);
            var r := CallHandler(Route(rt.path, rt.verb, rt.params, rt.handler), pathParams, true);
            && (o.Returned? <==> r.Ok?)
            && (o.Returned? ==> r.value == o.v)
            && (o.Raised? ==> r.error.original == o.e && r.error.routePath == rt.path)
  {
  }

  /** The messages an error response sends, or the exception when even that body cannot be dumped. */
  function Sent(ms: Option<seq<Outgoing>>): (seq<Outgoing>, bool) {
    match ms
    case Some(s) => (s, false)
    case None => ([], true)
  }

  /**
   * `__call__(scope, receive, send)`: the messages sent, and whether an
   * exception escapes. Anything that goes wrong once a route is found —
   * the handler raising, or its result not serialising — gives the 500
   * response.
   */
  function Respond(t: Table, codec: Codec, scope: Scope): (seq<Outgoing>, bool) {
    if scope.kind != "http" then ([], false)
    else match FirstMatch(t, scope.verb, scope.path)
      case Some((rt, m)) =>
        var o := CallLegacyHandler(rt, GroupDict(Names(rt.pattern), m));
        var ok := if o.Returned? then JsonMessages(codec, 200, o.v) else None;
        if ok.Some? then (ok.value, false)
        else Sent(ErrorMessages(codec, 500, InternalServerError))
      case None =>
        if AnyHit(t, scope.path) then Sent(ErrorMessages(codec, 405, "Method Not Allowed"))
        else Sent(ErrorMessages(codec, 404, "Not Found"))
  }

  /** The status of the first message sent. */
  function StatusOf(sent: seq<Outgoing>): int {
    if |sent| >= 1 && sent[0].Start? then sent[0].status else 0
  }

  /**
   * The answer to an HTTP request is 200 exactly when a route is found,
   * its handler returns and the result serialises; 405 exactly when no
   * route of the method matches but a route of another method does; 404
   * when no route matches at all; 500 otherwise.
   */
  lemma RespondStatus(t: Table, codec: Codec, scope: Scope)
    requires TableOk(t)
    requires scope.kind == "http"
    ensures var (sent, raised) := Respond(t, codec, scope);
            var found := FirstMatch(t, scope.verb, scope.path);
            && (!raised ==> |sent| == 2 && sent[0].Start? && sent[1].BodyMsg?)
            && (!raised && StatusOf(sent) == 200 <==>
                  found.Some? && (var o := CallLegacyHandler(found.value.0, GroupDict(Names(found.value.0.pattern), found.value.1));
                                  o.Returned? && codec.dumps(o.v).Some?))
            && (!raised && StatusOf(sent) == 405 ==>
                  found.None? && exists i, j :: 0 <= i < |t| && 0 <= j < |t[i].1| && Hits(t[i].1[j].1, scope.path) && t[i].1[j].1.verb != scope.verb)
            && (!raised && StatusOf(sent) == 404 ==> !AnyHit(t, scope.path))
            && (!raised && StatusOf(sent) == 500 ==> found.Some?)
  {
    var found := FirstMatch(t, scope.verb, scope.path);
    if found.None? && AnyHit(t, scope.path) {
      OtherMethodOnly(t, scope.verb, scope.path);
    }
  }

  /** Requests that are not HTTP are ignored. */
  lemma RespondIgnoresOthers(t: Table, codec: Codec, scope: Scope)
    requires scope.kind != "http"
    ensures Respond(t, codec, scope) == ([], false)
  {
  }

  /** A handler's value is sent as the JSON body with status 200. */
  lemma RespondBody(t: Table, codec: Codec, scope: Scope)
    requires scope.kind == "http" && FirstMatch(t, scope.verb, scope.path).Some?
    ensures var (rt, m) := FirstMatch(t, scope.verb, scope.path).value;
            var o := CallLegacyHandler(rt, GroupDict(Names(rt.pattern), m));
            o.Returned? && codec.dumps(o.v).Some? ==>
              Respond(t, codec, scope).0[1] == BodyMsg(Utf8(codec.dumps(o.v).value))
  {
  }

  // ---------------------------------------------------------------------
  // The application object
  // ---------------------------------------------------------------------

  /** `App` of `src/asgi.py`. */
  class App {
    var routes: Table

    ghost predicate Valid()
      reads this
    {
      TableOk(routes)
    }

    constructor()
      ensures Valid() && routes == []
    {
      routes := [];
    }

    /** `_register_route`; `raised` is the `re.error` from compiling the path. */
    method Register(verb: string, path: string, params: seq<string>, handler: seq<Arg> -> Outcome) returns (raised: bool)
      requires Valid()
      modifies this
      ensures Valid()
      ensures (routes, raised) == Registered(old(routes), verb, path, params, handler)
    {
      RegisteredOk(routes, verb, path, params, handler);
      var inner := if path in Keys(routes) then Get(routes, path).value else [];
      if path !in Keys(routes) {
        routes := routes + [(path, [])];
      }
      var pattern := Compile(path);
      if pattern.None? {
        return true;
      }
      routes := Set(routes, path, Set(inner, verb, LegacyRoute(verb, path, params, handler, pattern.value)));
      raised := false;
    }

    /** `get(path, handler)`. */
    method RegisterGet(path: string, params: seq<string>, handler: seq<Arg> -> Outcome) returns (raised: bool)
      requires Valid()
      modifies this
      ensures Valid()
      ensures (routes, raised) == Registered(old(routes), "GET", path, params, handler)
    {
      raised := Register("GET", path, params, handler);
    }

    /** `post(path, handler)`. */
    method RegisterPost(path: string, params: seq<string>, handler: seq<Arg> -> Outcome) returns (raised: bool)
      requires Valid()
      modifies this
      ensures Valid()
      ensures (routes, raised) == Registered(old(routes), "POST", path, params, handler)
    {
      raised := Register("POST", path, params, handler);
    }

    /** `put(path, handler)`. */
    method RegisterPut(path: string, params: seq<string>, handler: seq<Arg> -> Outcome) returns (raised: bool)
      requires Valid()
      modifies this
      ensures Valid()
      ensures (routes, raised) == Registered(old(routes), "PUT", path, params, handler)
    {
      raised := Register("PUT", path, params, handler);
    }

    /** `delete(path, handler)`. */
    method RegisterDelete(path: string, params: seq<string>, handler: seq<Arg> -> Outcome) returns (raised: bool)
      requires Valid()
      modifies this
      ensures Valid()
      ensures (routes, raised) == Registered(old(routes), "DELETE", path, params, handler)
    {
      raised := Register("DELETE", path, params, handler);
    }

    /** `_find_route(method, path)`: the scan over the paths in order. */
    method FindRoute(verb: string, path: string) returns (route: Option<LegacyRoute>, pathParams: Dict<string, string>)
      ensures FirstMatch(routes, verb, path).None? ==> route.None? && pathParams == []
      ensures FirstMatch(routes, verb, path).Some? ==>
                var (rt, m) := FirstMatch(routes, verb, path).value;
                route == Some(rt) && pathParams == GroupDict(Names(rt.pattern), m)
    {
      var i := 0;
      while i < |routes|
        invariant 0 <= i <= |routes|
        invariant FirstMatch(routes[i..], verb, path) == FirstMatch(routes, verb, path)
      {
        assert routes[i..][1..] == routes[i + 1..];
        var methods := routes[i].1;
        var info := Get(methods, verb);
        if info.Some? {
          var m := Match(info.value.pattern, path, EndAnchor);
          if m.Some? {
            return Some(info.value), GroupDict(Names(info.value.pattern), m.value);
          }
        }
        i := i + 1;
      }
      return None, [];
    }

    /** `_path_exists_with_different_method(path)`: every route of every path is tried. */
    method PathExists(path: string) returns (r: bool)
      ensures r == AnyHit(routes, path)
    {
      var i := 0;
      while i < |routes|
        invariant 0 <= i <= |routes|
        invariant forall i', j :: 0 <= i' < i && 0 <= j < |routes[i'].1| ==> !Hits(routes[i'].1[j].1, path)
      {
        var methods := routes[i].1;
        var j := 0;
        while j < |methods|
          invariant 0 <= j <= |methods|
          invariant forall j' :: 0 <= j' < j ==> !Hits(methods[j'].1, path)
        {
          if Match(methods[j].1.pattern, path, EndAnchor).Some? {
            return true;
          }
          j := j + 1;
        }
        i := i + 1;
      }
      return false;
    }

    /** `__call__(scope, receive, send)`: the messages sent, and whether an exception escaped. */
    method Call(scope: Scope, receive: seq<Incoming>, codec: Codec) returns (sent: seq<Outgoing>, raised: bool)
      ensures (sent, raised) == Respond(routes, codec, scope)
    {
      if scope.kind != "http" {
        return [], false;
      }
      var route, pathParams := FindRoute(scope.verb, scope.path);
      if route.Some? {
        var request := new Request(scope, receive);
        var o := route.value.handler(BindArgs(route.value.params, pathParams, true));
        var ok := if o.Returned? then JsonMessages(codec, 200, o.v) else None;
        if ok.Some? {
          return ok.value, false;
        }
        sent, raised := Sent(ErrorMessages(codec, 500, InternalServerError)).0, Sent(ErrorMessages(codec, 500, InternalServerError)).1;
      } else {
        var known := PathExists(scope.path);
        var status, message := if known then 405 else 404, if known then "Method Not Allowed" else "Not Found";
        var ms := ErrorMessages(codec, status, message);
        sent, raised := Sent(ms).0, Sent(ms).1;
      }
    }
  }

  /** `Request.json` of `src/asgi.py`: decode and parse, with no error of its own (`None` where an exception escapes). */
  function LegacyJson(codec: Codec, body: bytes): (r: Option<Value>)
    ensures r.Some? <==> codec.decode(body).Some? && codec.loads(codec.decode(body).value).Some?
  {
    match codec.decode(body)
    case None => None
    case Some(text) => codec.loads(text)
  }

  /** The older `json()` accepts the same bodies, with the same values, as the framework's `Request.json`. */
  lemma LegacyJsonAgrees(codec: Codec, body: bytes)
    ensures LegacyJson(codec, body).Some? <==> JsonOf(codec, body).Ok?
    ensures LegacyJson(codec, body).Some? ==> LegacyJson(codec, body).value == JsonOf(codec, body).value
  {
  }
}
