/**
 * The framework's `App` (`src/artanis/application.py`, and the same class
 * in `src/artanis/__init__.py`): middleware registration through `use`,
 * handler-argument binding, the final handler's 404 / 405 / handler-error
 * decision, and sending the middleware `Response` with defaulted
 * content-length and content-type headers.
 *
 * The router and the exception classes are not part of this model; they
 * enter as the functions of `Router` and `Errors`.
 */
module Dispatch {
  import opened Common
  import opened Text
  import opened OrderedDict
  import opened Values
  import opened ResponseModel
  import opened MiddlewareCore
  import opened Chain
  import opened AsgiIo

  // ---------------------------------------------------------------------
  // Handlers and their arguments
  // ---------------------------------------------------------------------

  /** An argument passed to a route handler: a path value, or the request object. */
  datatype Arg = PathValue(value: string) | RequestArg

  /**
   * A registered route: its path pattern, method, the names of its
   * handler's parameters in signature order, and what the handler does
   * with the arguments it is given.
   */
  datatype Route = Route(path: string, verb: string, params: seq<string>, handler: seq<Arg> -> Outcome)

  /** The router's answers: the route and its path parameters, and the methods allowed on a path. */
  datatype Router = Router(
    findRoute: (string, string) -> Option<(Route, Dict<string, string>)>,
    allowedMethods: string -> seq<string>)

  /** `HandlerError(message, route_path, method, original_error)`. */
  datatype HandlerError = HandlerError(routePath: string, verb: string, original: Exc)

  /** The status codes and `to_dict()` bodies of the framework's exceptions. */
  datatype Errors = Errors(
    handlerStatus: HandlerError -> int,
    handlerBody: HandlerError -> Value,
    notAllowed: (string, string, seq<string>) -> (int, Value),
    notFound: (string, string) -> (int, Value))

  /** The argument one parameter receives, if any. */
  function BindOne(p: string, pathParams: Dict<string, string>, hasRequest: bool): (r: seq<Arg>)
    ensures |r| <= 1
    ensures p in Keys(pathParams) ==> r == [PathValue(Get(pathParams, p).value)]
    ensures p !in Keys(pathParams) && p == "request" && hasRequest ==> r == [RequestArg]
    ensures p !in Keys(pathParams) && !(p == "request" && hasRequest) ==> r == []
  {
    match Get(pathParams, p)
    case Some(v) => [PathValue(v)]
    case None => if p == "request" && hasRequest then [RequestArg] else []
  }

  /** The argument list `_call_handler` builds, in signature order. */
  function BindArgs(params: seq<string>, pathParams: Dict<string, string>, hasRequest: bool): (r: seq<Arg>)
    ensures |r| <= |params|
  {
    if params == [] then [] else BindOne(params[0], pathParams, hasRequest) + BindArgs(params[1..], pathParams, hasRequest)
  }

  /** Binding is parameter by parameter: the list for `p + q` is the list for `p`, then the list for `q`. */
  lemma {:induction false} BindArgsAppend(p: seq<string>, q: seq<string>, pathParams: Dict<string, string>, hasRequest: bool)
    ensures BindArgs(p + q, pathParams, hasRequest) == BindArgs(p, pathParams, hasRequest) + BindArgs(q, pathParams, hasRequest)
  {
    if p == [] {
      assert p + q == q;
    } else {
      assert (p + q)[0] == p[0];
      assert (p + q)[1..] == p[1..] + q;
      BindArgsAppend(p[1..], q, pathParams, hasRequest);
    }
  }

  /** When every parameter names a path value, the handler gets exactly those values, in signature order. */
  lemma {:induction false} BindArgsAllPath(params: seq<string>, pathParams: Dict<string, string>, hasRequest: bool)
    requires forall i :: 0 <= i < |params| ==> params[i] in Keys(pathParams)
    ensures |BindArgs(params, pathParams, hasRequest)| == |params|
    ensures forall i :: 0 <= i < |params| ==>
              BindArgs(params, pathParams, hasRequest)[i] == PathValue(Get(pathParams, params[i]).value)
  {
    if params != [] {
      BindArgsAllPath(params[1..], pathParams, hasRequest);
    }
  }

  /** A parameter that is neither a path key nor `request` receives nothing: dropping it changes no argument. */
  lemma BindArgsSkips(a: seq<string>, p: string, b: seq<string>, pathParams: Dict<string, string>, hasRequest: bool)
    requires p !in Keys(pathParams) && p != "request"
    ensures BindArgs(a + [p] + b, pathParams, hasRequest) == BindArgs(a + b, pathParams, hasRequest)
  {
    BindArgsAppend(a + [p], b, pathParams, hasRequest);
    BindArgsAppend(a, [p], pathParams, hasRequest);
    BindArgsAppend(a, b, pathParams, hasRequest);
    assert BindArgs([p], pathParams, hasRequest) == [] + BindArgs([], pathParams, hasRequest);
  }

  /** A path key named `request` receives the path value, not the request. */
  lemma PathValueBeatsRequest(pathParams: Dict<string, string>, hasRequest: bool)
    requires "request" in Keys(pathParams)
    ensures BindArgs(["request"], pathParams, hasRequest) == [PathValue(Get(pathParams, "request").value)]
  {
    assert BindArgs(["request"], pathParams, hasRequest) == BindOne("request", pathParams, hasRequest) + BindArgs([], pathParams, hasRequest);
  }

  /**
   * `_call_handler`: the handler called with the bound arguments; any
   * exception comes out wrapped in a `HandlerError` naming the route.
   */
  function CallHandler(route: Route, pathParams: Dict<string, string>, hasRequest: bool): (r: Result<Value, HandlerError>)
    ensures var o := route.handler(BindArgs(route.params, pathParams, hasRequest));
            && (r.Ok? <==> o.Returned?)
            && (r.Ok? ==> r.value == o.v)
            && (r.Err? ==> r.error == HandlerError(route.path, route.verb, o.e))
  {
    match route.handler(BindArgs(route.params, pathParams, hasRequest))
    case Returned(v) => Ok(v)
    case Raised(e) => Err(HandlerError(route.path, route.verb, e))
  }

  // ---------------------------------------------------------------------
  // The final handler
  // ---------------------------------------------------------------------

  /** Why a handler call failed: a `HandlerError`, or any other exception. */
  datatype Failure = Failed(he: HandlerError) | OtherError(e: Exc)

  /** `_find_route`: the route and its parameters, or no route and `{}`. */
  function FindRoute(router: Router, verb: string, path: string): (r: (Option<Route>, Dict<string, string>))
    ensures r.0.None? ==> r.1 == []
    ensures r.0.Some? <==> router.findRoute(verb, path).Some?
  {
    match router.findRoute(verb, path)
    case Some((route, params)) => (Some(route), params)
    case None => (None, [])
  }

  /**
   * The effects of `final_handler` on a response in state `st`. With a
   * route, `call` is what calling its handler gave: a result is stored as
   * the JSON body and a failure becomes an error status and body, both
   * only when the response is not finished. Without a route the 405 or
   * 404 error is written whatever the finished flag says.
   */
  function FinalEffects(errors: Errors, router: Router, route: Option<Route>, call: Result<Value, Failure>,
                        verb: string, path: string, st: ResponseState): seq<Effect>
  {
    if route.Some? then
      if st.finished then []
      else
        match call
        case Ok(v) => [Json(v)]
        case Err(Failed(he)) => [SetStatus(errors.handlerStatus(he)), Json(errors.handlerBody(he))]
        case Err(OtherError(_)) => [SetStatus(500), Json(ErrorBody(InternalServerError))]
    else
      var allowed := router.allowedMethods(path);
      if |allowed| > 0 then
        var (code, body) := errors.notAllowed(path, verb, allowed);
        [SetStatus(code), Json(body)]
      else
        var (code, body) := errors.notFound(path, verb);
        [SetStatus(code), Json(body)]
  }

  /** What calling the route's handler through `_call_handler` gives. */
  function HandlerCall(route: Option<Route>, pathParams: Dict<string, string>): Result<Value, Failure> {
    match route
    case None => Ok(VNone)
    case Some(rt) =>
      match CallHandler(rt, pathParams, true)
      case Ok(v) => Ok(v)
      case Err(he) => Err(Failed(he))
  }

  /** `final_handler` as the chain's handler: it never raises and returns the response object. */
  function FinalHandler(errors: Errors, router: Router, verb: string, path: string): (h: Handler) {
    var (route, params) := FindRoute(router, verb, path);
    (st: ResponseState) =>
      HandlerRun(FinalEffects(errors, router, route, HandlerCall(route, params), verb, path, st), Returned(ResponseObject))
  }

  /** The final handler never raises. */
  lemma FinalHandlerReturns(errors: Errors, router: Router, verb: string, path: string)
    ensures HandlerReturns(FinalHandler(errors, router, verb, path))
  {
  }

  /**
   * A route whose handler returns while the response is unfinished: the
   * result becomes the JSON body; the status stays what middleware set.
   */
  lemma FoundResultIsBody(errors: Errors, router: Router, route: Route, v: Value, verb: string, path: string, st: ResponseState)
    requires !st.finished
    ensures var s := ApplyAll(st, FinalEffects(errors, router, Some(route), Ok(v), verb, path, st));
            && s.body == v && s.status == st.status && !s.finished
            && Get(s.headers, ContentType) == Some(ApplicationJson)
  {
    GetSetSame(st.headers, ContentType, ApplicationJson);
    ApplyOne(st, Json(v));
  }

  /** With a route, a finished response is left exactly as it is, whatever the handler did. */
  lemma FoundFinishedUntouched(errors: Errors, router: Router, route: Route, call: Result<Value, Failure>,
                               verb: string, path: string, st: ResponseState)
    requires st.finished
    ensures ApplyAll(st, FinalEffects(errors, router, Some(route), call, verb, path, st)) == st
  {
  }

  /** A failing handler on an unfinished response: the error's status and `to_dict()` body (500 for other exceptions). */
  lemma FailureStatus(errors: Errors, router: Router, route: Route, f: Failure, verb: string, path: string, st: ResponseState)
    requires !st.finished
    ensures var s := ApplyAll(st, FinalEffects(errors, router, Some(route), Err(f), verb, path, st));
            && (f.Failed? ==> s.status == errors.handlerStatus(f.he) && s.body == errors.handlerBody(f.he))
            && (f.OtherError? ==> s.status == 500 && s.body == ErrorBody(InternalServerError))
  {
    var es := FinalEffects(errors, router, Some(route), Err(f), verb, path, st);
    ApplyTwo(st, es[0], es[1]);
  }

  /**
   * Without a route: 405 exactly when the router allows some method on the
   * path, otherwise 404; written even on a finished response.
   */
  lemma NoRouteDecision(errors: Errors, router: Router, call: Result<Value, Failure>, verb: string, path: string, st: ResponseState)
    ensures var s := ApplyAll(st, FinalEffects(errors, router, None, call, verb, path, st));
            var allowed := router.allowedMethods(path);
            && (|allowed| > 0 ==> (s.status, s.body) == errors.notAllowed(path, verb, allowed))
            && (|allowed| == 0 ==> (s.status, s.body) == errors.notFound(path, verb))
            && s.finished == st.finished
  {
    var es := FinalEffects(errors, router, None, call, verb, path, st);
    ApplyTwo(st, es[0], es[1]);
  }

  /** With `_call_handler`, every handler exception reaches the response as a `HandlerError`, never as the generic 500. */
  lemma HandlerExceptionsAreWrapped(route: Route, pathParams: Dict<string, string>)
    ensures HandlerCall(Some(route), pathParams).Err? ==> HandlerCall(Some(route), pathParams).error.Failed?
  {
  }

  // ---------------------------------------------------------------------
  // Sending the response
  // ---------------------------------------------------------------------

  /** `bytes.lower()` on one byte. */
  function LowerByte(b: byte): byte {
    if 65 <= b <= 90 then b + 32 else b
  }

  /** `bytes.lower()`. */
  function LowerBytes(bs: bytes): (r: bytes)
    ensures |r| == |bs|
    ensures forall i :: 0 <= i < |bs| ==> r[i] == LowerByte(bs[i])
  {
    seq(|bs|, i requires 0 <= i < |bs| => LowerByte(bs[i]))
  }

  /** `any(name.lower() == n for name, _ in headers)`. */
  predicate HasHeader(headers: seq<(bytes, bytes)>, n: bytes) {
    exists i :: 0 <= i < |headers| && LowerBytes(headers[i].0) == n
  }

  /** The response headers, encoded, in the dict's order. */
  function Encoded(hs: Dict<string, string>): (r: seq<(bytes, bytes)>)
    ensures |r| == |hs|
    ensures forall i :: 0 <= i < |hs| ==> r[i] == EncodeHeader(hs[i])
  {
    if hs == [] then [] else [EncodeHeader(hs[0])] + Encoded(hs[1..])
  }

  /** The header list with `(name, value)` appended unless some header is already called `name`. */
  function AddIfMissing(hs: seq<(bytes, bytes)>, name: bytes, value: bytes): seq<(bytes, bytes)> {
    if HasHeader(hs, name) then hs else hs + [(name, value)]
  }

  /** The header list `_send_response` sends for a body of the given bytes. */
  function SentHeaders(st: ResponseState, body: bytes): seq<(bytes, bytes)> {
    var hs := AddIfMissing(Encoded(st.headers), ContentLengthName, LengthBytes(|body|));
    if !st.body.VNone? && (st.body.VDict? || st.body.VList?) then AddIfMissing(hs, ContentTypeName, ApplicationJsonBytes)
    else hs
  }

  /**
   * `_send_response`: one start message with the status and headers, then
   * one body message; `None` where `to_bytes` raises before anything is sent.
   */
  function ResponseMessages(codec: Codec, st: ResponseState): (r: Option<seq<Outgoing>>)
    ensures r.None? <==> BodyBytes(codec, st.body).None?
    ensures r.Some? ==>
              |r.value| == 2 && r.value[0].Start? && r.value[0].status == st.status &&
              r.value[1] == BodyMsg(BodyBytes(codec, st.body).value)
  {
    match BodyBytes(codec, st.body)
    case None => None
    case Some(b) => Some([Start(st.status, SentHeaders(st, b)), BodyMsg(b)])
  }

  /** Bytes without an ASCII capital are their own lower case. */
  lemma LowerNoCapitals(bs: bytes)
    requires forall i :: 0 <= i < |bs| ==> !(65 <= bs[i] <= 90)
    ensures LowerBytes(bs) == bs
  {
  }

  lemma LowerContentNames()
    ensures LowerBytes(ContentLengthName) == ContentLengthName
    ensures LowerBytes(ContentTypeName) == ContentTypeName
    ensures ContentLengthName != ContentTypeName
  {
    LowerContentLength();
    LowerContentType();
    assert |ContentLengthName| != |ContentTypeName|;
  }

  lemma LowerContentLength()
    ensures LowerBytes(ContentLengthName) == ContentLengthName
  {
    var cl := ContentLengthName;
    assert cl == [99, 111, 110, 116, 101, 110, 116, 45, 108, 101, 110, 103, 116, 104];
    assert forall i :: 0 <= i < |cl| ==> cl[i] == 45 || cl[i] >= 97;
    LowerNoCapitals(cl);
  }

  lemma LowerContentType()
    ensures LowerBytes(ContentTypeName) == ContentTypeName
  {
    var ct := ContentTypeName;
    assert ct == [99, 111, 110, 116, 101, 110, 116, 45, 116, 121, 112, 101];
    assert forall i :: 0 <= i < |ct| ==> ct[i] == 45 || ct[i] >= 97;
    LowerNoCapitals(ct);
  }

  /**
   * Appending a header keeps the list in front; it is added exactly when no
   * header has the name yet (`name` being lower case), and then it is the
   * only header of that name.
   */
  lemma AddIfMissingFacts(hs: seq<(bytes, bytes)>, name: bytes, value: bytes)
    requires LowerBytes(name) == name
    ensures var r := AddIfMissing(hs, name, value);
            && |hs| <= |r| && r[..|hs|] == hs
            && HasHeader(r, name)
            && (HasHeader(hs, name) ==> r == hs)
            && (!HasHeader(hs, name) ==> r == hs + [(name, value)])
            && (!HasHeader(hs, name) ==> forall i :: 0 <= i < |hs| ==> LowerBytes(r[i].0) != name)
  {
    var r := AddIfMissing(hs, name, value);
    if !HasHeader(hs, name) {
      assert LowerBytes(r[|hs|].0) == name;
    }
  }

  /** Adding a header of another name neither creates nor removes a header called `name`. */
  lemma AddIfMissingOther(hs: seq<(bytes, bytes)>, other: bytes, value: bytes, name: bytes)
    requires LowerBytes(other) == other && other != name
    ensures HasHeader(AddIfMissing(hs, other, value), name) <==> HasHeader(hs, name)
  {
    var r := AddIfMissing(hs, other, value);
    if HasHeader(r, name) {
      var i :| 0 <= i < |r| && LowerBytes(r[i].0) == name;
      if i < |hs| {
        assert r[i] == hs[i];
      }
    }
    if HasHeader(hs, name) {
      var i :| 0 <= i < |hs| && LowerBytes(hs[i].0) == name;
      assert r[i] == hs[i];
    }
  }

  /** The two defaults of `_send_response`, for any two distinct lower-case header names. */
  lemma DefaultsFacts(hs: seq<(bytes, bytes)>, cl: bytes, lv: bytes, ct: bytes, tv: bytes, isJson: bool)
    requires LowerBytes(cl) == cl && LowerBytes(ct) == ct && cl != ct
    ensures var hs1 := AddIfMissing(hs, cl, lv);
            var sent := if isJson then AddIfMissing(hs1, ct, tv) else hs1;
            var added := !HasHeader(hs, ct) && isJson;
            && |hs| <= |sent| && sent[..|hs|] == hs
            && HasHeader(sent, cl)
            && (!HasHeader(hs, cl) ==> sent[|hs|] == (cl, lv))
            && (HasHeader(hs, cl) ==> sent[|hs|..] == [] || sent[|hs|..] == [(ct, tv)])
            && (added ==> sent[|sent| - 1] == (ct, tv) && HasHeader(sent, ct))
            && (!added ==> HasHeader(sent, ct) == HasHeader(hs, ct))
  {
    var hs1 := AddIfMissing(hs, cl, lv);
    AddIfMissingFacts(hs, cl, lv);
    AddIfMissingFacts(hs1, ct, tv);
    AddIfMissingOther(hs1, ct, tv, cl);
    AddIfMissingOther(hs, cl, lv, ct);
    var sent := if isJson then AddIfMissing(hs1, ct, tv) else hs1;
    assert sent[..|hs|] == hs1[..|hs|];
    if !HasHeader(hs, cl) {
      assert sent[|hs|] == hs1[|hs|];
    }
  }

  /**
   * Content-length defaulting: the response's own headers go first,
   * unchanged. When none of them is named content-length in any case, a
   * content-length header with the decimal byte length of the body follows;
   * otherwise none is added, and at most the content type follows them.
   */
  lemma ContentLengthDefault(st: ResponseState, body: bytes)
    ensures var hs := Encoded(st.headers);
            var sent := SentHeaders(st, body);
            && |hs| <= |sent| && sent[..|hs|] == hs
            && HasHeader(sent, ContentLengthName)
            && (!HasHeader(hs, ContentLengthName) ==> sent[|hs|] == (ContentLengthName, LengthBytes(|body|)))
            && (HasHeader(hs, ContentLengthName) ==>
                  sent[|hs|..] == [] || sent[|hs|..] == [(ContentTypeName, ApplicationJsonBytes)])
  {
    LowerContentNames();
    DefaultsFacts(Encoded(st.headers), ContentLengthName, LengthBytes(|body|), ContentTypeName, ApplicationJsonBytes,
                  st.body.VDict? || st.body.VList?);
  }

  /**
   * Content-type defaulting: `application/json` is appended, as the last
   * header, exactly when no header is named content-type in any case and
   * the body is a dict or a list; otherwise whether a content type is sent
   * is up to the response's own headers.
   */
  lemma ContentTypeDefault(st: ResponseState, body: bytes)
    ensures var hs := Encoded(st.headers);
            var sent := SentHeaders(st, body);
            var added := !HasHeader(hs, ContentTypeName) && (st.body.VDict? || st.body.VList?);
            && (added ==> sent[|sent| - 1] == (ContentTypeName, ApplicationJsonBytes))
            && (!added ==> HasHeader(sent, ContentTypeName) == HasHeader(hs, ContentTypeName))
  {
    LowerContentNames();
    DefaultsFacts(Encoded(st.headers), ContentLengthName, LengthBytes(|body|), ContentTypeName, ApplicationJsonBytes,
                  st.body.VDict? || st.body.VList?);
  }

  // ---------------------------------------------------------------------
  // The application
  // ---------------------------------------------------------------------

  /** The first argument of `use`: a callable middleware, a path string, or anything else. */
  datatype UseArg = CallableArg(m: Middleware) | PathArg(p: string) | OtherArg

  /**
   * The whole of `App.__call__` on values: the messages sent, and whether
   * an exception escapes (only when even the error response cannot be
   * serialised).
   */
  function CallSpec(errors: Errors, router: Router, codec: Codec, scope: Scope,
                    global: seq<Middleware>, d: Dict<string, seq<Middleware>>): (seq<Outgoing>, bool)
  {
    if scope.kind != "http" then ([], false)
    else
      var h := FinalHandler(errors, router, scope.verb, scope.path);
      var (_, st) := WithErrorHandling(AllFor(global, d, scope.path), h, Fresh);
      match ResponseMessages(codec, st)
      case Some(ms) => (ms, false)
      case None =>
        match ErrorMessages(codec, 500, InternalServerError)
        case Some(ms) => (ms, false)
        case None => ([], true)
  }

  /** A scope that is not `http` gets no reply. */
  lemma NonHttpIgnored(errors: Errors, router: Router, codec: Codec, scope: Scope,
                       global: seq<Middleware>, d: Dict<string, seq<Middleware>>)
    requires scope.kind != "http"
    ensures CallSpec(errors, router, codec, scope, global, d) == ([], false)
  {
  }

  /** Every reply to an `http` scope is one start message followed by one body message. */
  lemma StartThenBody(errors: Errors, router: Router, codec: Codec, scope: Scope,
                      global: seq<Middleware>, d: Dict<string, seq<Middleware>>)
    requires scope.kind == "http" && !CallSpec(errors, router, codec, scope, global, d).1
    ensures var sent := CallSpec(errors, router, codec, scope, global, d).0;
            |sent| == 2 && sent[0].Start? && sent[1].BodyMsg?
  {
  }

  /** When the response body cannot be serialised, the reply is the 500 error response. */
  lemma UnsendableBodyGives500(errors: Errors, router: Router, codec: Codec, scope: Scope,
                               global: seq<Middleware>, d: Dict<string, seq<Middleware>>)
    requires scope.kind == "http"
    requires var h := FinalHandler(errors, router, scope.verb, scope.path);
             BodyBytes(codec, WithErrorHandling(AllFor(global, d, scope.path), h, Fresh).1.body).None?
    requires ErrorMessages(codec, 500, InternalServerError).Some?
    ensures CallSpec(errors, router, codec, scope, global, d).0 == ErrorMessages(codec, 500, InternalServerError).value
    ensures CallSpec(errors, router, codec, scope, global, d).0[0].status == 500
  {
  }

  /**
   * With no middleware applying, a found route whose handler returns `v`
   * is answered with status 200 and `v` as the response body.
   */
  lemma PlainRequestAnswers200(errors: Errors, router: Router, scope: Scope, v: Value,
                               global: seq<Middleware>, d: Dict<string, seq<Middleware>>)
    requires AllFor(global, d, scope.path) == Some([])
    requires FindRoute(router, scope.verb, scope.path).0.Some?
    requires var (route, params) := FindRoute(router, scope.verb, scope.path);
             HandlerCall(route, params) == Ok(v)
    ensures var h := FinalHandler(errors, router, scope.verb, scope.path);
            var st := WithErrorHandling(AllFor(global, d, scope.path), h, Fresh).1;
            st.status == 200 && st.body == v && !st.finished
  {
    var h := FinalHandler(errors, router, scope.verb, scope.path);
    var (route, params) := FindRoute(router, scope.verb, scope.path);
    FoundResultIsBody(errors, router, route.value, v, scope.verb, scope.path, Fresh);
    EmptyChainCallsHandlerOnce(h, Fresh);
  }

  class App {
    var manager: MiddlewareManager<Middleware>
    var executor: MiddlewareExecutor
    const router: Router
    const errors: Errors

    predicate Valid()
      reads this, manager, executor
    {
      manager.Valid() && executor.manager == manager
    }

    /**
     * `App(enable_request_logging)`: a fresh manager and executor; with
     * request logging on, the logging middleware is the one global middleware.
     */
    constructor(enableRequestLogging: bool, logging: Middleware, router: Router, errors: Errors)
      ensures Valid() && fresh(manager) && fresh(executor)
      ensures manager.globalMiddleware == (if enableRequestLogging then [logging] else [])
      ensures manager.pathMiddleware == []
      ensures this.router == router && this.errors == errors
    {
      this.router := router;
      this.errors := errors;
      var m := new MiddlewareManager<Middleware>();
      manager := m;
      executor := new MiddlewareExecutor(m);
      new;
      if enableRequestLogging {
        Use(CallableArg(logging), None);
      }
    }

    /**
     * `use(path_or_middleware, middleware=None)`: one argument adds a
     * callable as global middleware and ignores anything else; two
     * arguments add the middleware under a string path and are otherwise ignored.
     */
    method Use(first: UseArg, middleware: Option<Middleware>)
      requires Valid()
      modifies manager
      ensures Valid()
      ensures middleware.None? && first.CallableArg? ==>
                manager.globalMiddleware == old(manager.globalMiddleware) + [first.m] &&
                manager.pathMiddleware == old(manager.pathMiddleware)
      ensures middleware.Some? && first.PathArg? ==>
                manager.pathMiddleware == AppendUnder(old(manager.pathMiddleware), first.p, middleware.value) &&
                manager.globalMiddleware == old(manager.globalMiddleware)
      ensures !(middleware.None? && first.CallableArg?) && !(middleware.Some? && first.PathArg?) ==>
                manager.globalMiddleware == old(manager.globalMiddleware) &&
                manager.pathMiddleware == old(manager.pathMiddleware)
    {
      if middleware.None? && first.CallableArg? {
        manager.AddGlobal(first.m);
      } else if middleware.Some? && first.PathArg? {
        manager.AddPath(first.p, middleware.value);
      }
    }

    /** `__call__(scope, receive, send)`: returns what was sent, and whether an exception escaped. */
    method Call(scope: Scope, receive: seq<Incoming>, codec: Codec) returns (sent: seq<Outgoing>, raised: bool)
      requires Valid()
      ensures (sent, raised) == CallSpec(errors, router, codec, scope, manager.globalMiddleware, manager.pathMiddleware)
    {
      if scope.kind != "http" {
        return [], false;
      }
      var request := new Request(scope, receive);
      var response := new Response();
      var (route, pathParams) := FindRoute(router, scope.verb, scope.path);
      request.pathParams := pathParams;
      var h := FinalHandler(errors, router, scope.verb, scope.path);
      var _ := executor.ExecuteWithErrorHandling(response, scope.path, h);
      var messages := SendResponse(response, codec);
      if messages.Some? {
        return messages.value, false;
      }
      var error := ErrorMessages(codec, 500, InternalServerError);
      if error.Some? {
        return error.value, false;
      }
      return [], true;
    }
  }

  /** `_send_response`: builds the header list by appending the defaults, then the two messages. */
  method SendResponse(response: Response, codec: Codec) returns (r: Option<seq<Outgoing>>)
    ensures r == ResponseMessages(codec, response.State())
  {
    var body := response.ToBytes(codec);
    if body.None? {
      return None;
    }
    var headers := response.GetHeadersList();
    assert headers == Encoded(response.headers);
    var contentLengthSet := HasHeader(headers, ContentLengthName);
    if !contentLengthSet {
      headers := headers + [(ContentLengthName, LengthBytes(|body.value|))];
    }
    var contentTypeSet := HasHeader(headers, ContentTypeName);
    if !contentTypeSet && !response.body.VNone? {
      if response.body.VDict? || response.body.VList? {
        headers := headers + [(ContentTypeName, ApplicationJsonBytes)];
      }
    }
    r := Some([Start(response.status, headers), BodyMsg(body.value)]);
  }
}
