/**
 * The middleware demonstration application (`middleware_demo/app.py`):
 * the function middlewares it registers, each described as a chain
 * middleware (what it does before `next`, whether it calls `next`, what
 * it does after, what it raises); the rate limiter with its per-client
 * timestamp lists; and the `get_current_user` guard.
 *
 * Header lookups are the evident intent (`HeaderText`); the lookups as
 * written never find a header, which `AuthAsWrittenRefuses` and its
 * siblings state.
 */
module MiddlewareDemo {
  import opened Common
  import opened Text
  import opened OrderedDict
  import opened Values
  import opened Seqs
  import opened ResponseModel
  import opened Chain
  import opened RequestHeaders

  /** A middleware that calls `next` once, raises nothing and returns `None`. */
  function Passing(before: seq<Effect>, after: seq<Effect>): Middleware {
    Middleware(before, 1, after, None, ReturnValue(VNone))
  }

  /** A middleware that raises before calling `next`. */
  function Raising(kind: string, message: string): Middleware {
    Middleware([], 0, [], Some(Exc(kind, message)), ReturnValue(VNone))
  }

  // ---------------------------------------------------------------------
  // Header-setting middlewares
  // ---------------------------------------------------------------------

  /** `request_id_middleware`: the id (`str(uuid4())[:8]`) is set before `next`. */
  function RequestIdMiddleware(requestId: string): Middleware {
    Passing([SetHeader("X-Request-ID", requestId)], [])
  }

  /** `timing_middleware`: the duration text is set after `next`. */
  function TimingMiddleware(duration: string): Middleware {
    Passing([], [SetHeader("X-Response-Time", duration)])
  }

  /** `error_logging_middleware`: logs and re-raises, so it passes exceptions through. */
  const ErrorLoggingMiddleware := Passing([], [])

  const SecurityHeaders := [
    SetHeader("X-Content-Type-Options", "nosniff"),
    SetHeader("X-Frame-Options", "DENY"),
    SetHeader("X-XSS-Protection", "1; mode=block")]

  /** `security_headers_middleware` */
  const SecurityHeadersMiddleware := Passing([], SecurityHeaders)

  const CorsHeaders := [
    SetHeader("Access-Control-Allow-Origin", "http://localhost:3000"),
    SetHeader("Access-Control-Allow-Methods", "GET, POST, PUT, DELETE"),
    SetHeader("Access-Control-Allow-Headers", "Content-Type, X-API-Key"),
    SetHeader("Access-Control-Allow-Credentials", "true")]

  /** `cors_middleware` */
  const CorsMiddleware := Passing([], CorsHeaders)

  /** Middleware `i` of the chain runs the rest of it once and then sets its own headers. */
  lemma AfterNextStep(ms: seq<Middleware>, h: Handler, i: nat, st: ResponseState)
    requires i < |ms| && ms[i].before == [] && ms[i].calls == 1 && ms[i].raises.None?
    ensures var down := RunFrom(ms, h, i + 1, st);
      RunFrom(ms, h, i, st).resp == if down.outcome.Raised? then down.resp else ApplyAll(down.resp, ms[i].after)
  {
    assert ApplyAll(st, []) == st;
    var down := RunFrom(ms, h, i + 1, st);
    if down.outcome.Returned? {
      assert CallNext(ms, h, i, 0, down.resp, down.outcome.v).resp == down.resp;
    }
  }

  /** Three headers set one after another all hold afterwards. */
  lemma ThreeHeaders(hs: Dict<string, string>, n1: string, v1: string, n2: string, v2: string, n3: string, v3: string)
    requires n1 != n2 && n1 != n3 && n2 != n3
    ensures var r := Set(Set(Set(hs, n1, v1), n2, v2), n3, v3);
      Get(r, n1) == Some(v1) && Get(r, n2) == Some(v2) && Get(r, n3) == Some(v3)
  {
    var a := Set(hs, n1, v1);
    var b := Set(a, n2, v2);
    GetSetSame(hs, n1, v1);
    GetSetSame(a, n2, v2);
    GetSetOther(a, n2, v2, n1);
    GetSetSame(b, n3, v3);
    GetSetOther(b, n3, v3, n1);
    GetSetOther(b, n3, v3, n2);
  }

  /**
   * The security headers are set after `next` returns, so they override
   * whatever the handler and the later middleware set under those names;
   * when the rest of the chain raises, this middleware sets nothing.
   */
  lemma SecurityHeadersAfterNext(ms: seq<Middleware>, h: Handler, i: nat, st: ResponseState)
    requires i < |ms| && ms[i] == SecurityHeadersMiddleware
    ensures var down := RunFrom(ms, h, i + 1, st);
      var hs := RunFrom(ms, h, i, st).resp.headers;
      if down.outcome.Raised? then RunFrom(ms, h, i, st).resp == down.resp
      else
        && Get(hs, "X-Content-Type-Options") == Some("nosniff")
        && Get(hs, "X-Frame-Options") == Some("DENY")
        && Get(hs, "X-XSS-Protection") == Some("1; mode=block")
  {
    AfterNextStep(ms, h, i, st);
    var down := RunFrom(ms, h, i + 1, st);
    if down.outcome.Returned? {
      var s := down.resp;
      var s1 := Apply(s, SecurityHeaders[0]);
      var s2 := Apply(s1, SecurityHeaders[1]);
      assert ApplyAll(s, SecurityHeaders) == ApplyAll(s2, SecurityHeaders[2..]);
      assert ApplyAll(s, SecurityHeaders).headers ==
        Set(Set(Set(s.headers, "X-Content-Type-Options", "nosniff"), "X-Frame-Options", "DENY"), "X-XSS-Protection", "1; mode=block");
      ThreeHeaders(s.headers, "X-Content-Type-Options", "nosniff", "X-Frame-Options", "DENY", "X-XSS-Protection", "1; mode=block");
    }
  }

  /**
   * Likewise the CORS headers: set after `next`, last, so the allowed
   * origin is the demo's whatever the handler set.
   */
  lemma CorsHeadersAfterNext(ms: seq<Middleware>, h: Handler, i: nat, st: ResponseState)
    requires i < |ms| && ms[i] == CorsMiddleware
    ensures var down := RunFrom(ms, h, i + 1, st);
      var hs := RunFrom(ms, h, i, st).resp.headers;
      if down.outcome.Raised? then RunFrom(ms, h, i, st).resp == down.resp
      else
        && Get(hs, "Access-Control-Allow-Origin") == Some("http://localhost:3000")
        && Get(hs, "Access-Control-Allow-Headers") == Some("Content-Type, X-API-Key")
        && Get(hs, "Access-Control-Allow-Credentials") == Some("true")
  {
    AfterNextStep(ms, h, i, st);
    var down := RunFrom(ms, h, i + 1, st);
    if down.outcome.Returned? {
      CorsApplied(down.resp);
      CorsValues(down.resp.headers);
    }
  }

  /** The four CORS headers written in order. */
  function WithCors(hs: Dict<string, string>): Dict<string, string> {
    Set(Set(Set(Set(hs, "Access-Control-Allow-Origin", "http://localhost:3000"),
      "Access-Control-Allow-Methods", "GET, POST, PUT, DELETE"),
      "Access-Control-Allow-Headers", "Content-Type, X-API-Key"),
      "Access-Control-Allow-Credentials", "true")
  }

  lemma CorsApplied(s: ResponseState)
    ensures ApplyAll(s, CorsHeaders).headers == WithCors(s.headers)
  {
    ApplyAllAppend(s, CorsHeaders[..2], CorsHeaders[2..]);
    assert CorsHeaders[..2] + CorsHeaders[2..] == CorsHeaders;
    assert CorsHeaders[..2] == [CorsHeaders[0], CorsHeaders[1]];
    assert CorsHeaders[2..] == [CorsHeaders[2], CorsHeaders[3]];
    ApplyTwo(s, CorsHeaders[0], CorsHeaders[1]);
    ApplyTwo(ApplyAll(s, CorsHeaders[..2]), CorsHeaders[2], CorsHeaders[3]);
  }

  lemma CorsValues(hs: Dict<string, string>)
    ensures Get(WithCors(hs), "Access-Control-Allow-Origin") == Some("http://localhost:3000")
    ensures Get(WithCors(hs), "Access-Control-Allow-Headers") == Some("Content-Type, X-API-Key")
    ensures Get(WithCors(hs), "Access-Control-Allow-Credentials") == Some("true")
  {
    var o := "Access-Control-Allow-Origin";
    var m := "Access-Control-Allow-Methods";
    var a := "Access-Control-Allow-Headers";
    var c := "Access-Control-Allow-Credentials";
    var t1 := Set(hs, o, "http://localhost:3000");
    var t2 := Set(t1, m, "GET, POST, PUT, DELETE");
    var t3 := Set(t2, a, "Content-Type, X-API-Key");
    GetSetSame(hs, o, "http://localhost:3000");
    GetSetOther(t1, m, "GET, POST, PUT, DELETE", o);
    GetSetOther(t2, a, "Content-Type, X-API-Key", o);
    GetSetOther(t3, c, "true", o);
    GetSetSame(t2, a, "Content-Type, X-API-Key");
    GetSetOther(t3, c, "true", a);
    GetSetSame(t3, c, "true");
  }

  // ---------------------------------------------------------------------
  // Validation and authentication
  // ---------------------------------------------------------------------

  const ContentTypeMessage := "Content-Type must be application/json for POST/PUT requests"

  /**
   * `validation_middleware`, given the method and the content type read
   * from the request: a POST or PUT whose content type does not start
   * with `application/json` raises `ValidationError` without calling `next`.
   */
  function ValidationCheck(verb: string, contentType: string): (m: Middleware)
    ensures m.calls == 0 <==> (verb == "POST" || verb == "PUT") && !StartsWith(contentType, "application/json")
    ensures m.calls == 0 ==> m.raises == Some(Exc("ValidationError", ContentTypeMessage))
    ensures m.calls != 0 ==> m == Passing([], [])
  {
    if (verb == "POST" || verb == "PUT") && !StartsWith(contentType, "application/json") then
      Raising("ValidationError", ContentTypeMessage)
    else Passing([], [])
  }

  /** `validation_middleware` on a request, with the intended header lookup. */
  function ValidationMiddleware(verb: string, headers: Dict<bytes, bytes>): Middleware {
    ValidationCheck(verb, HeaderOr(headers, "content-type", ""))
  }

  /** As written the content type is always `""`, so every POST and PUT is refused. */
  lemma ValidationAsWrittenRefuses(verb: string, headers: Dict<bytes, bytes>)
    requires verb == "POST" || verb == "PUT"
    ensures AsWritten(headers, "content-type") == None
    ensures ValidationCheck(verb, "").calls == 0
  {
    AsWrittenNeverFinds(headers, "content-type");
  }

  /** With the intended lookup, a POST or PUT sending a JSON content type is let through. */
  lemma JsonPostAdmitted(verb: string, headers: Dict<bytes, bytes>, contentType: string)
    requires HeaderText(headers, "content-type") == Some(contentType)
    requires StartsWith(contentType, "application/json")
    ensures ValidationMiddleware(verb, headers) == Passing([], [])
  {
  }

  const PublicRoutes := ["/", "/health", "/public"]
  const DemoApiKey := "demo-key-12345"

  /** The `current_user` the authentication middleware attaches. */
  function DemoUser(apiKey: string): Value {
    VDict([("id", VInt(1)), ("username", VStr("demo_user")), ("api_key", VStr(apiKey))])
  }

  /** What `auth_middleware` does, and the user it attaches to the request if any. */
  datatype AuthStep = AuthStep(middleware: Middleware, user: Option<Value>)

  /**
   * `auth_middleware`, given the path and the `x-api-key` value read
   * (`None` when absent): public paths pass unchecked; otherwise a
   * missing or empty key and a wrong key raise `AuthenticationError`, and
   * the demo key attaches the demo user before `next`.
   */
  function AuthCheck(path: string, apiKey: Option<Value>): (r: AuthStep)
    ensures path in PublicRoutes ==> r == AuthStep(Passing([], []), None)
    ensures path !in PublicRoutes ==>
      (r.middleware.calls == 1 <==> apiKey == Some(VStr(DemoApiKey)))
    ensures r.user.Some? <==> path !in PublicRoutes && apiKey == Some(VStr(DemoApiKey))
    ensures r.user.Some? ==> r.user.value == DemoUser(DemoApiKey)
    ensures r.middleware.calls == 0 ==> r.middleware.raises.Some? && r.middleware.raises.value.kind == "AuthenticationError"
  {
    if path in PublicRoutes then AuthStep(Passing([], []), None)
    else if apiKey.None? || !Truthy(apiKey.value) then
      AuthStep(Raising("AuthenticationError", "API key required. Add X-API-Key header."), None)
    else if apiKey.value != VStr(DemoApiKey) then
      AuthStep(Raising("AuthenticationError", "Invalid API key."), None)
    else AuthStep(Passing([], []), Some(DemoUser(apiKey.value.s)))
  }

  /** `auth_middleware` on a request, with the intended header lookup. */
  function AuthMiddleware(path: string, headers: Dict<bytes, bytes>): AuthStep {
    AuthCheck(path, match HeaderText(headers, "x-api-key") case Some(k) => Some(VStr(k)) case None => None)
  }

  /** With the intended lookup, a request sending the demo key is let through as the demo user. */
  lemma DemoKeyAdmitted(path: string, headers: Dict<bytes, bytes>)
    requires path !in PublicRoutes && HeaderText(headers, "x-api-key") == Some(DemoApiKey)
    ensures AuthMiddleware(path, headers) == AuthStep(Passing([], []), Some(DemoUser(DemoApiKey)))
  {
  }

  /** As written, every request for a path that is not public is refused, whatever it sends. */
  lemma AuthAsWrittenRefuses(path: string, headers: Dict<bytes, bytes>)
    requires path !in PublicRoutes
    ensures AuthCheck(path, AsWritten(headers, "x-api-key")) ==
            AuthStep(Raising("AuthenticationError", "API key required. Add X-API-Key header."), None)
  {
    AsWrittenNeverFinds(headers, "x-api-key");
  }

  /**
   * `get_current_user(request)`: the attribute if it is a non-empty dict
   * holding `id`, `username` and `api_key`; `None` otherwise.
   */
  function CurrentUser(user: Value): (r: Option<Value>)
    ensures r.Some? ==> r.value == user && user.VDict?
    ensures r.Some? <==> user.VDict? && "id" in Keys(user.entries) && "username" in Keys(user.entries) && "api_key" in Keys(user.entries)
  {
    if Truthy(user) && user.VDict? && "id" in Keys(user.entries) && "username" in Keys(user.entries)
       && "api_key" in Keys(user.entries) then
      Some(user)
    else None
  }

  /** The user the authentication middleware attaches passes the guard. */
  lemma AttachedUserPasses(apiKey: string)
    ensures CurrentUser(DemoUser(apiKey)) == Some(DemoUser(apiKey))
  {
    var es := DemoUser(apiKey).entries;
    assert Keys(es)[0] == "id" && Keys(es)[1] == "username" && Keys(es)[2] == "api_key";
  }

  /** A dict without `api_key` is refused, as is the absent attribute. */
  lemma IncompleteUserRefused()
    ensures CurrentUser(VDict([("id", VInt(1)), ("username", VStr("demo_user"))])) == None
    ensures CurrentUser(VNone) == None
  {
    var es := [("id", VInt(1)), ("username", VStr("demo_user"))];
    assert Keys(es) == ["id", "username"];
  }

  // ---------------------------------------------------------------------
  // Rate limiting
  // ---------------------------------------------------------------------

  const Window := 60
  const Limit := 20
  const LimitBody := VDict([("error", VStr("Rate limit exceeded")), ("message", VStr("Too many requests. Try again later."))])

  /** `current_time - timestamp < 60` */
  function InWindow(now: int): int -> bool {
    t => now - t < Window
  }

  /** The timestamps of the last minute, in order. */
  function Recent(stamps: seq<int>, now: int): (r: seq<int>)
    ensures |r| <= |stamps| && Subsequence(r, stamps)
    ensures forall t :: t in r <==> t in stamps && now - t < Window
  {
    FilterMeaning(stamps, InWindow(now));
    Filter(stamps, InWindow(now))
  }

  /** Cleaning at a later time keeps only what cleaning at that time alone keeps. */
  lemma RecentLater(stamps: seq<int>, earlier: int, later: int)
    requires earlier <= later
    ensures Recent(Recent(stamps, earlier), later) == Recent(stamps, later)
  {
    FilterFilter(stamps, InWindow(earlier), InWindow(later), InWindow(later));
  }

  /** The middleware a rate-limit decision amounts to: a refusal does not call `next`. */
  function RateLimitMiddleware(allowed: bool): (m: Middleware)
    ensures allowed ==> m == Passing([], [])
    ensures !allowed ==> m.calls == 0 && m.raises.None? && m.before == [SetStatus(429), Json(LimitBody)]
  {
    if allowed then Passing([], []) else Middleware([SetStatus(429), Json(LimitBody)], 0, [], None, ReturnValue(VNone))
  }

  /** `request_counts` of `simple_rate_limit_middleware`. */
  class RateLimiter {
    var counts: map<string, seq<int>>

    /** No client ever has more than the limit recorded. */
    ghost predicate Valid()
      reads this
    {
      forall c :: c in counts ==> |counts[c]| <= Limit
    }

    constructor()
      ensures Valid() && counts == map[]
    {
      counts := map[];
    }

    /** `request_counts.get(client, [])` */
    function Stamps(client: string): seq<int>
      reads this
    {
      if client in counts then counts[client] else []
    }

    /**
     * The bookkeeping of one request from `client` at `now`: the client's
     * list is cleaned; then with 20 or more left the request is refused
     * and not recorded, else `now` is appended. No other client's list
     * changes.
     */
    method Admit(client: string, now: int) returns (allowed: bool)
      requires Valid()
      modifies this
      ensures Valid()
      ensures allowed <==> |Recent(old(Stamps(client)), now)| < Limit
      ensures counts == old(counts)[client := Recent(old(Stamps(client)), now) + (if allowed then [now] else [])]
    {
      var kept := Recent(Stamps(client), now);
      counts := counts[client := kept];
      if |kept| >= Limit {
        allowed := false;
        assert kept + [] == kept;
      } else {
        counts := counts[client := kept + [now]];
        allowed := true;
      }
    }

    /** `simple_rate_limit_middleware` for one request: the client is `x-forwarded-for`, or `127.0.0.1`. */
    method Check(headers: Dict<bytes, bytes>, now: int) returns (m: Middleware)
      requires Valid()
      modifies this
      ensures Valid()
      ensures var client := HeaderOr(headers, "x-forwarded-for", "127.0.0.1");
        var kept := Recent(old(Stamps(client)), now);
        && m == RateLimitMiddleware(|kept| < Limit)
        && counts == old(counts)[client := kept + (if |kept| < Limit then [now] else [])]
    {
      var client := HeaderOr(headers, "x-forwarded-for", "127.0.0.1");
      var allowed := Admit(client, now);
      m := RateLimitMiddleware(allowed);
    }
  }

  /** The client as written: `request.headers.get("x-forwarded-for", "127.0.0.1")` with a `str` name. */
  function AsWrittenClient(headers: Dict<bytes, bytes>): string {
    match AsWritten(headers, "x-forwarded-for")
      case Some(VStr(c)) => c
      case _ => "127.0.0.1"
  }

  /** As written every request counts against the default client `127.0.0.1`. */
  lemma RateLimitAsWrittenSharesOneClient(headers: Dict<bytes, bytes>)
    ensures AsWritten(headers, "x-forwarded-for") == None
    ensures AsWrittenClient(headers) == "127.0.0.1"
  {
    AsWrittenNeverFinds(headers, "x-forwarded-for");
  }

  /**
   * As written, twenty requests from one forwarded address and then one
   * from another, all within the same second, share the budget of
   * `127.0.0.1`: the last request is refused, whatever the headers say.
   */
  method SharedBudgetAsWritten(first: Dict<bytes, bytes>, second: Dict<bytes, bytes>, now: int)
    returns (lastAllowed: bool)
    ensures !lastAllowed
  {
    var limiter := new RateLimiter();
    var i := 0;
    while i < Limit
      invariant 0 <= i <= Limit && limiter.Valid()
      invariant limiter.Stamps("127.0.0.1") == seq(i, _ => now)
    {
      RateLimitAsWrittenSharesOneClient(first);
      FilterAll(limiter.Stamps("127.0.0.1"), InWindow(now));
      var allowed := limiter.Admit(AsWrittenClient(first), now);
      i := i + 1;
    }
    RateLimitAsWrittenSharesOneClient(second);
    FilterAll(limiter.Stamps("127.0.0.1"), InWindow(now));
    lastAllowed := limiter.Admit(AsWrittenClient(second), now);
  }

  // ---------------------------------------------------------------------
  // The registered stack
  // ---------------------------------------------------------------------

  /**
   * The function middlewares in registration order (the exception
   * handler registered first is not part of this model): error logging,
   * request id, security headers, CORS, rate limit, timing, validation,
   * authentication.
   */
  function DemoStack(requestId: string, allowed: bool, duration: string, verb: string, path: string,
                     headers: Dict<bytes, bytes>): (ms: seq<Middleware>)
    ensures |ms| == 8
  {
    [ErrorLoggingMiddleware, RequestIdMiddleware(requestId), SecurityHeadersMiddleware, CorsMiddleware,
     RateLimitMiddleware(allowed), TimingMiddleware(duration), ValidationMiddleware(verb, headers),
     AuthMiddleware(path, headers).middleware]
  }

  /** A refused POST or PUT never reaches the authentication middleware or the handler. */
  lemma BadContentTypeStopsChain(requestId: string, allowed: bool, duration: string, verb: string, path: string,
                                 headers: Dict<bytes, bytes>, h: Handler, st: ResponseState)
    requires (verb == "POST" || verb == "PUT") && !StartsWith(HeaderOr(headers, "content-type", ""), "application/json")
    ensures var ms := DemoStack(requestId, allowed, duration, verb, path, headers);
      Entries(Execute(ms, h, st).trace, |ms|) == 0
  {
    ValidationSlot(requestId, allowed, duration, verb, path, headers);
    HandlerSkipped(DemoStack(requestId, allowed, duration, verb, path, headers), h, 6, st);
  }

  lemma ValidationSlot(requestId: string, allowed: bool, duration: string, verb: string, path: string,
                       headers: Dict<bytes, bytes>)
    requires (verb == "POST" || verb == "PUT") && !StartsWith(HeaderOr(headers, "content-type", ""), "application/json")
    ensures DemoStack(requestId, allowed, duration, verb, path, headers)[6].calls == 0
  { }

  /** A rate-limited request never reaches the handler either. */
  lemma RateLimitedStopsChain(requestId: string, duration: string, verb: string, path: string,
                              headers: Dict<bytes, bytes>, h: Handler, st: ResponseState)
    ensures var ms := DemoStack(requestId, false, duration, verb, path, headers);
      Entries(Execute(ms, h, st).trace, |ms|) == 0
  {
    RateLimitSlot(requestId, duration, verb, path, headers);
    HandlerSkipped(DemoStack(requestId, false, duration, verb, path, headers), h, 4, st);
  }

  lemma RateLimitSlot(requestId: string, duration: string, verb: string, path: string, headers: Dict<bytes, bytes>)
    ensures DemoStack(requestId, false, duration, verb, path, headers)[4].calls == 0
  { }
}
