# Artanis, modelled in Dafny

Artanis is a small Python ASGI web framework. This project models its core and proves properties of the model:

- **Path patterns.** `/users/{id}` compiles to a regular expression. The model includes the three anchors the framework uses and the engine's longest-first search for `[^/]+` groups.
- **`MiddlewareManager`.** Global middleware, and path middleware keyed by pattern.
- **`Response`.** The mutable response object that middleware share.
- **The middleware chain.** `MiddlewareChain`, `MiddlewareExecutor` and the onion order of `next`.
- **Request plumbing.** The request body read loop, its cache, and the JSON parsing of the body.
- **The ASGI send sequences.**
- **The applications.**
  - The application in `src/artanis/__init__.py` and `src/artanis/application.py`: `use`, handler-argument selection, the final handler's 404/405 decision over an abstract router, and `__call__`.
  - The older self-contained router `src/asgi.py`.
- **The example applications.**
  - The blog API: validation helpers, security helpers, the post routes and the auth routes.
  - The middleware demo.
  - The router-patterns demo.

Each module matches one part of the source:

| module | file | models |
|---|---|---|
| `Text`, `Values`, `OrderedDict`, `Seqs`, `Common` | `text.dfy`, `values.dfy`, `ordered_dict.dfy`, `seqs.dfy`, `common.dfy` | Python's `str.strip`, `str.lower`, `int()`, `str(int)`, slicing and `//`; the JSON-shaped values handlers exchange, with their truthiness; insertion-ordered `dict`; `next(...)`, comprehensions, `len([...])` |
| `PathPattern` | `path_pattern.dfy` | pattern compilation and the regular-expression match |
| `MiddlewareCore` | `middleware_core.dfy` | `src/artanis/middleware/core.py` |
| `ResponseModel` | `response.dfy` | `src/artanis/middleware/response.py` |
| `Chain` | `chain.dfy` | `src/artanis/middleware/chain.py` |
| `AsgiIo` | `asgi_io.dfy` | `Request.body`, `Request.json` and the send sequences of `src/artanis/__init__.py` |
| `Dispatch` | `dispatch.dfy` | the `App` of `src/artanis/__init__.py` and `src/artanis/application.py` |
| `LegacyAsgi` | `legacy_asgi.dfy` | `src/asgi.py` |
| `BlogValidation`, `BlogSecurity` | `blog_validation.dfy`, `blog_security.dfy` | `docs/examples/blog-api/utils/validation.py`, `.../utils/security.py` |
| `BlogPosts`, `BlogAuth` | `blog_posts.dfy`, `blog_auth.dfy` | `docs/examples/blog-api/routes/posts.py`, `.../routes/auth.py` |
| `RequestHeaders`, `MiddlewareDemo` | `headers.dfy`, `middleware_demo.dfy` | request-header lookup; `docs/examples/middleware_demo/app.py` |
| `RouterPatterns` | `router_patterns.dfy` | `docs/examples/router_patterns/app.py` |

Stateful parts are classes with the source's fields: the manager, the response, the executor, the request, both applications, and the post, user, rate-limit and demo stores. Each method is specified against pure functions of the old state; the properties are lemmas about those functions. Callables that the framework receives from outside are data in the model. A middleware is a description of what it does before and after `next`. Foreign functions are parameters: `json.dumps`, `json.loads`, SHA-256, JWT, the clock and the HTML sanitiser.

Some behaviours of the source are stated outright as lemmas, because a reader might expect otherwise:

- A path middleware registered under `/` applies only to `/` and to paths starting with `//` (`MiddlewareCore.RootPatternMatches`).
- A pattern ending in `$` is matched as a prefix, because the escaped `\$` already ends in `$` and no anchor is added (`MiddlewareCore.DollarPatternIsPrefix`).
- Calling `next` twice runs the rest of the chain, handler included, twice (`Chain.NextTwiceCallsHandlerTwice`).
- Registration in the blog API compares user names exactly, but login ignores case. A name that differs from an earlier one only in case can never log in with its own password (`BlogAuth.CaseShadowedLogin`).
- The post update's category list lacks `"General"`, the category every new post gets by default. A post cannot be moved back to it (`BlogPosts.GeneralRejectedOnUpdate`).
- An update that fails part-way keeps the steps already applied (`BlogPosts.TitleSurvivesContentError`).
- The 30-character tag limit applies before stripping. A short tag padded with spaces past 30 characters is refused, though it would be stored stripped (`BlogValidation.PaddedTagRefused`).
- A post whose slug is a number is not found by that slug unless some post has that number as its id (`BlogPosts.NumericSlugUnreachable`).
- Python's `$` accepts one final newline, so `"abc\n"` is a valid user name (`BlogValidation.UsernameNewlineAccepted`).

## Model

| member | source | states |
|---|---|---|
| `PathPattern.CompileSound` | src/artanis/middleware/core.py:38-45 | a pattern that compiles yields well-formed tokens (identifier group names, no name twice) that spell the pattern back |
| `PathPattern.CompileSource` | src/artanis/middleware/core.py:41-45 | every well-formed token sequence is what its own text compiles to (compilation and printing are inverse) |
| `PathPattern.CompileLiteral` | src/asgi.py:68-72 | a pattern without braces compiles to one literal per character |
| `PathPattern.MatchSound` | src/artanis/middleware/core.py:32-36 | a successful match has group values (non-empty, slash-free) that rebuild a prefix of the path the tail accepts, and the captured dict binds exactly those values |
| `PathPattern.MatchComplete` | src/artanis/middleware/core.py:32-36 | whenever such group values exist, the match succeeds (the engine's backtracking misses nothing) |
| `PathPattern.MatchIff` | src/asgi.py:86-93 | a pattern matches exactly when some choice of group values spells the path, and the captured parameters are given by one such choice |
| `PathPattern.MatchLiteral` | src/asgi.py:68-72 | a literal pattern matches exactly the paths that start with it and whose rest the tail accepts |
| `MiddlewareCore.PathMatches` | src/artanis/middleware/core.py:32-53 | `_path_matches`: fails exactly when the pattern does not compile, otherwise answers whether the anchored expression matches |
| `MiddlewareCore.PathMatchesMeaning` | src/artanis/middleware/core.py:47-51 | a compiled middleware pattern matches exactly when some group values spell a prefix of the path whose rest the anchor chosen by the pattern's last character accepts |
| `MiddlewareCore.LiteralPatternMatches` | src/artanis/middleware/core.py:47-49 | a plain pattern matches the path itself and its sub-paths |
| `MiddlewareCore.ApiIsNotAStringPrefix` | src/artanis/middleware/core.py:47-49 | `/api` matches `/api` and `/api/users` and does not match `/apix` |
| `MiddlewareCore.DotIsLiteral` | src/artanis/middleware/core.py:41 | `re.escape` makes `.` literal: `/a.b` does not match `/axb` |
| `MiddlewareCore.RootPatternMatches` | src/artanis/middleware/core.py:47-49 | the pattern `/` is no catch-all: it matches `/`, `/` plus a final newline, and paths that start with `//`, and nothing else (not `/users`) |
| `MiddlewareCore.DollarPatternIsPrefix` | src/artanis/middleware/core.py:48-51 | a pattern whose text ends in `$` gets no end anchor and matches as a literal prefix |
| `MiddlewareCore.MatchingAppend` | src/artanis/middleware/core.py:22-30 | selecting over two parts of the dict gives the two selections concatenated, failing if either fails |
| `MiddlewareCore.MatchingFailsIff` | src/artanis/middleware/core.py:22-30 | selection raises exactly when some registered pattern fails to compile |
| `MiddlewareCore.MatchingBounded` | src/artanis/middleware/core.py:22-30 | never more middleware are selected than are registered |
| `MiddlewareCore.MatchingAll` | src/artanis/middleware/core.py:22-30 | when every pattern matches, all path middleware are selected, grouped by pattern in insertion order |
| `MiddlewareCore.AddPathNewKey` | src/artanis/middleware/core.py:16-20 | a new pattern goes last in the dict, so its middleware follows every earlier selected middleware |
| `MiddlewareCore.AddPathExistingKey` | src/artanis/middleware/core.py:16-20 | a known pattern keeps its position; the new middleware joins the end of its group |
| `MiddlewareCore.AddPathCount` | src/artanis/middleware/core.py:16-20 | `add_path` registers exactly one more path middleware |
| `MiddlewareCore.AppendUnderFacts` | src/artanis/middleware/core.py:16-20 | `add_path` keeps keys unique, appends under its pattern and leaves every other pattern's list alone |
| `MiddlewareCore.MiddlewareManager.constructor` | src/artanis/middleware/core.py:8-10 | a new manager has no global and no path middleware |
| `MiddlewareCore.MiddlewareManager.AddGlobal` | src/artanis/middleware/core.py:12-14 | appends to the global list and leaves the path dict unchanged |
| `MiddlewareCore.MiddlewareManager.AddPath` | src/artanis/middleware/core.py:16-20 | the new dict is the old one with the middleware appended under the pattern; other patterns and the global list are unchanged |
| `MiddlewareCore.MiddlewareManager.FindMatchingMiddleware` | src/artanis/middleware/core.py:22-30 | the loop with `extend` yields exactly the selection over the dict in insertion order |
| `MiddlewareCore.MiddlewareManager.GetAllMiddlewareForPath` | src/artanis/middleware/core.py:55-58 | all global middleware first, then the selected path middleware |
| `MiddlewareCore.MiddlewareManager.Clear` | src/artanis/middleware/core.py:60-63 | both collections become empty |
| `MiddlewareCore.MiddlewareManager.MiddlewareCount` | src/artanis/middleware/core.py:65-72 | `global` is the global count, `path` the sum of the list lengths, `total` their sum |
| `ResponseModel.ApplyAllAppend` | src/artanis/middleware/response.py:14-33 | applying two runs of response changes one after the other is applying their concatenation |
| `ResponseModel.FinishedIsSticky` | src/artanis/middleware/response.py:31-37 | once finished, no sequence of method calls un-finishes a response |
| `ResponseModel.BodyBytes` | src/artanis/middleware/response.py:39-51 | `to_bytes` fails exactly when the body is a dict or list that `json.dumps` cannot serialise; a bytes body is sent unchanged |
| `ResponseModel.AsciiTextBody` | src/artanis/middleware/response.py:39-51 | an ASCII text body is sent as its own code points, one byte per character |
| `ResponseModel.IntBodyIsDecimal` | src/artanis/middleware/response.py:50-51 | an integer body is sent as its decimal digits |
| `ResponseModel.Response.constructor` | src/artanis/middleware/response.py:8-12 | status 200, no headers, no body, not finished |
| `ResponseModel.Response.Json` | src/artanis/middleware/response.py:14-17 | sets the body and the JSON content type; every other header, the status and the finished flag are unchanged |
| `ResponseModel.Response.SetHeader` | src/artanis/middleware/response.py:19-21 | afterwards the header reads back the value and no other header changes |
| `ResponseModel.Response.GetHeader` | src/artanis/middleware/response.py:23-25 | `None` exactly for a name never set, else the stored value |
| `ResponseModel.Response.SetStatus` | src/artanis/middleware/response.py:27-29 | only the status changes |
| `ResponseModel.Response.Finish` | src/artanis/middleware/response.py:31-33 | only the finished flag changes, to true |
| `ResponseModel.Response.Perform` | src/artanis/middleware/response.py:14-33 | a method call changes the state exactly as the effect it stands for |
| `ResponseModel.Response.GetHeadersList` | src/artanis/middleware/response.py:53-60 | one UTF-8-encoded pair per header, in the dict's order |
| `Chain.RunReplays` | src/artanis/middleware/chain.py:20-38 | the response a run leaves is exactly the effects recorded in its trace applied in order to the starting response (the shared `Response` is threaded through every middleware) |
| `Chain.EmptyChainCallsHandlerOnce` | src/artanis/middleware/chain.py:14-16 | with no middleware the final handler runs exactly once and its result is the chain's |
| `Chain.OnionOrder` | src/artanis/middleware/chain.py:20-38 | when every middleware calls `next` once and does not raise, the trace is every `before` part in registration order, then the handler, then every `after` part in reverse order |
| `Chain.PassingStep` | src/artanis/middleware/chain.py:32-36 | a passing middleware's trace is its entry and `before` effects, the downstream run, then its `after` effects |
| `Chain.RunParticipants` | src/artanis/middleware/chain.py:20-38 | a run started at middleware `i` only involves middleware `i` onwards and the handler |
| `Chain.ShortCircuit` | src/artanis/middleware/chain.py:32-36 | nothing after a middleware that never calls `next` takes part in the run |
| `Chain.HandlerSkipped` | src/artanis/middleware/chain.py:32-36 | when some middleware never calls `next`, the final handler never runs |
| `Chain.ResultIsFirstMiddlewares` | src/artanis/middleware/chain.py:18 | the chain returns what the first middleware returns, not the handler's value |
| `Chain.NextTwiceRunsDownstreamTwice` | src/artanis/middleware/chain.py:32-33 | `next` is not guarded: calling it twice runs the downstream chain twice, the second time on the response the first left |
| `Chain.NextTwiceCallsHandlerTwice` | src/artanis/middleware/chain.py:32-33 | so a middleware calling `next` twice above passing middleware makes the handler run twice |
| `Chain.HandlerOnceInOnion` | src/artanis/middleware/chain.py:20-38 | when every middleware passes, the handler runs exactly once |
| `Chain.Recover` | src/artanis/middleware/chain.py:62-65 | the error fix-up leaves a finished response alone and otherwise makes it finished, 500, with the error body and the JSON content type |
| `Chain.RecoverIdempotent` | src/artanis/middleware/chain.py:75-78 | fixing up a second time changes nothing (the second executor's check sees a finished response) |
| `Chain.ForRequestRaised` | src/artanis/middleware/chain.py:57-66 | an exception from the chain is re-raised, with the response fixed up unless already finished |
| `Chain.ForRequestReturned` | src/artanis/middleware/chain.py:57-58 | a chain that returns passes its result and response through untouched |
| `Chain.ErrorHandlingFinishes` | src/artanis/middleware/chain.py:71-81 | on any error the result is the response object itself, finished and fixed up |
| `Chain.ErrorHandlingTransparent` | src/artanis/middleware/chain.py:71-72 | without an error, `execute_with_error_handling` is `execute_for_request` |
| `Chain.MiddlewareExecutor.constructor` | src/artanis/middleware/chain.py:44-45 | keeps the manager it is given |
| `Chain.MiddlewareExecutor.RunChain` | src/artanis/middleware/chain.py:12-38 | performing the chain on the shared response yields the outcome and response state of the chain's meaning |
| `Chain.MiddlewareExecutor.Fixup` | src/artanis/middleware/chain.py:62-65 | the `is_finished`/`set_status`/`json`/`finish` sequence leaves the fixed-up state |
| `Chain.MiddlewareExecutor.ExecuteForRequest` | src/artanis/middleware/chain.py:47-66 | outcome and response are those of selecting the middleware for the path and running the chain, with the fix-up on errors |
| `Chain.MiddlewareExecutor.ExecuteWithErrorHandling` | src/artanis/middleware/chain.py:68-81 | outcome and response are those of `execute_for_request`, with every error turned into the finished response |
| `AsgiIo.ChunksAppend` | src/artanis/__init__.py:125-132 | joining the body parts of two runs of messages is joining each run's parts |
| `AsgiIo.ReadBodyMeaning` | src/artanis/__init__.py:124-132 | the read loop consumes messages up to and including the first `http.request` without `more_body`, skipping other types, and the body is those parts joined; it never ends exactly when no such message comes |
| `AsgiIo.ShownValue` | src/artanis/__init__.py:153 | the value shown for a bad JSON body is the whole text under 200 bytes, else the first 200 characters and `...` |
| `AsgiIo.JsonOf` | src/artanis/__init__.py:146-155 | parsing succeeds exactly when the body decodes and the text parses; a parse failure is the validation error on field `body` with the shown value |
| `AsgiIo.ShownValueWholeText` | src/artanis/__init__.py:153 | the length test counts bytes and the cut counts characters, so a long body whose text has at most 200 characters is shown whole with `...` appended |
| `AsgiIo.ShownValueBound` | src/artanis/__init__.py:153 | the shown value has at most 203 characters and, for a long body, starts the body's text |
| `AsgiIo.Request.constructor` | src/artanis/__init__.py:104-113 | no body cached, no path parameters, and the header dict built from the scope's pairs, where a repeated name keeps its last value |
| `AsgiIo.Request.Body` | src/artanis/__init__.py:115-133 | a cached body is returned without reading; otherwise the loop's result is the body of the read, which is cached, and the messages it consumed are gone |
| `AsgiIo.Request.Json` | src/artanis/__init__.py:135-155 | the parse of the body `body()` yields, cached or freshly read, and an error when the body never ends |
| `AsgiIo.JsonMessages` | src/artanis/__init__.py:426-454 | a start message with the JSON content type and the body's length, then the body; nothing is sent when `json.dumps` fails |
| `AsgiIo.JsonMessagesLength` | src/artanis/__init__.py:444 | the announced content length is the length of the body sent |
| `Dispatch.BindOne` | src/artanis/__init__.py:407-411 | a parameter named by a path key gets that path value; otherwise a parameter named `request` gets the request when there is one; any other parameter gets nothing |
| `Dispatch.BindArgs` | src/artanis/__init__.py:406-411 | the handler never gets more arguments than its signature has parameters |
| `Dispatch.BindArgsAppend` | src/artanis/__init__.py:406-411 | arguments are bound one parameter at a time, in signature order |
| `Dispatch.BindArgsAllPath` | src/artanis/__init__.py:406-409 | when every parameter names a path value, the handler gets exactly those values, in signature order |
| `Dispatch.BindArgsSkips` | src/artanis/__init__.py:407-411 | a parameter that is neither a path key nor `request` is skipped, so the arguments after it move up one place |
| `Dispatch.PathValueBeatsRequest` | src/artanis/__init__.py:408-411 | a path parameter called `request` receives the path value, not the request object |
| `Dispatch.CallHandler` | src/artanis/__init__.py:402-424 | the call succeeds exactly when the handler returns, and gives its value; otherwise the result is a `HandlerError` that carries the route's path, the method and the original exception |
| `Dispatch.HandlerExceptionsAreWrapped` | src/artanis/__init__.py:416-424 | every exception a handler raises reaches the final handler as a `HandlerError`, never as the generic failure |
| `Dispatch.FindRoute` | src/artanis/application.py:205-224 | a route is found exactly when the router finds one; when none is found the parameters are `{}` |
| `Dispatch.FinalHandlerReturns` | src/artanis/application.py:274-311 | the final handler always returns the response and never raises |
| `Dispatch.FoundResultIsBody` | src/artanis/application.py:275-282 | when the handler returns and the response is not finished, the result becomes the JSON body with `application/json`, and the status middleware set is kept |
| `Dispatch.FoundFinishedUntouched` | src/artanis/application.py:280-298 | once a route is found, a response that is already finished is left exactly as it is, whatever the handler did |
| `Dispatch.FailureStatus` | src/artanis/application.py:283-298 | a `HandlerError` sets its own status and `to_dict()` body; any other exception gives 500 `{"error": "Internal Server Error"}` |
| `Dispatch.NoRouteDecision` | src/artanis/application.py:299-311 | with no route the answer is 405 exactly when the path allows some other method, and 404 otherwise; it is written even on a finished response and leaves the finished flag alone |
| `Dispatch.LowerBytes` | src/artanis/__init__.py:484 | `bytes.lower()` keeps the length and lowers each ASCII capital |
| `Dispatch.Encoded` | src/artanis/middleware/response.py:53-60 | the header list has one encoded pair per response header, in the headers' order |
| `Dispatch.ResponseMessages` | src/artanis/__init__.py:468-508 | no message is sent exactly when the body cannot be serialised; otherwise the reply is a start message with the response status, then one body message carrying the serialised body |
| `Dispatch.LowerNoCapitals` | src/artanis/__init__.py:483-484 | bytes with no ASCII capital are their own lower case |
| `Dispatch.AddIfMissingFacts` | src/artanis/__init__.py:483-487 | the existing headers stay in front; the new header is appended exactly when no header has that name in any case, and then it is the only one with that name |
| `Dispatch.AddIfMissingOther` | src/artanis/__init__.py:487-493 | appending a header of another name neither creates nor removes a header with the name looked for |
| `Dispatch.DefaultsFacts` | src/artanis/__init__.py:482-493 | the combined defaults: the original headers come first, a content length is always present, and the content type is appended exactly when it is missing and the body is JSON |
| `Dispatch.ContentLengthDefault` | src/artanis/__init__.py:482-487 | the response's own headers go first, unchanged; when none of them is named content-length in any case, the decimal byte length of the body follows; a content length is always sent |
| `Dispatch.ContentTypeDefault` | src/artanis/__init__.py:489-493 | `application/json` is appended as the last header exactly when no header is named content-type and the body is a dict or a list; otherwise whether a content type is sent depends only on the response's own headers |
| `Dispatch.NonHttpIgnored` | src/artanis/application.py:257-258 | a scope whose type is not `http` gets no reply and raises nothing |
| `Dispatch.StartThenBody` | src/artanis/__init__.py:582-593 | every reply to an `http` scope is one start message followed by one body message |
| `Dispatch.UnsendableBodyGives500` | src/artanis/__init__.py:588-593 | when the response body cannot be serialised, the reply is the 500 `Internal Server Error` JSON response |
| `Dispatch.PlainRequestAnswers200` | src/artanis/application.py:264-282 | with no middleware for the path, a found route whose handler returns `v` leaves an unfinished response with status 200 and body `v` |
| `Dispatch.App.constructor` | src/artanis/application.py:48-56 | a new app has a fresh manager and executor sharing that manager, no path middleware, and the request logger as its only global middleware exactly when logging is enabled |
| `Dispatch.App.Use` | src/artanis/application.py:140-168 | with one argument, a callable is appended to the global list and anything else is ignored; with two, the middleware is appended under a string path and anything else is ignored; nothing else changes |
| `Dispatch.App.Call` | src/artanis/application.py:241-324 | the messages sent, and whether an exception escapes, are those of the whole-request specification `CallSpec`: the middleware chain with error handling around the final handler, then the response, or the 500 error response when the body cannot be serialised |
| `Dispatch.SendResponse` | src/artanis/__init__.py:468-508 | the messages built by appending the header defaults are the ones `ResponseMessages` describes |
| `LegacyAsgi.RegisteredOk` | src/asgi.py:58-66 | registering keeps the route table well formed: distinct paths, distinct methods per path, and each route filed under its own path and method with its path compiled as its pattern |
| `LegacyAsgi.InsertOk` | src/asgi.py:61-66 | filing a route under its own path and method keeps the table well formed |
| `LegacyAsgi.RegisteredFinds` | src/asgi.py:58-72 | after registering a path that compiles, the path's dict holds the new route under its method, so the last registration wins |
| `LegacyAsgi.RegisteredBadPath` | src/asgi.py:59-72 | a path that does not compile raises, and leaves behind the path's empty dict when the path was new, and nothing else |
| `LegacyAsgi.RegisteredOthers` | src/asgi.py:58-66 | registration changes no route filed under another path or another method |
| `LegacyAsgi.FirstMatch` | src/asgi.py:86-93 | a route found matches the path with its anchored pattern, and the captured values are that match's |
| `LegacyAsgi.FirstMatchMeaning` | src/asgi.py:86-93 | the lookup answers the route of the first path, in table order, that has the method and a matching pattern; it finds nothing exactly when no path has one |
| `LegacyAsgi.OtherMethodOnly` | src/asgi.py:95-101 | in a well-formed table, when no route for the method matches but some route does, that route has another method, so 405 is right |
| `LegacyAsgi.FoundImpliesAnyHit` | src/asgi.py:86-101 | a route found for the method is also found by the any-method scan |
| `LegacyAsgi.GroupDict` | src/asgi.py:92 | `groupdict()` holds exactly the captured names of the pattern, each with its captured value |
| `LegacyAsgi.GetGroupDict` | src/asgi.py:92 | looking a name up in the group dict gives its captured value, or nothing for a name the pattern does not capture |
| `LegacyAsgi.LegacyCallAgrees` | src/asgi.py:103-117 | the older `_call_handler` binds arguments as the framework's does and returns the same value; it lets exceptions through where the framework's wraps them |
| `LegacyAsgi.RespondStatus` | src/asgi.py:139-159 | every reply is one start and one body message; it is 200 exactly when a route is found, its handler returns and the result serialises; 405 only when no route for the method matches but one of another method does; 404 only when nothing matches; 500 only when a route was found |
| `LegacyAsgi.RespondIgnoresOthers` | src/asgi.py:140-141 | a scope that is not `http` gets no reply |
| `LegacyAsgi.RespondBody` | src/asgi.py:148-152 | a handler's value is sent, serialised, as the body of the reply |
| `LegacyAsgi.App.constructor` | src/asgi.py:38-39 | a new app has an empty route table |
| `LegacyAsgi.App.Register` | src/asgi.py:58-72 | the new table and the raised flag are those of `Registered`, and the table stays well formed |
| `LegacyAsgi.App.RegisterGet` | src/asgi.py:74-75 | registers under `GET` |
| `LegacyAsgi.App.RegisterPost` | src/asgi.py:77-78 | registers under `POST` |
| `LegacyAsgi.App.RegisterPut` | src/asgi.py:80-81 | registers under `PUT` |
| `LegacyAsgi.App.RegisterDelete` | src/asgi.py:83-84 | registers under `DELETE` |
| `LegacyAsgi.App.FindRoute` | src/asgi.py:86-93 | the loop over the paths answers `FirstMatch`'s route with its group dict, or no route and `{}` |
| `LegacyAsgi.App.PathExists` | src/asgi.py:95-101 | the nested loop answers true exactly when some route of any path and method matches the path |
| `LegacyAsgi.App.Call` | src/asgi.py:139-159 | the messages sent and the escaped exception are those of `Respond` |
| `LegacyAsgi.LegacyJson` | src/asgi.py:25-27 | the body parses exactly when it decodes and the text is JSON |
| `LegacyAsgi.LegacyJsonAgrees` | src/asgi.py:25-27 | the older `json()` accepts the same bodies as the framework's `Request.json`, with the same values |
| `BlogValidation.DropFinalNewline` | docs/examples/blog-api/utils/validation.py:13 | the text `$` tolerates is the string itself or the string with one final newline removed |
| `BlogValidation.Reassembled` | docs/examples/blog-api/utils/validation.py:13 | cutting an address at its `@` and at a later `.` and joining the pieces gives the address back |
| `BlogValidation.ScanGivesShape` | docs/examples/blog-api/utils/validation.py:13-14 | a string the scan accepts has the pattern's shape: local part, `@`, domain, `.`, top-level domain of two or more letters |
| `BlogValidation.ShapeGivesScan` | docs/examples/blog-api/utils/validation.py:13-14 | every string of the pattern's shape passes the scan |
| `BlogValidation.DomainGivesScan` | docs/examples/blog-api/utils/validation.py:13 | a domain of pattern characters followed by `.` and two or more letters passes the domain scan |
| `BlogValidation.NotAmong` | docs/examples/blog-api/utils/validation.py:13 | a character outside a class does not occur in a string drawn from that class |
| `BlogValidation.ShapeScanIff` | docs/examples/blog-api/utils/validation.py:13-14 | the scan accepts exactly the strings of the pattern's shape |
| `BlogValidation.ValidateEmailIff` | docs/examples/blog-api/utils/validation.py:11-14 | `validate_email` accepts exactly the strings the regular expression matches, with one final newline allowed by `$` |
| `BlogValidation.EmailTrailingNewline` | docs/examples/blog-api/utils/validation.py:13-14 | a well-formed address followed by a newline is accepted too |
| `BlogValidation.ValidateUsernameIff` | docs/examples/blog-api/utils/validation.py:17-22 | a user name is accepted exactly when it is 3 to 30 characters long and made of word characters, except possibly one final newline |
| `BlogValidation.UsernameNewlineAccepted` | docs/examples/blog-api/utils/validation.py:19-22 | `"abc\n"` is a valid user name |
| `BlogValidation.StrippedUsername` | docs/examples/blog-api/utils/validation.py:17-22 | a name that is accepted after `strip()` is made of word characters only |
| `BlogValidation.HasExtended` | docs/examples/blog-api/utils/validation.py:30-33 | a character class present in a password stays present when characters are added around it |
| `BlogValidation.PasswordExtended` | docs/examples/blog-api/utils/validation.py:25-35 | surrounding a strong password with more characters keeps it strong |
| `BlogValidation.AnyStr` | docs/examples/blog-api/utils/validation.py:30-33 | `any()` over the elements: true exactly when some element is a string passing the test; it raises only on reaching an element that is not a string, so a list of strings never raises |
| `BlogValidation.PasswordCheck` | docs/examples/blog-api/utils/validation.py:25-35 | `validate_password` on any value: a value without `len()` raises `TypeError`; a string, list, tuple, dict or bytes value shorter than eight is refused without raising; elements that are all strings never raise |
| `BlogValidation.PasswordCheckOfString` | docs/examples/blog-api/utils/validation.py:25-35 | on a string the check is the password rule: at least eight characters with an upper-case letter, a lower-case letter, a digit and a special character |
| `BlogAuth.PasswordProblem` | docs/examples/blog-api/routes/auth.py:95-97 | for a string password no problem is reported exactly when the password rule holds; a refusal without an exception carries the rule's message under the given field |
| `BlogAuth.ShortPasswordValueRefused` | docs/examples/blog-api/routes/auth.py:95-97 | a password sent as a list or dict of fewer than eight entries is refused with the password rule's message, like a short string |
| `BlogValidation.Field` | docs/examples/blog-api/utils/validation.py:42-47 | `d.get(k, default)` gives the default for an absent key, and otherwise the value stored under the key |
| `BlogValidation.Read` | docs/examples/blog-api/utils/validation.py:42-47 | on an object, the key is found exactly when it is present, with its stored value; anything else fails |
| `BlogValidation.GetField` | docs/examples/blog-api/utils/validation.py:42-47 | `.get` succeeds exactly on an object, and then gives `Field` |
| `BlogValidation.CheckTags` | docs/examples/blog-api/utils/validation.py:92-98 | the tags the loop passes are the ones sent, as strings |
| `BlogValidation.CheckTagsPassesIff` | docs/examples/blog-api/utils/validation.py:92-98 | the loop passes exactly when every tag is a non-blank string of at most 30 characters as sent |
| `BlogValidation.CleanTags` | docs/examples/blog-api/utils/validation.py:109 | the stored list is no longer than the one sent, and every stored tag is non-blank and already stripped |
| `BlogValidation.CleanTagsKeeps` | docs/examples/blog-api/utils/validation.py:109 | tags that are already clean are kept as they are |
| `BlogValidation.CleanTagsBounded` | docs/examples/blog-api/utils/validation.py:96-109 | stripping never lengthens a tag, so the 30-character bound still holds after cleaning |
| `BlogValidation.CheckPost` | docs/examples/blog-api/utils/validation.py:49-111 | an accepted body keeps the stripped texts, the category and the status as sent, and stores the tags of a passing list, cleaned |
| `BlogValidation.CheckPostIff` | docs/examples/blog-api/utils/validation.py:49-111 | the checks pass exactly when the title has 1 to 200 characters, the content 1 to 50,000, the summary at most 500, the category and status are listed, and at most ten tags, each passing the loop, are sent |
| `BlogValidation.CheckPostClean` | docs/examples/blog-api/utils/validation.py:49-111 | on stripped texts, what passes is within every bound it checks, with clean tags of at most 30 characters |
| `BlogValidation.CheckedTagsKept` | docs/examples/blog-api/utils/validation.py:92-109 | the stored tags are the sent tags, stripped, one for one |
| `BlogValidation.CleanTagsAllKept` | docs/examples/blog-api/utils/validation.py:109 | when no tag is blank, cleaning keeps one stripped entry per tag |
| `BlogValidation.ValidatedIsClean` | docs/examples/blog-api/utils/validation.py:38-111 | whatever `validate_post_data` returns is within every bound it checks |
| `BlogValidation.AsValues` | docs/examples/blog-api/utils/validation.py:104-111 | a list of strings becomes a JSON list of the same strings, in order |
| `BlogValidation.AsValuesInjective` | docs/examples/blog-api/utils/validation.py:104-111 | different string lists give different JSON lists |
| `BlogValidation.TagsRoundTrip` | docs/examples/blog-api/utils/validation.py:92-109 | clean tags sent as a list of strings pass the loop and are stored as they were |
| `BlogValidation.RevalidateClean` | docs/examples/blog-api/utils/validation.py:38-111 | an object carrying a clean post validates to that same post |
| `BlogValidation.FieldsOfCarried` | docs/examples/blog-api/utils/validation.py:42-47 | reading each field of an object that carries a post gives that post's values |
| `BlogValidation.RecheckClean` | docs/examples/blog-api/utils/validation.py:49-111 | the checks accept a clean post's own fields and return the same post |
| `BlogValidation.ValidatePostDataIdempotent` | docs/examples/blog-api/utils/validation.py:38-111 | validation is idempotent: any object carrying its output validates to the same result |
| `BlogValidation.PaddedTagRefused` | docs/examples/blog-api/utils/validation.py:92-98 | the 30-character limit applies to the tag as sent: a short word padded with spaces past 30 characters is refused although its stripped form is short |
| `BlogValidation.TrimRightPadded` | docs/examples/blog-api/utils/validation.py:93 | trailing whitespace is removed by the right trim |
| `BlogValidation.TrimLeftPadded` | docs/examples/blog-api/utils/validation.py:93 | the left trim of a text that is not all whitespace is unaffected by what follows it |
| `BlogValidation.PaddedStrip` | docs/examples/blog-api/utils/validation.py:93 | trailing whitespace after a non-blank text is stripped away |
| `BlogValidation.Extension` | docs/examples/blog-api/utils/validation.py:139 | the extension never contains a dot |
| `BlogValidation.LowerAppend` | docs/examples/blog-api/utils/validation.py:139 | lower-casing works character by character |
| `BlogValidation.ExtensionOf` | docs/examples/blog-api/utils/validation.py:139 | the extension of `stem.ext` is `ext` lower-cased |
| `BlogValidation.ValidateFileUploadIff` | docs/examples/blog-api/utils/validation.py:114-145 | an upload passes exactly when it is present, no larger than the limit when it has a size, and, when a list of extensions is given, has a non-empty file name whose extension is listed |
| `BlogValidation.UploadExtensionCaseBlind` | docs/examples/blog-api/utils/validation.py:139-140 | `photo.JPG` passes a list naming `jpg` |
| `BlogSecurity.VerifyIffSameHash` | docs/examples/blog-api/utils/security.py:21-30 | a stored hash accepts exactly the passwords whose salted digest equals that of the password it was made from |
| `BlogSecurity.PathName` | docs/examples/blog-api/utils/security.py:65-66 | the last component of a path contains no `/` and is never `.` |
| `BlogSecurity.Sanitize` | docs/examples/blog-api/utils/security.py:69 | every unsafe character is replaced by `_` one for one and safe characters are kept, so the result is all safe characters |
| `BlogSecurity.SuffixAt` | docs/examples/blog-api/utils/security.py:72-74 | the suffix starts at the last `.` when it is neither the first nor the last character; otherwise there is none |
| `BlogSecurity.Suffix` | docs/examples/blog-api/utils/security.py:74 | a suffix is empty or a `.` followed by at least one character and no other dot |
| `BlogSecurity.StemSuffix` | docs/examples/blog-api/utils/security.py:72-74 | the stem followed by the suffix is the name |
| `BlogSecurity.Truncated` | docs/examples/blog-api/utils/security.py:75-76 | the cut name is a prefix of at most 50 characters, and a name of at most 50 characters is kept whole |
| `BlogSecurity.SecureFilename` | docs/examples/blog-api/utils/security.py:62-78 | the secure file name is made of safe characters only |
| `BlogSecurity.NameIsSafe` | docs/examples/blog-api/utils/security.py:65-69 | the cleaned last component is made of safe characters |
| `BlogSecurity.PathNameOfPlain` | docs/examples/blog-api/utils/security.py:65-66 | a name without `/` is its own last component, unless it is empty or `.` |
| `BlogSecurity.PathNameDropsDirectory` | docs/examples/blog-api/utils/security.py:64-66 | directory components are dropped: only the last component survives |
| `BlogSecurity.SecureFilenameDropsDirectory` | docs/examples/blog-api/utils/security.py:64-78 | the secure name of `dir/name` is the secure name of `name` |
| `BlogSecurity.SanitizeKeepsDots` | docs/examples/blog-api/utils/security.py:69-74 | replacing characters keeps every `.` where it was and adds none, so the suffix starts at the same place |
| `BlogSecurity.SanitizeSlices` | docs/examples/blog-api/utils/security.py:69 | replacing characters one for one commutes with taking a slice |
| `BlogSecurity.SecureFilenameShape` | docs/examples/blog-api/utils/security.py:62-78 | the result is the cleaned stem of the file's last component cut to 50 characters, followed by its cleaned suffix; a name with no component gives `""` |
| `BlogSecurity.SafeNameUnchanged` | docs/examples/blog-api/utils/security.py:62-78 | a name that is already safe, with a stem of at most 50 characters, is returned unchanged |
| `BlogSecurity.SecureFilenameIdempotent` | docs/examples/blog-api/utils/security.py:62-78 | cleaning a cleaned name changes nothing |
| `BlogSecurity.OutputStem` | docs/examples/blog-api/utils/security.py:62-78 | the cleaned output is a kept path component whose own stem has at most 50 characters |
| `BlogPosts.CollapseSpaces` | docs/examples/blog-api/routes/posts.py:110 | no whitespace is left |
| `BlogPosts.CollapseKeepsSlugChars` | docs/examples/blog-api/routes/posts.py:109-110 | once only slug characters and whitespace are kept, collapsing the whitespace leaves only slug characters |
| `BlogPosts.CollapseWithoutSpaces` | docs/examples/blog-api/routes/posts.py:110 | a text without whitespace is unchanged |
| `BlogPosts.GenerateSlug` | docs/examples/blog-api/routes/posts.py:104-111 | a slug is made of `a-z`, `0-9` and `-` only, and neither starts nor ends with `-` |
| `BlogPosts.GenerateSlugIdempotent` | docs/examples/blog-api/routes/posts.py:104-111 | the slug of a slug is the slug itself |
| `BlogPosts.SlugIsFixed` | docs/examples/blog-api/routes/posts.py:104-111 | text already made of slug characters, with no `-` at either end, is its own slug |
| `BlogPosts.CandidateInjective` | docs/examples/blog-api/routes/posts.py:262-263 | the slugs tried, `base`, `base-1`, `base-2`, …, are all different |
| `BlogPosts.FirstFreeUnique` | docs/examples/blog-api/routes/posts.py:259-264 | only one slug is the first free candidate, so the loop's answer is fixed by its inputs |
| `BlogPosts.FirstFreeBase` | docs/examples/blog-api/routes/posts.py:259-264 | a free base slug is used as it is |
| `BlogPosts.FreeSlug` | docs/examples/blog-api/routes/posts.py:259-264 | the loop ends with a slug no listed post has: the base when it is free, otherwise `base-k` for the smallest free k |
| `BlogPosts.Slugs` | docs/examples/blog-api/routes/posts.py:262 | the slugs `create_post` avoids are every stored post's, in order |
| `BlogPosts.SlugsExcept` | docs/examples/blog-api/routes/posts.py:309 | the slugs `_update_post_title` avoids are exactly those of the posts with another id |
| `BlogPosts.Lookup` | docs/examples/blog-api/routes/posts.py:114-122 | a post found is a stored post |
| `BlogPosts.LookupMeaning` | docs/examples/blog-api/routes/posts.py:114-122 | an identifier that reads as an integer finds the first post with that id, any other the first post with that slug; nothing is found when no post has it |
| `BlogPosts.LookupById` | docs/examples/blog-api/routes/posts.py:117-119 | with ids unique, the decimal form of a post's id finds that post |
| `BlogPosts.LookupBySlug` | docs/examples/blog-api/routes/posts.py:120-122 | with slugs unique, a slug that does not read as an integer finds its post |
| `BlogPosts.NumericSlugUnreachable` | docs/examples/blog-api/routes/posts.py:117-122 | an identifier that reads as an integer is only compared with ids, so a post whose slug is a number no id has cannot be found by its slug |
| `BlogPosts.NarrowKeepsOrder` | docs/examples/blog-api/routes/posts.py:134-158 | each optional filter keeps the order of what it keeps |
| `BlogPosts.FilteredMeaning` | docs/examples/blog-api/routes/posts.py:129-158 | the listing before sorting keeps the stored order and holds exactly the published posts that pass every filter that is set |
| `BlogPosts.FilteredOrder` | docs/examples/blog-api/routes/posts.py:129-158 | the listing before sorting is a subsequence of the stored posts |
| `BlogPosts.FilteredMember` | docs/examples/blog-api/routes/posts.py:129-158 | a post is listed exactly when it is stored, published and passes every filter that is set |
| `BlogPosts.NarrowMember` | docs/examples/blog-api/routes/posts.py:134-158 | a post survives one filter exactly when it was there and the filter is off or it passes |
| `BlogPosts.PageSize` | docs/examples/blog-api/routes/posts.py:183-189 | `per_page` is at most 50, and both values fall back to 1 and 10 when either does not parse |
| `BlogPosts.TotalPagesIsCeiling` | docs/examples/blog-api/routes/posts.py:196-197 | `total_pages` is the smallest number of pages of `per_page` items that holds every item |
| `BlogPosts.PageWindow` | docs/examples/blog-api/routes/posts.py:191-193 | for `page >= 1` the page is the items from `(page-1)*per_page` to `page*per_page`, cut at the end |
| `BlogPosts.HasNextIff` | docs/examples/blog-api/routes/posts.py:206 | `has_next` holds exactly when items remain after the page |
| `BlogPosts.GetPosts` | docs/examples/blog-api/routes/posts.py:125-217 | the listing fails with `ZeroDivisionError` exactly when `per_page` is 0; otherwise it reports the stripped filters and the number of posts that pass them, and shows only posts from the sorted listing |
| `BlogPosts.PageFrom` | docs/examples/blog-api/routes/posts.py:193 | a page holds only listed items |
| `BlogPosts.GetPostsMeaning` | docs/examples/blog-api/routes/posts.py:125-217 | whatever the sort does, as long as it only reorders, every post on a page is a stored published post passing every filter that is set |
| `BlogPosts.TitleChange` | docs/examples/blog-api/routes/posts.py:297-303 | no title sent changes nothing; a sent string gives its stripped text, or "Title cannot be empty" when that is blank; a title that is no string, or a body that cannot be read, is refused |
| `BlogPosts.SetContent` | docs/examples/blog-api/routes/posts.py:315-320 | only the content can change; no content sent changes nothing; sent content becomes its sanitised text, or is refused with "Content cannot be empty" when blank, the post left alone; a non-string is refused |
| `BlogPosts.SetSummary` | docs/examples/blog-api/routes/posts.py:325-326 | only the summary can change; a sent string becomes the summary, stripped; nothing sent changes nothing; a non-string is refused, the post left alone |
| `BlogPosts.SetCategory` | docs/examples/blog-api/routes/posts.py:328-333 | only the category can change; a sent category of the module's list is set; any other sent value is refused with the rule's message, the post left alone; nothing sent changes nothing |
| `BlogPosts.Strings` | docs/examples/blog-api/routes/posts.py:339 | the texts are found exactly when every tag is a string, and they are those strings |
| `BlogPosts.SetTags` | docs/examples/blog-api/routes/posts.py:335-339 | only the tags can change; a sent list of strings becomes its cleaned tags, all non-blank and stripped; a sent non-list gives "Tags must be an array"; a list with a non-string is refused; nothing sent changes nothing |
| `BlogPosts.SetStatus` | docs/examples/blog-api/routes/posts.py:341-351 | only the status and the publication time can change; a sent draft or published is set, any other value refused with the status rule, the post left alone; the publication time is set to now exactly on a move to published |
| `BlogPosts.SetMetadata` | docs/examples/blog-api/routes/posts.py:323-351 | only summary, category, tags, status and publication time can change, the publication time only on a move to published; when every step passes, each field holds what was sent for it (stripped summary, cleaned tags) or its old value when nothing was sent |
| `BlogPosts.Revise` | docs/examples/blog-api/routes/posts.py:379-389 | an update never touches id, author, counters or creation time; a bad title stops it before anything changes; a new title comes with the chosen slug; the slug changes only with the title; `updated_at` is set when every step succeeds |
| `BlogPosts.ReviseWrites` | docs/examples/blog-api/routes/posts.py:297-351 | an update that goes through writes the sanitised content, the stripped summary, the category, the cleaned tags and the status that were sent, each unchanged when not sent |
| `BlogPosts.GeneralRejectedOnUpdate` | docs/examples/blog-api/routes/posts.py:93-101 | an update that sets the category to `"General"`, the default of a new post, is refused on field `category` with the list of allowed categories, and the post is left as it was |
| `BlogPosts.TitleSurvivesContentError` | docs/examples/blog-api/routes/posts.py:379-384 | steps are not rolled back: a good title with blank content fails, yet the post keeps its new title and slug |
| `BlogPosts.CreateDefaultsToDraft` | docs/examples/blog-api/routes/posts.py:267-286 | a body without `status` makes a draft with no publication time and zero views and likes |
| `BlogPosts.WithoutMeaning` | docs/examples/blog-api/routes/posts.py:417 | deletion keeps the other posts in order, and exactly the posts with another id |
| `BlogPosts.WithoutUnique` | docs/examples/blog-api/routes/posts.py:417 | deleting keeps ids and slugs unique |
| `BlogPosts.WithoutCount` | docs/examples/blog-api/routes/posts.py:417 | with unique ids, deleting an id that is present removes exactly one post, and deleting an absent id changes nothing |
| `BlogPosts.ReplaceUnique` | docs/examples/blog-api/routes/posts.py:303-312 | replacing a post by one with the same id and a slug no other post has keeps ids and slugs unique |
| `BlogPosts.AppendUnique` | docs/examples/blog-api/routes/posts.py:289 | appending a post with a fresh id and a fresh slug keeps ids and slugs unique |
| `BlogPosts.AppendFresh` | docs/examples/blog-api/routes/posts.py:289-290 | appending a post whose id is the counter and whose slug is not taken, then raising the counter, keeps ids and slugs unique and every id below the counter |
| `BlogPosts.ReplaceKeeps` | docs/examples/blog-api/routes/posts.py:303-312 | replacing a post by one with the same id and a slug no other post has keeps the store's invariant |
| `BlogPosts.WithoutKeeps` | docs/examples/blog-api/routes/posts.py:417 | deleting keeps the store's invariant |
| `BlogPosts.PostStore.constructor` | docs/examples/blog-api/routes/posts.py:51-91 | the store starts with the two seeded posts and the counter at 3 |
| `BlogPosts.PostStore.Create` | docs/examples/blog-api/routes/posts.py:238-294 | without a user, without JSON or with invalid data it refuses with that reason and changes nothing; otherwise it appends the new post with the counter as id and the first free slug, and raises the counter |
| `BlogPosts.PostStore.Update` | docs/examples/blog-api/routes/posts.py:354-393 | refuses, in order, with no user, an unknown post, another author who is not an admin, bad JSON, changing nothing; otherwise the post becomes what the steps made of it, even when a later step fails, with a new title's slug free among the other posts |
| `BlogPosts.PostStore.Delete` | docs/examples/blog-api/routes/posts.py:396-421 | refuses with no user, an unknown post or another author who is not an admin, changing nothing; otherwise removes exactly the posts with that post's id |
| `BlogPosts.PostStore.Like` | docs/examples/blog-api/routes/posts.py:424-439 | with a user and a known post, its like count goes up by exactly one and is answered; nothing else changes |
| `BlogPosts.PostStore.Show` | docs/examples/blog-api/routes/posts.py:220-235 | an unknown post and an unpublished one are refused; a published one has its view count raised by one and is answered |
| `BlogAuth.ReadSignup` | docs/examples/blog-api/routes/auth.py:71-74 | reading a registration body fails with AttributeError exactly when the body is not an object or the username, email or full_name is present but not a string; otherwise the name and full name come out stripped |
| `BlogAuth.CheckForm` | docs/examples/blog-api/routes/auth.py:77-112 | the read fields pass exactly when the password is a string and every rule holds: name, e-mail, password and full name present and valid, name and e-mail not already taken; a pass carries the fields unchanged. A password of another type is refused with the rule's message or raises, as `validate_password` and `hash_password` do |
| `BlogAuth.CheckSignup` | docs/examples/blog-api/routes/auth.py:71-112 | an accepted registration has valid, untaken credentials and stripped name and full name |
| `BlogAuth.CheckSignupIff` | docs/examples/blog-api/routes/auth.py:71-112 | for a body of four strings, registration is accepted if and only if the rules hold on the stripped name, the stripped lower-cased e-mail, the password as sent and the stripped full name |
| `BlogAuth.CheckSignupKeeps` | docs/examples/blog-api/routes/auth.py:71-74 | an accepted body of four strings yields exactly those strings, stripped, with the e-mail lower-cased |
| `BlogAuth.ReadSignupBody` | docs/examples/blog-api/routes/auth.py:71-74 | a body of four strings reads as those strings, stripped, with the e-mail lower-cased |
| `BlogAuth.Enrol` | docs/examples/blog-api/routes/auth.py:60-127 | a body that is not JSON is refused with "Invalid JSON in request body"; a stored user gets the counter's id, is active, is not an admin, carries the given time, and has a valid, untaken name and e-mail |
| `BlogAuth.Login` | docs/examples/blog-api/routes/auth.py:137-171 | a login succeeds only with a JSON object whose username and password are strings, the name non-blank; the user is the first whose name matches ignoring case, is active, and the password verifies against the stored hash |
| `BlogAuth.RegisteredCanLogin` | docs/examples/blog-api/routes/auth.py:115-171 | a freshly registered user logs in with the registered name and password when no earlier name matches it ignoring case |
| `BlogAuth.CaseShadowedLogin` | docs/examples/blog-api/routes/auth.py:157 | a name registered next to one differing only in case reaches the earlier account, so its own password is refused |
| `BlogAuth.BearerToken` | docs/examples/blog-api/routes/auth.py:205 | the token taken from a bearer header contains no space |
| `BlogAuth.BearerSplit` | docs/examples/blog-api/routes/auth.py:205 | splitting a bearer header on spaces gives "Bearer" followed by the split of the rest |
| `BlogAuth.BearerTokenIsRest` | docs/examples/blog-api/routes/auth.py:205 | the token is the text after "Bearer ", up to the next space if there is one |
| `BlogAuth.LogoutToken` | docs/examples/blog-api/routes/auth.py:200-205 | logout finds a token exactly when the header is present and starts with "Bearer ", and that token is the one after it; otherwise "Authorization token required" |
| `BlogAuth.LogoutBearer` | docs/examples/blog-api/routes/auth.py:200-208 | with an Authorization header "Bearer t" (t without spaces) logout takes exactly t |
| `BlogAuth.LogoutAsWrittenRefuses` | docs/examples/blog-api/routes/auth.py:200-203 | as written, the str-keyed header lookup finds nothing, so every logout is refused |
| `BlogAuth.CurrentProfile` | docs/examples/blog-api/routes/auth.py:270-282 | the profile is answered exactly when a user is signed in, with that user's id, name, e-mail and full name |
| `BlogAuth.EditName` | docs/examples/blog-api/routes/auth.py:300-305 | no full name sent changes nothing; a sent string sets the full name to its stripped text, or is refused with "Full name cannot be empty" when blank; anything else is refused and changes nothing |
| `BlogAuth.EditEmail` | docs/examples/blog-api/routes/auth.py:307-318 | no e-mail sent changes nothing; a sent string, stripped and lower-cased, is refused with "Invalid email format" when invalid, with "Email already exists" when another user holds it, and is set otherwise |
| `BlogAuth.EditProfile` | docs/examples/blog-api/routes/auth.py:299-318 | a profile update changes at most the full name and the e-mail; a refused full name stops it; on success each holds what was sent (stripped; the e-mail also lower-cased) or its old value |
| `BlogAuth.NameSurvivesEmailError` | docs/examples/blog-api/routes/auth.py:299-318 | a full name that was set stays set when the e-mail after it is refused |
| `BlogAuth.UpdateCurrentUser` | docs/examples/blog-api/routes/auth.py:285-325 | no signed-in user gives "Authentication required", a body that is not JSON gives "Invalid JSON in request body", and otherwise the profile update runs on the signed-in user |
| `BlogAuth.EditKeepsEmailsUnique` | docs/examples/blog-api/routes/auth.py:313-318 | writing the updated user back keeps e-mail addresses unique among users with unique ids |
| `BlogAuth.KeepOwnEmail` | docs/examples/blog-api/routes/auth.py:314 | sending back one's own clean address changes nothing and raises no error |
| `BlogAuth.ChangePassword` | docs/examples/blog-api/routes/auth.py:328-364 | a password change needs a signed-in user and a JSON object whose current_password verifies against the stored hash; it changes only the password hash, to the hash of the sent new_password, which meets the password rule |
| `BlogAuth.WrongCurrentPasswordRefused` | docs/examples/blog-api/routes/auth.py:353-355 | a current password that does not verify gives "Current password is incorrect", whatever new password is sent |
| `BlogAuth.ChangedPasswordVerifies` | docs/examples/blog-api/routes/auth.py:345-364 | with the right current password and a valid new one the change succeeds and the new password verifies |
| `BlogAuth.StatsOf` | docs/examples/blog-api/routes/auth.py:371-384 | the statistics count every user and every blacklisted token, and active and admin counts never exceed the total |
| `BlogAuth.StatsAfterSignup` | docs/examples/blog-api/routes/auth.py:121-126 | registering adds one to the total and the active count and leaves the admin and blacklist counts alone |
| `BlogAuth.AppendUserKeeps` | docs/examples/blog-api/routes/auth.py:106-127 | appending a user with the counter's id and an untaken name and e-mail keeps ids, names and e-mails unique and ids below the counter |
| `BlogAuth.UserStore.constructor` | docs/examples/blog-api/routes/auth.py:42-57 | the store starts with the seeded admin, the counter at 2 and an empty blacklist |
| `BlogAuth.UserStore.Register` | docs/examples/blog-api/routes/auth.py:60-134 | registration appends the enrolled user and advances the counter, answering the profile without the hash; a refusal changes nothing |
| `BlogAuth.UserStore.Append` | docs/examples/blog-api/routes/auth.py:126-127 | appending keeps the store invariant and leaves the blacklist alone |
| `BlogAuth.UserStore.Logout` | docs/examples/blog-api/routes/auth.py:197-212 | logout adds exactly the bearer token to the blacklist, or refuses and changes nothing; users are never touched |
| `BlogAuth.UserStore.Revoke` | docs/examples/blog-api/routes/auth.py:208 | the blacklist grows by exactly the token |
| `BlogAuth.UserStore.Refresh` | docs/examples/blog-api/routes/auth.py:215-267 | a blacklisted token is refused with "Token is invalid"; a refresh that succeeds decodes to an active user's id, answers the token issued for that user and blacklists the old token; a failure leaves the blacklist alone |
| `RequestHeaders.RawHeaders` | src/artanis/__init__.py:113 | the request's header dict as Python holds it has one entry per header, each name and value a bytes object |
| `RequestHeaders.AsWrittenNeverFinds` | docs/examples/middleware_demo/app.py:123 | looking a str name up in the bytes-keyed header dict never finds anything, whatever headers were sent |
| `RequestHeaders.Latin1` | src/artanis/__init__.py:113 | decoding header bytes as ISO-8859-1 gives one character per byte, with the byte's value as code point |
| `RequestHeaders.Latin1Encode` | src/artanis/__init__.py:113 | encoding text of single-byte characters gives one byte per character, with the character's code point |
| `RequestHeaders.Latin1RoundTrip` | src/artanis/__init__.py:113 | decoding header bytes and encoding the text again gives the same bytes back |
| `RequestHeaders.HeaderText` | src/artanis/__init__.py:113 | a header is found exactly when its lower-cased, encoded name is a key of the dict, and the text is that key's value decoded |
| `RequestHeaders.HeaderOr` | docs/examples/middleware_demo/app.py:146 | a header that was not sent answers the given default |
| `RequestHeaders.HeaderTextOfScope` | src/artanis/__init__.py:113 | for the dict built from the scope's header pairs, the value found is the last one sent under the name |
| `MiddlewareDemo.AfterNextStep` | docs/examples/middleware_demo/app.py:156-166 | a middleware that only calls next and then sets headers leaves the rest of the chain's response untouched when it raises, and otherwise applies its headers on top of it |
| `MiddlewareDemo.SecurityHeadersAfterNext` | docs/examples/middleware_demo/app.py:157-166 | once the rest of the chain returns, the response carries X-Content-Type-Options nosniff, X-Frame-Options DENY and X-XSS-Protection "1; mode=block", whatever was set before; when it raises nothing is added |
| `MiddlewareDemo.CorsHeadersAfterNext` | docs/examples/middleware_demo/app.py:207-217 | once the rest of the chain returns, the response carries the demo's allowed origin, headers and credentials, whatever was set before; when it raises nothing is added |
| `MiddlewareDemo.CorsApplied` | docs/examples/middleware_demo/app.py:214-217 | the four CORS headers are written in order over the response headers |
| `MiddlewareDemo.CorsValues` | docs/examples/middleware_demo/app.py:214-217 | after the four writes, origin, allowed headers and credentials hold the demo's values |
| `MiddlewareDemo.ValidationCheck` | docs/examples/middleware_demo/app.py:145-153 | next is skipped exactly for a POST or PUT whose content type does not start with application/json, and then ValidationError with the demo's message is raised; otherwise the middleware only passes on |
| `MiddlewareDemo.ValidationAsWrittenRefuses` | docs/examples/middleware_demo/app.py:146-151 | as written the content-type lookup never finds the header, so every POST and PUT is refused |
| `MiddlewareDemo.JsonPostAdmitted` | docs/examples/middleware_demo/app.py:146-153 | with the intended lookup, a POST or PUT whose content type starts with application/json reaches next |
| `MiddlewareDemo.AuthCheck` | docs/examples/middleware_demo/app.py:114-137 | public paths pass with no user attached; elsewhere next is called exactly when the key is the demo key, which attaches the demo user, and every refusal raises AuthenticationError |
| `MiddlewareDemo.DemoKeyAdmitted` | docs/examples/middleware_demo/app.py:123-137 | a request for a protected path that sends the demo key in x-api-key passes as the demo user |
| `MiddlewareDemo.AuthAsWrittenRefuses` | docs/examples/middleware_demo/app.py:123-126 | as written every request for a protected path is refused as missing its key, whatever it sends |
| `MiddlewareDemo.CurrentUser` | docs/examples/middleware_demo/app.py:54-64 | the current user is answered exactly when it is a dict holding id, username and api_key, and it is answered unchanged |
| `MiddlewareDemo.AttachedUserPasses` | docs/examples/middleware_demo/app.py:133-134 | the user the authentication middleware attaches passes the current-user guard |
| `MiddlewareDemo.Recent` | docs/examples/middleware_demo/app.py:237-241 | cleaning keeps exactly the timestamps of the last 60 seconds, in their order |
| `MiddlewareDemo.RecentLater` | docs/examples/middleware_demo/app.py:237-241 | cleaning an already cleaned list later is the same as cleaning the original list at the later time |
| `MiddlewareDemo.RateLimitMiddleware` | docs/examples/middleware_demo/app.py:244-257 | an admitted request passes on; a refused one sets status 429 and the rate-limit body and does not call next |
| `MiddlewareDemo.RateLimiter.constructor` | docs/examples/middleware_demo/app.py:223 | the limiter starts with no client recorded |
| `MiddlewareDemo.RateLimiter.Admit` | docs/examples/middleware_demo/app.py:236-255 | the client's list is cleaned, the request is admitted exactly when fewer than 20 stamps remain, and only then is the time appended; no other client changes and no list exceeds 20 |
| `MiddlewareDemo.RateLimiter.Check` | docs/examples/middleware_demo/app.py:226-257 | a request is counted under its x-forwarded-for value, or 127.0.0.1 without one, and refused with 429 once that client has 20 requests in the last minute |
| `MiddlewareDemo.RateLimitAsWrittenSharesOneClient` | docs/examples/middleware_demo/app.py:233 | as written the x-forwarded-for lookup never finds the header, so every request counts against 127.0.0.1 |
| `MiddlewareDemo.SharedBudgetAsWritten` | docs/examples/middleware_demo/app.py:226-257 | as written, twenty requests with one set of headers and then one with any other headers, in the same second, leave the last request refused |
| `MiddlewareDemo.DemoStack` | docs/examples/middleware_demo/app.py:194-269 | the function middlewares are registered in eight steps, in the demo's order |
| `MiddlewareDemo.BadContentTypeStopsChain` | docs/examples/middleware_demo/app.py:149-151 | a refused POST or PUT never reaches the handler |
| `MiddlewareDemo.RateLimitedStopsChain` | docs/examples/middleware_demo/app.py:244-252 | a rate-limited request never reaches the handler |
| `RouterPatterns.FindUser` | docs/examples/router_patterns/app.py:67-69 | a user is found only if it is stored with that id, and nothing is found exactly when no stored user has the id |
| `RouterPatterns.FindPost` | docs/examples/router_patterns/app.py:72-74 | a post is found only if it is stored with that id, and nothing is found exactly when no stored post has the id |
| `RouterPatterns.FindComment` | docs/examples/router_patterns/app.py:77-79 | a comment is found only if it is stored with that id, and nothing is found exactly when no stored comment has the id |
| `RouterPatterns.FindUserExact` | docs/examples/router_patterns/app.py:67-69 | with distinct ids, looking up a stored user's id finds exactly that user |
| `RouterPatterns.FindPostExact` | docs/examples/router_patterns/app.py:72-74 | with distinct ids, looking up a stored post's id finds exactly that post |
| `RouterPatterns.FindCommentExact` | docs/examples/router_patterns/app.py:77-79 | with distinct ids, looking up a stored comment's id finds exactly that comment |
| `RouterPatterns.FindUserAppend` | docs/examples/router_patterns/app.py:165 | appending a user never hides a user found before |
| `RouterPatterns.FindUserByValue` | docs/examples/router_patterns/app.py:360 | a user_id from a request body finds a user only when it equals a stored id (True counting as 1), and nothing otherwise |
| `RouterPatterns.FindPostAppend` | docs/examples/router_patterns/app.py:235 | appending a post never hides a post found before |
| `RouterPatterns.AddUserIds` | docs/examples/router_patterns/app.py:163-166 | appending a user with the counter's id keeps user ids distinct and below the counter |
| `RouterPatterns.AddUserAuthors` | docs/examples/router_patterns/app.py:165 | appending a user keeps every post's author found |
| `RouterPatterns.AddUserCommenters` | docs/examples/router_patterns/app.py:165 | appending a user keeps every comment's post and user found |
| `RouterPatterns.SeedUsersOk` | docs/examples/router_patterns/app.py:43-58 | the seeded users have distinct ids below 3, and ids 1 and 2 find alice and bob |
| `RouterPatterns.SeedPostsOk` | docs/examples/router_patterns/app.py:48-59 | the seeded posts have distinct ids below 3 and authors that exist |
| `RouterPatterns.SeedCommentsOk` | docs/examples/router_patterns/app.py:53-60 | the seeded comments have distinct ids below 3 and refer to existing posts and users |
| `RouterPatterns.AddPostKeeps` | docs/examples/router_patterns/app.py:228-236 | appending a post with the counter's id by an existing user keeps posts and comments consistent |
| `RouterPatterns.AddCommentKeeps` | docs/examples/router_patterns/app.py:363-371 | appending a comment with the counter's id on an existing post by an existing user keeps comments consistent |
| `RouterPatterns.TextField` | docs/examples/router_patterns/app.py:157 | reading a text field succeeds exactly on a dict whose field is absent or a string, giving "" or the stripped string; otherwise AttributeError |
| `RouterPatterns.TextFieldOfString` | docs/examples/router_patterns/app.py:157 | a present string field reads as the string stripped |
| `RouterPatterns.StripIdempotentOf` | docs/examples/router_patterns/app.py:157 | a text field as read is already stripped |
| `RouterPatterns.GetUser` | docs/examples/router_patterns/app.py:132-145 | a path id that is not an integer gives 400 and an unknown id 404, exactly; otherwise the page shows the user with that id and exactly that user's posts in stored order, with their count |
| `RouterPatterns.GetUserById` | docs/examples/router_patterns/app.py:132-145 | asking for a stored user by its id in decimal answers that user |
| `RouterPatterns.CreatedPostListed` | docs/examples/router_patterns/app.py:144-145 | a post appended for a user shows up last on that user's page and the count grows by one |
| `RouterPatterns.AuthorName` | docs/examples/router_patterns/app.py:257-259 | the author is "Unknown" when no user has the id, and otherwise the name of a user holding it |
| `RouterPatterns.KnownAuthors` | docs/examples/router_patterns/app.py:254-259 | in a consistent store every listed post carries the name of its stored author |
| `RouterPatterns.NewUserFields` | docs/examples/router_patterns/app.py:157-161 | a user body is accepted exactly when both fields read and are non-blank, giving them stripped; otherwise AttributeError or "Username and email are required" |
| `RouterPatterns.NewPostFields` | docs/examples/router_patterns/app.py:222-226 | a post body is accepted exactly when title and content read and are non-blank, giving them stripped; otherwise AttributeError or "Title and content are required" |
| `RouterPatterns.NewCommentFields` | docs/examples/router_patterns/app.py:354-361 | a comment body is accepted exactly when its content is non-blank and its user_id is truthy and names a stored user; the errors are AttributeError, "Content is required" and "Valid user_id is required" |
| `RouterPatterns.UserIdField` | docs/examples/router_patterns/app.py:355 | the user_id read is None when absent and otherwise the value sent |
| `RouterPatterns.DemoStore.constructor` | docs/examples/router_patterns/app.py:43-60 | the store starts with the seeded users, posts and comments and every counter at 3 |
| `RouterPatterns.DemoStore.ListPosts` | docs/examples/router_patterns/app.py:251-262 | the listing has one entry per stored post, in order, each the post with its author's name, and the store is left alone |
| `RouterPatterns.DemoStore.AddUser` | docs/examples/router_patterns/app.py:165-166 | the user is appended and the counter advanced; nothing else changes |
| `RouterPatterns.DemoStore.CreateUser` | docs/examples/router_patterns/app.py:148-168 | a body that is not JSON gives 400 "Invalid JSON"; the user is created exactly when the fields are accepted, with the counter's id and the stripped fields, and a refusal changes nothing |
| `RouterPatterns.DemoStore.AddPost` | docs/examples/router_patterns/app.py:235-236 | the post is appended and the counter advanced; nothing else changes |
| `RouterPatterns.DemoStore.CreateUserPost` | docs/examples/router_patterns/app.py:202-238 | the id, the user, the JSON body and the fields are checked in that order with their statuses, before anything is stored; a created post has the counter's id, the stripped fields and the parsed user id |
| `RouterPatterns.DemoStore.AddComment` | docs/examples/router_patterns/app.py:370-371 | the comment is appended and the counter advanced; nothing else changes |
| `RouterPatterns.DemoStore.CreatePostComment` | docs/examples/router_patterns/app.py:334-373 | the id, the post, the JSON body and the fields are checked in that order with their statuses, before anything is stored; a created comment has the counter's id, the parsed post id, the stripped content and a user_id naming a stored user |
| `Text.StripIsCore` | docs/examples/router_patterns/app.py:157 | strip() returns a slice of the text with only whitespace before and after it and no whitespace at its own ends |
| `Text.StripEmptyIff` | docs/examples/router_patterns/app.py:160 | a field is blank after strip() exactly when every character of it is whitespace |
| `Text.StripIdempotent` | docs/examples/router_patterns/app.py:157 | stripping a stripped text changes nothing |
| `Text.ParseIntRoundTrip` | docs/examples/router_patterns/app.py:135 | int() of an integer's decimal text gives that integer back |
| `Text.NatToStringInjective` | docs/examples/router_patterns/app.py:135 | different numbers print as different decimal texts |
| `Text.SplitOnAppend` | docs/examples/blog-api/routes/auth.py:205 | splitting text that ends with a separator and a piece without one gives that piece last |
| `Values.Utf8Append` | src/artanis/__init__.py:113 | encoding text as UTF-8 distributes over concatenation |
| `Values.Utf8Ascii` | src/artanis/__init__.py:113 | ASCII text encodes to its own code points, one byte each |
| `OrderedDict.GetFromPairs` | src/artanis/__init__.py:113 | in a dict built from pairs, looking a key up gives the value of its last pair, or nothing when no pair has it |
| `OrderedDict.GetSetSame` | src/artanis/middleware/response.py:19-21 | after an assignment the key holds the new value |
| `OrderedDict.GetSetOther` | src/artanis/middleware/response.py:19-21 | an assignment leaves every other key's value alone |
| `OrderedDict.SetKeys` | src/artanis/middleware/response.py:19-21 | an assignment keeps the keys in their order, adding the key at the end when it is new |
| `OrderedDict.SetNew` | src/artanis/middleware/response.py:19-21 | assigning a new key appends one entry at the end |
| `OrderedDict.SetExisting` | src/artanis/middleware/response.py:19-21 | assigning an existing key replaces its entry where it stands |
| `Seqs.FilterMeaning` | docs/examples/router_patterns/app.py:144 | a comprehension filter keeps exactly the elements satisfying the condition, in their order |
| `Seqs.FilterFilter` | docs/examples/middleware_demo/app.py:237-241 | filtering twice is filtering once by both conditions |
| `Seqs.CountAppend` | docs/examples/blog-api/routes/auth.py:375-376 | appending one element adds one to the count exactly when it satisfies the condition |

## Left out

- `routing.py`, `exceptions.py`, `handlers.py`, `request.py`, `artanis/asgi.py` and `_version.py` are not part of this model. The router's `find_route` and `get_allowed_methods` enter as the functions of `Dispatch.Router`. The exception classes' `status_code` and `to_dict` enter as the functions of `Dispatch.Errors`.
- `App.get`, `post`, `put`, `delete`, `all`, `_register_route`, `mount` and `routes` of `src/artanis/application.py` only hand their arguments to the router, which is not part of this model. `_path_exists_with_different_method` is the test that the router's allowed-method list is non-empty, made inside the final handler.
- `json.dumps`, `json.loads` and `bytes.decode` are the functions of `AsgiIo.Codec`. The model fixes only which values serialise, and that `str()` of an integer is its decimal text.
- SHA-256, `jwt.encode`, `jwt.decode`, `uuid`, `datetime` and `time` are parameters. `BlogSecurity` proves only what follows from hashing being a function. The claims a refresh token decodes to are given as a `BlogAuth.Decoded` value.
- `sanitize_html` is a parameter of the post update and creation. No property of the cleaned text is claimed: the single-pass regular expression can leave a `<script>` tag behind.
- The sort of `get_posts` is a parameter. `BlogPosts.GetPostsMeaning` holds for any sort that only reorders; the comparison keys are not modelled.
- Python's Unicode-aware `str.lower`, `str.isupper`, `str.islower` and `str.isdigit` are approximated by their ASCII behaviour. `str.isspace`, `str.strip` and the `\s` of the slug expressions follow Python's full whitespace set.
- `PathPattern.IsIdentifier` accepts ASCII letters, digits and `_` only, where `str.isidentifier` also accepts Unicode letters, so a pattern such as `/{café}` is refused by the model and compiled by the source.
- `Text.ParseInt` accepts ASCII digits only, where Python's `int()` also accepts other Unicode decimal digits, such as `"٣"`.
- JSON values carry no floating-point numbers, so a body such as `{"user_id": 1.0}` is not represented. The averages of `get_post_stats` and `admin_stats`, and timing durations, are floating point as well.
- `async`/`await` is modelled as sequential calls. Concurrent requests sharing the module-level stores are not modelled.
- `receive` is a given sequence of messages. `AsgiIo.Request.Body` answers `None` when the sequence ends before the last chunk, where the server would keep waiting.
- `send` is modelled as the list of messages sent. The server, uvicorn, and anything past the two response messages are not modelled.
- `src/artanis/logging.py` is not part of this model. The request-logging middleware is an opaque middleware that the `App` constructor installs first.
- `ExceptionHandlerMiddleware`, which the middleware demo registers first, is not part of this model. Its source is not shown.
- The route handlers of the middleware demo are not modelled: `root`, `health`, `public_endpoint`, `protected_endpoint`, `create_data` and `test_error`. Neither are its `print` calls. The request-id and timing middlewares take their id and duration as parameters.
- The router-patterns demo's `list_users`, `get_user_posts`, `get_post`, `get_post_comments`, `root`, `health` and admin routes are read-only listings and are not modelled. `get_user` and `list_posts` stand for them. The mounting of its routers belongs to `routing.py`.
- The blog API's `upload_post_image` saves a file and parses a multipart form, so only its checks are modelled, through `BlogValidation.ValidateFileUploadIff`. `get_categories`, `get_tags` and `get_post_stats` are read-only aggregates and are not modelled.
- `docs/examples/blog-api/app.py`, the `utils/database.py` files and `docs/deployment/docker/simple_example/app.py` are configuration and simulated I/O, and are not modelled.
- The files under `docs/examples/blog_api/` are copies of the `blog-api` files. One model covers both.
- A Python value of the wrong type where a string is expected is modelled as a crash (`AttributeError` or `TypeError`). The exact message of the exception is not modelled. Passwords are the exception: `BlogValidation.PasswordCheck` follows `validate_password` on any value, so a short list or dict gets the rule's message.
- Route handlers and middlewares are modelled as data: a `Dispatch.Route` handler sees only its bound arguments, and a `Chain.Middleware` is a fixed script of effects, `next()` calls, an optional exception and a return. Neither reads the request's headers or body, so `App.Call` never reads `receive` beyond building the request. A middleware that catches an exception raised by `next()` is not representable; `Chain.RunReplays` and `Chain.OnionOrder` say nothing about one.
- `BlogAuth.EditProfile` and `BlogAuth.ChangePassword` return the changed user record. The source changes `request.current_user` in place, and whether that dict is also the stored one depends on the authentication middleware, which is not shown.
- `BlogAuth.Login`: states the user the credentials open, not the token issued for that user. Token contents are left to `jwt.encode`.
- `BlogAuth.UserStore.Refresh`: states the success case, the blacklist case and the unchanged blacklist on failure. It does not state each error message of the other refusals.
- `MiddlewareDemo.DemoStack`: states the length of the stack; its order is given by its definition and used by the two lemmas that follow it.

## Findings

The `Request` of `src/artanis/__init__.py` builds `headers` with `dict(scope["headers"])`. ASGI delivers header names and values as byte strings, so the dict's keys are `bytes`, despite the `dict[str, str]` annotation. Python never finds a `str` key among `bytes` keys. Every lookup below therefore answers its default, whatever the client sent. `RequestHeaders.AsWrittenNeverFinds` proves this for every header dict. `RequestHeaders.HeaderText` is the intended lookup: the lower-cased name encoded, and the value decoded as ISO-8859-1. The rest of the model uses `HeaderText`.

| source | as written | input that shows it | evidently intended | confidence | as-written member | corrected member |
|---|---|---|---|---|---|---|
| docs/examples/middleware_demo/app.py:123 | `request.headers.get("x-api-key")` is always `None`, so every request for a protected path is refused with "API key required" | `GET /protected` with header `x-api-key: demo-key-12345` | the demo key is found and the request passes as the demo user | not executed | `MiddlewareDemo.AuthAsWrittenRefuses` | `MiddlewareDemo.DemoKeyAdmitted` |
| docs/examples/middleware_demo/app.py:146 | `request.headers.get("content-type", "")` is always `""`, so every POST and PUT is refused | `POST /data` with header `content-type: application/json` | a JSON content type lets the request through | not executed | `MiddlewareDemo.ValidationAsWrittenRefuses` | `MiddlewareDemo.JsonPostAdmitted` |
| docs/examples/middleware_demo/app.py:233 | `request.headers.get("x-forwarded-for", "127.0.0.1")` is always `"127.0.0.1"`, so all clients share one rate-limit budget | 20 requests from `x-forwarded-for: 10.0.0.1`, then one from `x-forwarded-for: 10.0.0.2` within the minute; the last is refused with 429 | each forwarded address is counted on its own | not executed | `MiddlewareDemo.SharedBudgetAsWritten` | `MiddlewareDemo.RateLimiter.Check` |
| docs/examples/blog-api/routes/auth.py:200 | `request.headers.get("Authorization")` is always `None`, so every logout is refused with "Authorization token required" | `POST` to the logout route with header `authorization: Bearer abc` | the token `abc` is added to the blacklist | not executed | `BlogAuth.LogoutAsWrittenRefuses` | `BlogAuth.LogoutBearer` |
