/**
 * The Express-style middleware chain (`MiddlewareChain`) and the executor
 * that wraps it (`MiddlewareExecutor`).
 *
 * A middleware `async def mw(request, response, next)` is described by what
 * it does: the effects it performs before calling `next`, how many times it
 * calls `next` in a row, the effects it performs afterwards, whether it
 * then raises, and what it returns. `next` handed to middleware `i` runs
 * middleware `i + 1`; the one handed to the last middleware runs the final
 * handler. The chain's meaning is the trace of events it produces, the
 * response state it leaves, and its outcome.
 */
module Chain {
  import opened Common
  import opened Values
  import opened OrderedDict
  import opened ResponseModel
  import opened MiddlewareCore

  /** What a middleware returns: a value of its own, or the value of its last `next()` call. */
  datatype Ret = ReturnValue(v: Value) | ReturnNext

  datatype Middleware = Middleware(
    before: seq<Effect>,
    calls: nat,
    after: seq<Effect>,
    raises: Option<Exc>,
    ret: Ret)

  datatype Outcome = Returned(v: Value) | Raised(e: Exc)

  /** What the final handler does when called with the response in a given state. */
  datatype HandlerRun = HandlerRun(effects: seq<Effect>, outcome: Outcome)

  type Handler = ResponseState -> HandlerRun

  /** An event of middleware `who`, or of the final handler when `who` is the number of middleware. */
  datatype Event = Enter(who: nat) | Did(who: nat, e: Effect)

  datatype Run = Run(trace: seq<Event>, resp: ResponseState, outcome: Outcome)

  function Tag(who: nat, es: seq<Effect>): (r: seq<Event>)
    ensures |r| == |es|
    ensures forall k :: 0 <= k < |es| ==> r[k] == Did(who, es[k])
  {
    if es == [] then [] else [Did(who, es[0])] + Tag(who, es[1..])
  }

  /** `_create_next(i)(req, resp)`: middleware `i` onwards, then the final handler. */
  function RunFrom(ms: seq<Middleware>, h: Handler, i: nat, st: ResponseState): Run
    requires i <= |ms|
    decreases |ms| - i, 0
  {
    if i == |ms| then
      var hr := h(st);
      Run([Enter(i)] + Tag(i, hr.effects), ApplyAll(st, hr.effects), hr.outcome)
    else
      var m := ms[i];
      var pre := [Enter(i)] + Tag(i, m.before);
      var down := CallNext(ms, h, i, m.calls, ApplyAll(st, m.before), VNone);
      if down.outcome.Raised? then
        Run(pre + down.trace, down.resp, down.outcome)
      else
        var out :=
          if m.raises.Some? then Raised(m.raises.value)
          else Returned(if m.ret.ReturnNext? then down.outcome.v else m.ret.v);
        Run(pre + down.trace + Tag(i, m.after), ApplyAll(down.resp, m.after), out)
  }

  /**
   * Middleware `i` calling its `next` `k` more times in a row; `last` is
   * what the previous call returned. An exception from downstream
   * propagates at once.
   */
  function CallNext(ms: seq<Middleware>, h: Handler, i: nat, k: nat, st: ResponseState, last: Value): Run
    requires i < |ms|
    decreases |ms| - i - 1, k + 1
  {
    if k == 0 then Run([], st, Returned(last))
    else
      var d := RunFrom(ms, h, i + 1, st);
      if d.outcome.Raised? then d
      else
        var r := CallNext(ms, h, i, k - 1, d.resp, d.outcome.v);
        Run(d.trace + r.trace, r.resp, r.outcome)
  }

  /** `MiddlewareChain(ms, h).execute(request, response)`. */
  function Execute(ms: seq<Middleware>, h: Handler, st: ResponseState): Run {
    RunFrom(ms, h, 0, st)
  }

  // ---------------------------------------------------------------------
  // The response is the trace's effects, applied in order
  // ---------------------------------------------------------------------

  /** The effects recorded in a trace, in order. */
  function Effects(t: seq<Event>): seq<Effect> {
    if t == [] then []
    else (if t[0].Did? then [t[0].e] else []) + Effects(t[1..])
  }

  lemma {:induction false} EffectsAppend(a: seq<Event>, b: seq<Event>)
    ensures Effects(a + b) == Effects(a) + Effects(b)
  {
    if a == [] {
      assert a + b == b;
    } else {
      assert (a + b)[0] == a[0];
      assert (a + b)[1..] == a[1..] + b;
      EffectsAppend(a[1..], b);
    }
  }

  lemma {:induction false} EffectsTag(who: nat, es: seq<Effect>)
    ensures Effects(Tag(who, es)) == es
  {
    if es != [] {
      assert Tag(who, es)[1..] == Tag(who, es[1..]);
      EffectsTag(who, es[1..]);
    }
  }

  lemma EffectsEnterTag(who: nat, es: seq<Effect>)
    ensures Effects([Enter(who)] + Tag(who, es)) == es
  {
    EffectsAppend([Enter(who)], Tag(who, es));
    EffectsTag(who, es);
  }

  /**
   * The response a chain leaves is exactly the effects of its trace applied,
   * in trace order, to the response it started from.
   */
  lemma {:induction false} RunReplays(ms: seq<Middleware>, h: Handler, i: nat, st: ResponseState)
    requires i <= |ms|
    ensures RunFrom(ms, h, i, st).resp == ApplyAll(st, Effects(RunFrom(ms, h, i, st).trace))
    decreases |ms| - i, 0
  {
    var r := RunFrom(ms, h, i, st);
    if i == |ms| {
      EffectsEnterTag(i, h(st).effects);
    } else {
      var m := ms[i];
      var st1 := ApplyAll(st, m.before);
      var down := CallNext(ms, h, i, m.calls, st1, VNone);
      CallNextReplays(ms, h, i, m.calls, st1, VNone);
      var pre := [Enter(i)] + Tag(i, m.before);
      EffectsEnterTag(i, m.before);
      EffectsAppend(pre, down.trace);
      ApplyAllAppend(st, m.before, Effects(down.trace));
      if down.outcome.Returned? {
        EffectsAppend(pre + down.trace, Tag(i, m.after));
        EffectsTag(i, m.after);
        ApplyAllAppend(st, m.before + Effects(down.trace), m.after);
        assert Effects(r.trace) == m.before + Effects(down.trace) + m.after;
      }
    }
  }

  lemma {:induction false} CallNextReplays(ms: seq<Middleware>, h: Handler, i: nat, k: nat, st: ResponseState, last: Value)
    requires i < |ms|
    ensures CallNext(ms, h, i, k, st, last).resp == ApplyAll(st, Effects(CallNext(ms, h, i, k, st, last).trace))
    decreases |ms| - i - 1, k + 1
  {
    if k > 0 {
      var d := RunFrom(ms, h, i + 1, st);
      RunReplays(ms, h, i + 1, st);
      if d.outcome.Returned? {
        CallNextReplays(ms, h, i, k - 1, d.resp, d.outcome.v);
        var r := CallNext(ms, h, i, k - 1, d.resp, d.outcome.v);
        EffectsAppend(d.trace, r.trace);
        ApplyAllAppend(st, Effects(d.trace), Effects(r.trace));
      }
    }
  }

  // ---------------------------------------------------------------------
  // Properties of the chain
  // ---------------------------------------------------------------------

  /** How many times the trace enters participant `who`. */
  function Entries(t: seq<Event>, who: nat): nat {
    multiset(t)[Enter(who)]
  }

  /** With no middleware, the final handler runs exactly once and its result is the chain's. */
  lemma EmptyChainCallsHandlerOnce(h: Handler, st: ResponseState)
    ensures Execute([], h, st).outcome == h(st).outcome
    ensures Execute([], h, st).resp == ApplyAll(st, h(st).effects)
    ensures Entries(Execute([], h, st).trace, 0) == 1
  {
    var t := Execute([], h, st).trace;
    assert t == [Enter(0)] + Tag(0, h(st).effects);
    assert Enter(0) !in Tag(0, h(st).effects);
  }

  /** A middleware that calls `next` once and does not raise. */
  predicate Passes(m: Middleware) {
    m.calls == 1 && m.raises.None?
  }

  predicate AllPass(ms: seq<Middleware>, i: nat) {
    forall j :: i <= j < |ms| ==> Passes(ms[j])
  }

  ghost predicate HandlerReturns(h: Handler) {
    forall st :: h(st).outcome.Returned?
  }

  /** Entry into middleware i..n-1 and their `before` effects, in ascending order. */
  function Befores(ms: seq<Middleware>, i: nat): seq<Event>
    requires i <= |ms|
    decreases |ms| - i
  {
    if i == |ms| then [] else [Enter(i)] + Tag(i, ms[i].before) + Befores(ms, i + 1)
  }

  /** The `after` effects of middleware n-1 down to i, in descending order. */
  function Afters(ms: seq<Middleware>, i: nat): seq<Event>
    requires i <= |ms|
    decreases |ms| - i
  {
    if i == |ms| then [] else Afters(ms, i + 1) + Tag(i, ms[i].after)
  }

  /** All `before` effects of middleware i..n-1. */
  function BeforeEffects(ms: seq<Middleware>, i: nat): seq<Effect>
    requires i <= |ms|
    decreases |ms| - i
  {
    if i == |ms| then [] else ms[i].before + BeforeEffects(ms, i + 1)
  }

  /**
   * Onion ordering: when every middleware calls `next` once and nothing
   * raises, the trace is every middleware's entry and before-code in order,
   * then the final handler (run on the response as the before-code left
   * it), then every middleware's after-code in reverse order.
   */
  lemma {:induction false} OnionOrder(ms: seq<Middleware>, h: Handler, i: nat, st: ResponseState)
    requires i <= |ms| && AllPass(ms, i) && HandlerReturns(h)
    ensures RunFrom(ms, h, i, st).outcome.Returned?
    ensures RunFrom(ms, h, i, st).trace ==
              Befores(ms, i) + HandlerEvents(ms, h, ApplyAll(st, BeforeEffects(ms, i))) + Afters(ms, i)
    decreases |ms| - i
  {
    if i == |ms| {
      assert ApplyAll(st, []) == st;
    } else {
      var st1 := ApplyAll(st, ms[i].before);
      OnionOrder(ms, h, i + 1, st1);
      PassingStep(ms, h, i, st);
      ApplyAllAppend(st, ms[i].before, BeforeEffects(ms, i + 1));
      Regroup([Enter(i)] + Tag(i, ms[i].before), Befores(ms, i + 1),
              HandlerEvents(ms, h, ApplyAll(st, BeforeEffects(ms, i))),
              Afters(ms, i + 1), Tag(i, ms[i].after));
    }
  }

  /** The final handler's events: its entry, then its effects. */
  function HandlerEvents(ms: seq<Middleware>, h: Handler, st: ResponseState): seq<Event> {
    [Enter(|ms|)] + Tag(|ms|, h(st).effects)
  }

  lemma Regroup(a: seq<Event>, b: seq<Event>, c: seq<Event>, d: seq<Event>, e: seq<Event>)
    ensures a + (b + c + d) + e == (a + b) + c + (d + e)
  {
  }

  /** One passing middleware wraps its downstream run. */
  lemma PassingStep(ms: seq<Middleware>, h: Handler, i: nat, st: ResponseState)
    requires i < |ms| && Passes(ms[i])
    requires RunFrom(ms, h, i + 1, ApplyAll(st, ms[i].before)).outcome.Returned?
    ensures RunFrom(ms, h, i, st).outcome.Returned?
    ensures RunFrom(ms, h, i, st).trace ==
              [Enter(i)] + Tag(i, ms[i].before)
              + RunFrom(ms, h, i + 1, ApplyAll(st, ms[i].before)).trace
              + Tag(i, ms[i].after)
  {
    var st1 := ApplyAll(st, ms[i].before);
    CallOnce(ms, h, i, st1, VNone);
  }

  lemma CallOnce(ms: seq<Middleware>, h: Handler, i: nat, st: ResponseState, last: Value)
    requires i < |ms| && RunFrom(ms, h, i + 1, st).outcome.Returned?
    ensures CallNext(ms, h, i, 1, st, last) == RunFrom(ms, h, i + 1, st)
  {
    var d := RunFrom(ms, h, i + 1, st);
    assert CallNext(ms, h, i, 0, d.resp, d.outcome.v) == Run([], d.resp, d.outcome);
    assert d.trace + [] == d.trace;
  }

  /** Every event of a run from middleware i belongs to middleware i or later, or to the handler. */
  lemma {:induction false} RunParticipants(ms: seq<Middleware>, h: Handler, i: nat, st: ResponseState)
    requires i <= |ms|
    ensures forall k :: 0 <= k < |RunFrom(ms, h, i, st).trace| ==> i <= RunFrom(ms, h, i, st).trace[k].who <= |ms|
    decreases |ms| - i, 0
  {
    if i < |ms| {
      var m := ms[i];
      CallNextParticipants(ms, h, i, m.calls, ApplyAll(st, m.before), VNone);
    }
  }

  lemma {:induction false} CallNextParticipants(ms: seq<Middleware>, h: Handler, i: nat, k: nat, st: ResponseState, last: Value)
    requires i < |ms|
    ensures forall j :: 0 <= j < |CallNext(ms, h, i, k, st, last).trace| ==>
              i < CallNext(ms, h, i, k, st, last).trace[j].who <= |ms|
    decreases |ms| - i - 1, k + 1
  {
    if k > 0 {
      var d := RunFrom(ms, h, i + 1, st);
      RunParticipants(ms, h, i + 1, st);
      if d.outcome.Returned? {
        CallNextParticipants(ms, h, i, k - 1, d.resp, d.outcome.v);
      }
    }
  }

  /**
   * Short circuit: when middleware `c` does not call `next`, no event of a
   * later middleware or of the final handler occurs, however the earlier
   * middleware call their `next`.
   */
  lemma {:induction false} ShortCircuit(ms: seq<Middleware>, h: Handler, c: nat, i: nat, st: ResponseState)
    requires i <= c < |ms| && ms[c].calls == 0
    ensures forall k :: 0 <= k < |RunFrom(ms, h, i, st).trace| ==> RunFrom(ms, h, i, st).trace[k].who <= c
    decreases |ms| - i, 0
  {
    var m := ms[i];
    if i == c {
      assert CallNext(ms, h, i, 0, ApplyAll(st, m.before), VNone).trace == [];
    } else {
      CallNextShortCircuit(ms, h, c, i, m.calls, ApplyAll(st, m.before), VNone);
    }
  }

  lemma {:induction false} CallNextShortCircuit(ms: seq<Middleware>, h: Handler, c: nat, i: nat, k: nat, st: ResponseState, last: Value)
    requires i < c < |ms| && ms[c].calls == 0
    ensures forall j :: 0 <= j < |CallNext(ms, h, i, k, st, last).trace| ==> CallNext(ms, h, i, k, st, last).trace[j].who <= c
    decreases |ms| - i - 1, k + 1
  {
    if k > 0 {
      var d := RunFrom(ms, h, i + 1, st);
      ShortCircuit(ms, h, c, i + 1, st);
      if d.outcome.Returned? {
        CallNextShortCircuit(ms, h, c, i, k - 1, d.resp, d.outcome.v);
      }
    }
  }

  /** So when some middleware does not call `next`, the final handler never runs. */
  lemma HandlerSkipped(ms: seq<Middleware>, h: Handler, c: nat, st: ResponseState)
    requires c < |ms| && ms[c].calls == 0
    ensures Entries(Execute(ms, h, st).trace, |ms|) == 0
  {
    ShortCircuit(ms, h, c, 0, st);
  }

  /**
   * The chain's result is the first middleware's return value, not the
   * final handler's: whenever the first middleware returns normally with
   * a value of its own, that value is the result.
   */
  lemma ResultIsFirstMiddlewares(ms: seq<Middleware>, h: Handler, st: ResponseState)
    requires |ms| >= 1 && ms[0].ret.ReturnValue? && ms[0].raises.None?
    requires CallNext(ms, h, 0, ms[0].calls, ApplyAll(st, ms[0].before), VNone).outcome.Returned?
    ensures Execute(ms, h, st).outcome == Returned(ms[0].ret.v)
  {
  }

  /**
   * Calling `next` twice runs the whole downstream chain twice, the second
   * time on the response the first run left; there is no guard.
   */
  lemma NextTwiceRunsDownstreamTwice(ms: seq<Middleware>, h: Handler, i: nat, st: ResponseState)
    requires i + 1 <= |ms| && ms[i].calls == 2
    requires RunFrom(ms, h, i + 1, ApplyAll(st, ms[i].before)).outcome.Returned?
    requires RunFrom(ms, h, i + 1, RunFrom(ms, h, i + 1, ApplyAll(st, ms[i].before)).resp).outcome.Returned?
    ensures var d1 := RunFrom(ms, h, i + 1, ApplyAll(st, ms[i].before));
            var d2 := RunFrom(ms, h, i + 1, d1.resp);
            RunFrom(ms, h, i, st).trace ==
              [Enter(i)] + Tag(i, ms[i].before) + d1.trace + d2.trace + Tag(i, ms[i].after)
  {
    var st1 := ApplyAll(st, ms[i].before);
    var d1 := RunFrom(ms, h, i + 1, st1);
    var d2 := RunFrom(ms, h, i + 1, d1.resp);
    var c1 := CallNext(ms, h, i, 1, d1.resp, d1.outcome.v);
    assert CallNext(ms, h, i, 0, d2.resp, d2.outcome.v).trace == [];
    assert c1.trace == d2.trace + [];
    assert CallNext(ms, h, i, 2, st1, VNone).trace == d1.trace + c1.trace;
  }

  /** Hence, with passing middleware below it, a middleware calling `next` twice makes the final handler run twice. */
  lemma NextTwiceCallsHandlerTwice(ms: seq<Middleware>, h: Handler, i: nat, st: ResponseState)
    requires i + 1 <= |ms| && ms[i].calls == 2 && AllPass(ms, i + 1) && HandlerReturns(h)
    ensures Entries(RunFrom(ms, h, i, st).trace, |ms|) == 2
  {
    var st1 := ApplyAll(st, ms[i].before);
    var d1 := RunFrom(ms, h, i + 1, st1);
    PassingReturns(ms, h, i + 1, st1);
    PassingReturns(ms, h, i + 1, d1.resp);
    var d2 := RunFrom(ms, h, i + 1, d1.resp);
    NextTwiceRunsDownstreamTwice(ms, h, i, st);
    HandlerOnceInOnion(ms, h, i + 1, st1);
    HandlerOnceInOnion(ms, h, i + 1, d1.resp);
    var a, b := [Enter(i)] + Tag(i, ms[i].before), Tag(i, ms[i].after);
    NoHandlerEntry(i, ms[i].before, ms[i].after, |ms|);
    EntriesAppend4(a, d1.trace, d2.trace, b, |ms|);
  }

  lemma PassingReturns(ms: seq<Middleware>, h: Handler, i: nat, st: ResponseState)
    requires i <= |ms| && AllPass(ms, i) && HandlerReturns(h)
    ensures RunFrom(ms, h, i, st).outcome.Returned?
  {
    OnionOrder(ms, h, i, st);
  }

  lemma NoHandlerEntry(i: nat, before: seq<Effect>, after: seq<Effect>, who: nat)
    requires i < who
    ensures Entries([Enter(i)] + Tag(i, before), who) == 0 && Entries(Tag(i, after), who) == 0
  {
    assert Enter(who) !in [Enter(i)] + Tag(i, before);
    assert Enter(who) !in Tag(i, after);
  }

  lemma EntriesAppend4(a: seq<Event>, b: seq<Event>, c: seq<Event>, d: seq<Event>, who: nat)
    ensures Entries(a + b + c + d, who) == Entries(a, who) + Entries(b, who) + Entries(c, who) + Entries(d, who)
  {
    assert multiset(a + b + c + d) == multiset(a) + multiset(b) + multiset(c) + multiset(d);
  }

  /** In a run where everything passes, the final handler is entered exactly once. */
  lemma HandlerOnceInOnion(ms: seq<Middleware>, h: Handler, i: nat, st: ResponseState)
    requires i <= |ms| && AllPass(ms, i) && HandlerReturns(h)
    ensures Entries(RunFrom(ms, h, i, st).trace, |ms|) == 1
  {
    OnionOrder(ms, h, i, st);
    BeforesBelow(ms, i);
    AftersHaveNoEntry(ms, i);
    var t := h(ApplyAll(st, BeforeEffects(ms, i))).effects;
    assert Enter(|ms|) !in Tag(|ms|, t);
    assert HandlerEvents(ms, h, ApplyAll(st, BeforeEffects(ms, i))) == [Enter(|ms|)] + Tag(|ms|, t);
    assert Enter(|ms|) !in Befores(ms, i);
  }

  lemma {:induction false} BeforesBelow(ms: seq<Middleware>, i: nat)
    requires i <= |ms|
    ensures forall k :: 0 <= k < |Befores(ms, i)| ==> Befores(ms, i)[k].who < |ms|
    decreases |ms| - i
  {
    if i < |ms| {
      BeforesBelow(ms, i + 1);
      var a := [Enter(i)] + Tag(i, ms[i].before);
      assert Befores(ms, i) == a + Befores(ms, i + 1);
      forall k | 0 <= k < |Befores(ms, i)| ensures Befores(ms, i)[k].who < |ms| {
        if k >= |a| {
          assert Befores(ms, i)[k] == Befores(ms, i + 1)[k - |a|];
        }
      }
    }
  }

  lemma {:induction false} AftersHaveNoEntry(ms: seq<Middleware>, i: nat)
    requires i <= |ms|
    ensures forall k :: 0 <= k < |Afters(ms, i)| ==> Afters(ms, i)[k].Did?
    decreases |ms| - i
  {
    if i < |ms| {
      AftersHaveNoEntry(ms, i + 1);
      var a := Afters(ms, i + 1);
      forall k | 0 <= k < |Afters(ms, i)| ensures Afters(ms, i)[k].Did? {
        if k >= |a| {
          assert Afters(ms, i)[k] == Tag(i, ms[i].after)[k - |a|];
        }
      }
    }
  }

  // ---------------------------------------------------------------------
  // The executor
  // ---------------------------------------------------------------------

  /** The exception `get_all_middleware_for_path` lets through when a pattern does not compile. */
  const PatternError := Exc("re.error", "bad middleware path pattern")

  /** The error fix-up of both executor methods: 500, the error body, finished; a finished response is left alone. */
  function Recover(st: ResponseState): (r: ResponseState)
    ensures r.finished
    ensures st.finished ==> r == st
    ensures !st.finished ==> r.status == 500 && r.body == ErrorBody(InternalServerError)
    ensures Get(r.headers, ContentType) == if st.finished then Get(st.headers, ContentType) else Some(ApplicationJson)
  {
    if st.finished then st
    else
      GetSetSame(st.headers, ContentType, ApplicationJson);
      st.(status := 500, body := ErrorBody(InternalServerError),
          headers := Set(st.headers, ContentType, ApplicationJson), finished := true)
  }

  /** Fixing up twice is fixing up once. */
  lemma RecoverIdempotent(st: ResponseState)
    ensures Recover(Recover(st)) == Recover(st)
  {
  }

  /**
   * `execute_for_request` on values: the chain over the selected middleware;
   * when it raises, the response is fixed up and the exception re-raised.
   * A selection that fails raises before the `try`, leaving the response as it was.
   */
  function ForRequest(selected: Option<seq<Middleware>>, h: Handler, st: ResponseState): (Outcome, ResponseState) {
    match selected
    case None => (Raised(PatternError), st)
    case Some(ms) =>
      var r := Execute(ms, h, st);
      if r.outcome.Raised? then (r.outcome, Recover(r.resp)) else (r.outcome, r.resp)
  }

  /** `execute_with_error_handling` on values: errors become the (finished) response object as result. */
  function WithErrorHandling(selected: Option<seq<Middleware>>, h: Handler, st: ResponseState): (Value, ResponseState) {
    var (o, s) := ForRequest(selected, h, st);
    if o.Raised? then (ResponseObject, Recover(s)) else (o.v, s)
  }

  /**
   * When the chain raises, `execute_for_request` re-raises and leaves the
   * response finished: the chain's own response if that was finished,
   * otherwise the 500 error response.
   */
  lemma ForRequestRaised(ms: seq<Middleware>, h: Handler, st: ResponseState)
    requires Execute(ms, h, st).outcome.Raised?
    ensures ForRequest(Some(ms), h, st).0 == Execute(ms, h, st).outcome
    ensures ForRequest(Some(ms), h, st).1.finished
    ensures Execute(ms, h, st).resp.finished ==> ForRequest(Some(ms), h, st).1 == Execute(ms, h, st).resp
    ensures !Execute(ms, h, st).resp.finished ==>
              ForRequest(Some(ms), h, st).1.status == 500 &&
              ForRequest(Some(ms), h, st).1.body == ErrorBody(InternalServerError)
  {
  }

  /** When the chain returns, the executor passes its result and response through untouched. */
  lemma ForRequestReturned(ms: seq<Middleware>, h: Handler, st: ResponseState)
    requires Execute(ms, h, st).outcome.Returned?
    ensures ForRequest(Some(ms), h, st) == (Execute(ms, h, st).outcome, Execute(ms, h, st).resp)
  {
  }

  /**
   * `execute_with_error_handling` never raises: on any error the result is
   * the response object, and the response is finished.
   */
  lemma ErrorHandlingFinishes(selected: Option<seq<Middleware>>, h: Handler, st: ResponseState)
    requires ForRequest(selected, h, st).0.Raised?
    ensures WithErrorHandling(selected, h, st).0 == ResponseObject
    ensures WithErrorHandling(selected, h, st).1.finished
    ensures WithErrorHandling(selected, h, st).1 == Recover(ForRequest(selected, h, st).1)
  {
  }

  /** Without an error, `execute_with_error_handling` changes nothing `execute_for_request` did. */
  lemma ErrorHandlingTransparent(selected: Option<seq<Middleware>>, h: Handler, st: ResponseState)
    requires ForRequest(selected, h, st).0.Returned?
    ensures WithErrorHandling(selected, h, st) == (ForRequest(selected, h, st).0.v, ForRequest(selected, h, st).1)
  {
  }

  class MiddlewareExecutor {
    var manager: MiddlewareManager<Middleware>

    constructor(manager: MiddlewareManager<Middleware>)
      ensures this.manager == manager
    {
      this.manager := manager;
    }

    /**
     * Runs the chain on `response`: the effects of the chain's trace are
     * performed on the object, in trace order.
     */
    method RunChain(ms: seq<Middleware>, h: Handler, response: Response) returns (o: Outcome)
      requires response.Valid()
      modifies response
      ensures response.Valid()
      ensures o == Execute(ms, h, old(response.State())).outcome
      ensures response.State() == Execute(ms, h, old(response.State())).resp
    {
      var st0 := response.State();
      var run := Execute(ms, h, st0);
      RunReplays(ms, h, 0, st0);
      var es := Effects(run.trace);
      var k := 0;
      while k < |es|
        invariant 0 <= k <= |es|
        invariant response.Valid()
        invariant response.State() == ApplyAll(st0, es[..k])
      {
        TakeOneMore(es, k);
        ApplyAllAppend(st0, es[..k], [es[k]]);
        response.Perform(es[k]);
        k := k + 1;
      }
      assert es[..k] == es;
      o := run.outcome;
    }

    /** The 500 fix-up, when the response is not finished yet. */
    method Fixup(response: Response)
      requires response.Valid()
      modifies response
      ensures response.Valid()
      ensures response.State() == Recover(old(response.State()))
    {
      if !response.IsFinished() {
        response.SetStatus(500);
        response.Json(ErrorBody(InternalServerError));
        response.Finish();
      }
    }

    /** `execute_for_request`. */
    method ExecuteForRequest(response: Response, path: string, h: Handler) returns (o: Outcome)
      requires response.Valid()
      modifies response
      ensures response.Valid()
      ensures (o, response.State()) ==
                ForRequest(AllFor(manager.globalMiddleware, manager.pathMiddleware, path), h, old(response.State()))
    {
      var all := manager.GetAllMiddlewareForPath(path);
      if all.None? {
        return Raised(PatternError);
      }
      o := RunChain(all.value, h, response);
      if o.Raised? {
        Fixup(response);
      }
    }

    /** `execute_with_error_handling`: returns the chain's result, or the response object after an error. */
    method ExecuteWithErrorHandling(response: Response, path: string, h: Handler) returns (v: Value)
      requires response.Valid()
      modifies response
      ensures response.Valid()
      ensures (v, response.State()) ==
                WithErrorHandling(AllFor(manager.globalMiddleware, manager.pathMiddleware, path), h, old(response.State()))
    {
      var o := ExecuteForRequest(response, path, h);
      if o.Raised? {
        Fixup(response);
        return ResponseObject;
      }
      v := o.v;
    }
  }
}
