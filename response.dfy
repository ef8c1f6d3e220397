/**
 * The middleware `Response` accumulator: status, headers (an
 * insertion-ordered dict with exact-case names), body and a finished flag,
 * with the encoder `to_bytes` and the ASGI header-list builder.
 *
 * `ResponseState` is the same four fields as a value, and `Effect` names
 * the changes middleware and handlers make through the object's methods;
 * the chain semantics works on these values, the executor on the object.
 */
module ResponseModel {
  import opened Common
  import opened Text
  import opened OrderedDict
  import opened Values

  datatype ResponseState = ResponseState(
    status: int,
    headers: Dict<string, string>,
    body: Value,
    finished: bool)

  /** What `Response()` starts as. */
  const Fresh := ResponseState(200, [], VNone, false)

  const ContentType := "Content-Type"
  const ApplicationJson := "application/json"

  /** A change made through the `Response` methods, or an observable event (`Emit`) that changes nothing. */
  datatype Effect =
    | Emit(event: string)
    | SetStatus(code: int)
    | SetHeader(name: string, value: string)
    | Json(data: Value)
    | Finish

  /** The state after one effect. */
  function Apply(st: ResponseState, e: Effect): ResponseState {
    match e
      case Emit(_) => st
      case SetStatus(code) => st.(status := code)
      case SetHeader(n, v) => st.(headers := Set(st.headers, n, v))
      case Json(d) => st.(body := d, headers := Set(st.headers, ContentType, ApplicationJson))
      case Finish => st.(finished := true)
  }

  /** The state after a sequence of effects, applied in order. */
  function ApplyAll(st: ResponseState, es: seq<Effect>): ResponseState
    decreases |es|
  {
    if es == [] then st else ApplyAll(Apply(st, es[0]), es[1..])
  }

  lemma {:induction false} ApplyAllAppend(st: ResponseState, a: seq<Effect>, b: seq<Effect>)
    ensures ApplyAll(st, a + b) == ApplyAll(ApplyAll(st, a), b)
    decreases |a|
  {
    if a == [] {
      assert a + b == b;
    } else {
      assert (a + b)[0] == a[0];
      assert (a + b)[1..] == a[1..] + b;
      ApplyAllAppend(Apply(st, a[0]), a[1..], b);
    }
  }

  lemma ApplyOne(st: ResponseState, e: Effect)
    ensures ApplyAll(st, [e]) == Apply(st, e)
  {
    assert ApplyAll(st, [e]) == ApplyAll(Apply(st, e), []);
  }

  lemma ApplyTwo(st: ResponseState, e1: Effect, e2: Effect)
    ensures ApplyAll(st, [e1, e2]) == Apply(Apply(st, e1), e2)
  {
    assert [e1, e2][1..] == [e2];
    ApplyOne(Apply(st, e1), e2);
  }

  /** Once finished, a response stays finished whatever is applied to it. */
  lemma {:induction false} FinishedIsSticky(st: ResponseState, es: seq<Effect>)
    requires st.finished
    ensures ApplyAll(st, es).finished
    decreases |es|
  {
    if es != [] {
      FinishedIsSticky(Apply(st, es[0]), es[1..]);
    }
  }

  /**
   * `to_bytes()`: None gives no bytes, a dict or list its JSON text, a
   * string its UTF-8 encoding, bytes themselves, anything else `str()` of
   * it, encoded. `None` where `json.dumps` raises.
   */
  function BodyBytes(codec: Codec, body: Value): (r: Option<bytes>)
    ensures r.None? <==> (body.VDict? || body.VList?) && codec.dumps(body).None?
    ensures body.VBytes? ==> r == Some(body.data)
  {
    match body
      case VNone => Some([])
      case VDict(_) => (match codec.dumps(body) case None => None case Some(t) => Some(Utf8(t)))
      case VList(_) => (match codec.dumps(body) case None => None case Some(t) => Some(Utf8(t)))
      case VStr(s) => Some(Utf8(s))
      case VBytes(b) => Some(b)
      case _ => Some(Utf8(Str(codec, body)))
  }

  /** An ASCII text body is sent as its own code points, one byte per character. */
  lemma AsciiTextBody(codec: Codec, s: string)
    requires AllChars(s, IsAscii)
    ensures BodyBytes(codec, VStr(s)).Some?
    ensures var b := BodyBytes(codec, VStr(s)).value;
      |b| == |s| && forall i :: 0 <= i < |s| ==> b[i] == s[i] as int
  {
    Utf8Ascii(s);
  }

  /** An integer body (a status code, a count) is sent as its decimal digits. */
  lemma IntBodyIsDecimal(codec: Codec, i: int)
    ensures BodyBytes(codec, VInt(i)) == Some(Utf8(IntToString(i)))
  {
  }

  /** The ASGI form of one header: both parts UTF-8 encoded. */
  function EncodeHeader(h: (string, string)): (bytes, bytes) {
    (Utf8(h.0), Utf8(h.1))
  }

  class Response {
    var status: int
    var headers: Dict<string, string>
    var body: Value
    var finished: bool

    function State(): ResponseState
      reads this
    {
      ResponseState(status, headers, body, finished)
    }

    predicate Valid()
      reads this
    {
      UniqueKeys(headers)
    }

    /** A fresh response: 200, no headers, no body, not finished. */
    constructor()
      ensures Valid()
      ensures State() == Fresh
    {
      status := 200;
      headers := [];
      body := VNone;
      finished := false;
    }

    /** `json(data)`: the body and the JSON content type; allowed even when finished. */
    method Json(data: Value)
      requires Valid()
      modifies this
      ensures Valid()
      ensures body == data
      ensures headers == Set(old(headers), ContentType, ApplicationJson)
      ensures GetHeader(ContentType) == Some(ApplicationJson)
      ensures forall n :: n != ContentType ==> Get(headers, n) == Get(old(headers), n)
      ensures status == old(status) && finished == old(finished)
    {
      SetUnique(headers, ContentType, ApplicationJson);
      GetSetSame(headers, ContentType, ApplicationJson);
      forall n | n != ContentType ensures Get(Set(headers, ContentType, ApplicationJson), n) == Get(headers, n) {
        GetSetOther(headers, ContentType, ApplicationJson, n);
      }
      body := data;
      headers := Set(headers, ContentType, ApplicationJson);
    }

    /** `set_header(name, value)`: exact-case name; an existing name keeps its position. */
    method SetHeader(name: string, value: string)
      requires Valid()
      modifies this
      ensures Valid()
      ensures headers == Set(old(headers), name, value)
      ensures GetHeader(name) == Some(value)
      ensures forall n :: n != name ==> Get(headers, n) == Get(old(headers), n)
      ensures status == old(status) && body == old(body) && finished == old(finished)
    {
      SetUnique(headers, name, value);
      GetSetSame(headers, name, value);
      forall n | n != name ensures Get(Set(headers, name, value), n) == Get(headers, n) {
        GetSetOther(headers, name, value, n);
      }
      headers := Set(headers, name, value);
    }

    /** `get_header(name)`: `None` for a name never set. */
    function GetHeader(name: string): (r: Option<string>)
      reads this
      ensures r.None? <==> name !in Keys(headers)
      ensures r.Some? ==> (name, r.value) in headers
    {
      Get(headers, name)
    }

    /** `set_status(code)`. */
    method SetStatus(code: int)
      modifies this
      ensures State() == old(State()).(status := code)
    {
      status := code;
    }

    /** `finish()`: only the flag changes. */
    method Finish()
      modifies this
      ensures IsFinished()
      ensures State() == old(State()).(finished := true)
    {
      finished := true;
    }

    /** `is_finished()`: reading the flag changes nothing. */
    function IsFinished(): bool
      reads this
    {
      finished
    }

    /** Performing one effect through the methods above. */
    method Perform(e: Effect)
      requires Valid()
      modifies this
      ensures Valid()
      ensures State() == Apply(old(State()), e)
    {
      match e
      case Emit(_) =>
      case SetStatus(code) => SetStatus(code);
      case SetHeader(n, v) => SetHeader(n, v);
      case Json(d) => Json(d);
      case Finish => Finish();
    }

    /** `to_bytes()`. */
    function ToBytes(codec: Codec): Option<bytes>
      reads this
    {
      BodyBytes(codec, body)
    }

    /** `get_headers_list()`: one encoded pair per header, in the dict's order. */
    method GetHeadersList() returns (r: seq<(bytes, bytes)>)
      ensures |r| == |headers|
      ensures forall i :: 0 <= i < |r| ==> r[i] == EncodeHeader(headers[i])
    {
      r := [];
      var i := 0;
      while i < |headers|
        invariant 0 <= i <= |headers|
        invariant |r| == i
        invariant forall k :: 0 <= k < i ==> r[k] == EncodeHeader(headers[k])
      {
        var name := headers[i].0;
        var value := headers[i].1;
        r := r + [(Utf8(name), Utf8(value))];
        i := i + 1;
      }
    }
  }
}
