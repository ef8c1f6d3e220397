/**
 * The ASGI side of a request: the messages `receive()` hands out, the
 * messages sent back, the `Request` object with its cached body and its
 * header dict, and the fixed JSON responses (`_send_json_response`).
 *
 * `receive` is modelled as the queue of messages it would return, in
 * order; `send` as the list of messages sent.
 */
module AsgiIo {
  import opened Common
  import opened Text
  import opened OrderedDict
  import opened Values

  /** A message returned by `receive()`; a missing `body` is `b""`, a missing `more_body` is false. */
  datatype Incoming = Incoming(kind: string, body: bytes, moreBody: bool)

  /** A message passed to `send()`. */
  datatype Outgoing =
    | Start(status: int, headers: seq<(bytes, bytes)>)
    | BodyMsg(body: bytes)

  /** The parts of the ASGI scope the application reads. */
  datatype Scope = Scope(kind: string, verb: string, path: string, headers: seq<(bytes, bytes)>)

  /** The message that ends the body: an `http.request` without `more_body`. */
  predicate IsLast(m: Incoming) {
    m.kind == "http.request" && !m.moreBody
  }

  /** The bodies of the `http.request` messages among `ms`, concatenated in order. */
  function Chunks(ms: seq<Incoming>): bytes {
    if ms == [] then []
    else Chunk(ms[0]) + Chunks(ms[1..])
  }

  lemma {:induction false} ChunksAppend(a: seq<Incoming>, b: seq<Incoming>)
    ensures Chunks(a + b) == Chunks(a) + Chunks(b)
  {
    if a == [] {
      assert a + b == b;
    } else {
      assert (a + b)[0] == a[0];
      assert (a + b)[1..] == a[1..] + b;
      ChunksAppend(a[1..], b);
    }
  }

  /**
   * The body loop on a queue of messages: the body read and the number of
   * messages consumed, or `None` when the queue runs out first (the
   * source then waits for `receive()` forever).
   */
  function ReadBody(ms: seq<Incoming>): (r: Option<(bytes, nat)>)
    ensures r.Some? ==> 1 <= r.value.1 <= |ms|
  {
    if ms == [] then None
    else if IsLast(ms[0]) then Some((ms[0].body, 1))
    else Prepend(ReadBody(ms[1..]), Chunk(ms[0]), 1)
  }

  /** What one message adds to the body. */
  function Chunk(m: Incoming): bytes {
    if m.kind == "http.request" then m.body else []
  }

  /** Bytes already read and messages already consumed, in front of the rest of a read. */
  function Prepend(o: Option<(bytes, nat)>, p: bytes, k: nat): (r: Option<(bytes, nat)>)
    ensures r.None? <==> o.None?
    ensures r.Some? ==> r.value == (p + o.value.0, k + o.value.1)
  {
    match o
    case None => None
    case Some((b, n)) => Some((p + b, k + n))
  }

  lemma PrependNothing(o: Option<(bytes, nat)>)
    ensures Prepend(o, [], 0) == o
  {
    if o.Some? {
      assert [] + o.value.0 == o.value.0;
    }
  }

  lemma PrependTwice(o: Option<(bytes, nat)>, p: bytes, c: bytes, k: nat)
    ensures Prepend(Prepend(o, c, 1), p, k) == Prepend(o, p + c, k + 1)
  {
    if o.Some? {
      assert p + (c + o.value.0) == (p + c) + o.value.0;
    }
  }

  /**
   * The body read is the concatenation of the `http.request` bodies up to
   * and including the first message without `more_body`; other message
   * types are skipped. It fails exactly when no such message is queued.
   */
  lemma {:induction false} ReadBodyMeaning(ms: seq<Incoming>)
    ensures ReadBody(ms).None? <==> forall i :: 0 <= i < |ms| ==> !IsLast(ms[i])
    ensures ReadBody(ms).Some? ==>
              var (b, n) := ReadBody(ms).value;
              && 1 <= n <= |ms| && IsLast(ms[n - 1])
              && (forall i :: 0 <= i < n - 1 ==> !IsLast(ms[i]))
              && b == Chunks(ms[..n])
  {
    if ms != [] {
      ReadBodyMeaning(ms[1..]);
      if IsLast(ms[0]) {
        assert ms[..1] == [ms[0]];
        assert Chunks([ms[0]]) == ms[0].body + Chunks([]);
      } else {
        assert forall i :: 1 <= i < |ms| ==> ms[i] == ms[1..][i - 1];
        if ReadBody(ms[1..]).Some? {
          var (b, n) := ReadBody(ms[1..]).value;
          ConsTake(ms, n);
          ChunksAppend([ms[0]], ms[1..][..n]);
          assert Chunks([ms[0]]) == Chunk(ms[0]) + Chunks([]);
        }
      }
    }
  }

  /** The body error `Request.json` raises. */
  datatype JsonError =
    | BodyNeverEnds                        // `receive()` never delivers the last chunk
    | Undecodable                          // `UnicodeDecodeError` from `body.decode()`
    | InvalidJson(field: string, value: string)  // `ValidationError`

  /**
   * The `value` of the `ValidationError` for an undecodable JSON body: the
   * text when the body has fewer than 200 bytes, otherwise its first 200
   * characters and `"..."`.
   */
  function ShownValue(body: bytes, text: string): (r: string)
    ensures |body| < 200 ==> r == text
    ensures |body| >= 200 ==> r == PySlice(text, 0, 200) + "..."
    ensures |r| <= |text| + 3
  {
    if |body| < 200 then text else PySlice(text, 0, 200) + "..."
  }

  /** `Request.json` once the body is known. */
  function JsonOf(codec: Codec, body: bytes): (r: Result<Value, JsonError>)
    ensures r.Ok? <==> codec.decode(body).Some? && codec.loads(codec.decode(body).value).Some?
    ensures r.Err? && r.error.InvalidJson? ==>
              codec.decode(body).Some? && r.error.field == "body" && r.error.value == ShownValue(body, codec.decode(body).value)
  {
    match codec.decode(body)
    case None => Err(Undecodable)
    case Some(text) =>
      match codec.loads(text)
      case Some(v) => Ok(v)
      case None => Err(InvalidJson("body", ShownValue(body, text)))
  }

  /**
   * The 200-limit counts bytes but the cut counts characters: a body of 200
   * bytes or more whose text is shorter than 200 characters is shown whole,
   * with `"..."` appended although nothing was cut.
   */
  lemma ShownValueWholeText(body: bytes, text: string)
    requires Utf8(text) == body && |body| >= 200 && |text| <= 200
    ensures ShownValue(body, text) == text + "..."
  {
    assert text[0..|text|] == text;
  }

  /** A shown value, cut from the body's own text, is never longer than 203 characters. */
  lemma ShownValueBound(body: bytes, text: string)
    requires Utf8(text) == body
    ensures |ShownValue(body, text)| <= 203
    ensures |body| >= 200 ==> StartsWith(text, ShownValue(body, text)[..|ShownValue(body, text)| - 3])
  {
    if |body| >= 200 {
      var cut := PySlice(text, 0, 200);
      assert cut == text[..SliceBound(200, |text|)];
      assert |cut| <= 200;
      assert ShownValue(body, text) == cut + "...";
      assert ShownValue(body, text)[..|ShownValue(body, text)| - 3] == cut;
    }
  }

  /** The request object of `src/artanis/__init__.py` (its body loop is the same in `src/asgi.py`). */
  class Request {
    /** What `receive()` returns from now on. */
    var pending: seq<Incoming>
    /** `_body`: `None` until the body has been read. */
    var cached: Option<bytes>
    var pathParams: Dict<string, string>
    var headers: Dict<bytes, bytes>

    /** `Request(scope, receive)`: the header dict keeps the last value of a repeated name. */
    constructor(scope: Scope, receive: seq<Incoming>)
      ensures pending == receive && cached == None && pathParams == []
      ensures headers == FromPairs(scope.headers)
      ensures UniqueKeys(headers)
      ensures forall n :: Get(headers, n) == LastValue(scope.headers, n)
    {
      pending := receive;
      cached := None;
      pathParams := [];
      headers := FromPairs(scope.headers);
      forall n ensures Get(FromPairs(scope.headers), n) == LastValue(scope.headers, n) {
        GetFromPairs(scope.headers, n);
      }
    }

    /**
     * `body()`: the first call reads messages until the last chunk and
     * caches the result; later calls return the cache without receiving.
     */
    method Body() returns (r: Option<bytes>)
      modifies this
      ensures pathParams == old(pathParams) && headers == old(headers)
      ensures old(cached).Some? ==> r == old(cached) && cached == old(cached) && pending == old(pending)
      ensures old(cached).None? && ReadBody(old(pending)).Some? ==>
                && r == Some(ReadBody(old(pending)).value.0)
                && cached == r
                && pending == old(pending)[ReadBody(old(pending)).value.1..]
      ensures old(cached).None? && ReadBody(old(pending)).None? ==> r.None? && cached.None? && pending == []
    {
      if cached.Some? {
        return cached;
      }
      ghost var start := pending;
      var parts: bytes := [];
      ghost var used: nat := 0;
      PrependNothing(ReadBody(start));
      while true
        invariant used <= |start| && pending == start[used..]
        invariant ReadBody(start) == Prepend(ReadBody(pending), parts, used)
        invariant cached.None? && pathParams == old(pathParams) && headers == old(headers)
        decreases |pending|
      {
        if pending == [] {
          return None;
        }
        var message := pending[0];
        PrependTwice(ReadBody(pending[1..]), parts, Chunk(message), used);
        pending := pending[1..];
        used := used + 1;
        assert start[used..] == pending;
        if message.kind == "http.request" {
          parts := parts + message.body;
          if !message.moreBody {
            break;
          }
        } else {
          assert parts + [] == parts;
        }
      }
      cached := Some(parts);
      r := cached;
    }

    /** `json()`: decode the body as UTF-8 and parse it. */
    method Json(codec: Codec) returns (r: Result<Value, JsonError>)
      modifies this
      ensures pathParams == old(pathParams) && headers == old(headers)
      ensures old(cached).Some? ==> r == JsonOf(codec, old(cached).value) && pending == old(pending)
      ensures old(cached).None? && ReadBody(old(pending)).Some? ==>
                r == JsonOf(codec, ReadBody(old(pending)).value.0)
      ensures old(cached).None? && ReadBody(old(pending)).None? ==> r == Err(BodyNeverEnds)
    {
      var body := Body();
      if body.None? {
        return Err(BodyNeverEnds);
      }
      var text := codec.decode(body.value);
      if text.None? {
        return Err(Undecodable);
      }
      var v := codec.loads(text.value);
      if v.None? {
        var shown := if |body.value| < 200 then text.value else PySlice(text.value, 0, 200) + "...";
        return Err(InvalidJson("body", shown));
      }
      r := Ok(v.value);
    }
  }

  // ---------------------------------------------------------------------
  // Fixed JSON responses
  // ---------------------------------------------------------------------

  /** `b"content-length"`. */
  const ContentLengthName: bytes := [99, 111, 110, 116, 101, 110, 116, 45, 108, 101, 110, 103, 116, 104]
  /** `b"content-type"`. */
  const ContentTypeName: bytes := [99, 111, 110, 116, 101, 110, 116, 45, 116, 121, 112, 101]
  /** `b"application/json"`. */
  const ApplicationJsonBytes: bytes := [97, 112, 112, 108, 105, 99, 97, 116, 105, 111, 110, 47, 106, 115, 111, 110]

  /** `str(n).encode()` for a length. */
  function LengthBytes(n: nat): bytes {
    Utf8(NatToString(n))
  }

  /**
   * `_send_json_response(send, status, data)`: a start message with the
   * JSON content type and the body's length, then the body; `None` where
   * `json.dumps` raises before anything is sent.
   */
  function JsonMessages(codec: Codec, status: int, data: Value): (r: Option<seq<Outgoing>>)
    ensures r.None? <==> codec.dumps(data).None?
    ensures r.Some? ==>
              var body := Utf8(codec.dumps(data).value);
              r.value == [Start(status, [(ContentTypeName, ApplicationJsonBytes), (ContentLengthName, LengthBytes(|body|))]),
                          BodyMsg(body)]
  {
    match codec.dumps(data)
    case None => None
    case Some(text) =>
      var body := Utf8(text);
      Some([Start(status, [(ContentTypeName, ApplicationJsonBytes), (ContentLengthName, LengthBytes(|body|))]),
            BodyMsg(body)])
  }

  /** `_send_error_response(send, status, message)`. */
  function ErrorMessages(codec: Codec, status: int, message: string): Option<seq<Outgoing>> {
    JsonMessages(codec, status, ErrorBody(message))
  }

  /** The content length announced by a JSON response is the length of the body that follows it. */
  lemma JsonMessagesLength(codec: Codec, status: int, data: Value)
    requires JsonMessages(codec, status, data).Some?
    ensures var ms := JsonMessages(codec, status, data).value;
            ms[0].Start? && ms[1].BodyMsg? &&
            ms[0].headers[1] == (ContentLengthName, LengthBytes(|ms[1].body|))
  {
  }
}
