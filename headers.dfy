/**
 * Looking up request headers. `Request.headers` is `dict(scope["headers"])`,
 * and ASGI hands the headers over as pairs of byte strings with lower-case
 * names, so the dict maps bytes to bytes. Python compares a `str` key with
 * `bytes` keys as unequal, so `request.headers.get("x-api-key")` always
 * answers the default. `AsWritten` is that lookup; `HeaderText` is the
 * lookup the applications evidently mean: the lower-cased name, encoded,
 * and the value decoded as ISO-8859-1, the charset of HTTP header values.
 */
module RequestHeaders {
  import opened Common
  import opened Text
  import opened OrderedDict
  import opened Values

  /** The header dict as Python sees it: keys and values are `bytes` objects. */
  function RawHeaders(h: Dict<bytes, bytes>): (r: seq<(Value, Value)>)
    ensures |r| == |h|
    ensures forall i :: 0 <= i < |h| ==> r[i] == (VBytes(h[i].0), VBytes(h[i].1))
  {
    if h == [] then [] else [(VBytes(h[0].0), VBytes(h[0].1))] + RawHeaders(h[1..])
  }

  /** `request.headers.get(name)` with a `str` name, as the applications write it. */
  function AsWritten(h: Dict<bytes, bytes>, name: string): Option<Value> {
    Get(RawHeaders(h), VStr(name))
  }

  /** A `str` name is never found among `bytes` keys, whatever was sent. */
  lemma AsWrittenNeverFinds(h: Dict<bytes, bytes>, name: string)
    ensures AsWritten(h, name) == None
  {
    var keys := Keys(RawHeaders(h));
    forall i | 0 <= i < |keys| ensures keys[i] != VStr(name) {
      assert keys[i] == VBytes(h[i].0);
    }
  }

  /** `bytes.decode("latin-1")`: one character per byte. */
  function Latin1(b: bytes): (s: string)
    ensures |s| == |b|
    ensures forall i :: 0 <= i < |b| ==> s[i] as int == b[i]
  {
    if b == [] then [] else [b[0] as char] + Latin1(b[1..])
  }

  /** `str.encode("latin-1")` of a text whose characters all fit in a byte. */
  function Latin1Encode(s: string): (b: bytes)
    requires forall i :: 0 <= i < |s| ==> s[i] as int < 256
    ensures |b| == |s|
    ensures forall i :: 0 <= i < |s| ==> b[i] == s[i] as int
  {
    if s == [] then [] else [s[0] as int] + Latin1Encode(s[1..])
  }

  /** Decoding and encoding again gives the header bytes back. */
  lemma {:induction false} Latin1RoundTrip(b: bytes)
    ensures Latin1Encode(Latin1(b)) == b
  {
    if b != [] {
      Latin1RoundTrip(b[1..]);
      assert Latin1(b)[1..] == Latin1(b[1..]);
    }
  }

  /** The value of header `name` (matched without regard to ASCII case), as text. */
  function HeaderText(h: Dict<bytes, bytes>, name: string): (r: Option<string>)
    ensures r.None? <==> Utf8(Lower(name)) !in Keys(h)
    ensures r.Some? ==> exists v :: (Utf8(Lower(name)), v) in h && r.value == Latin1(v)
  {
    match Get(h, Utf8(Lower(name)))
      case Some(v) => Some(Latin1(v))
      case None => None
  }

  /** `request.headers.get(name, default)`, as the applications mean it. */
  function HeaderOr(h: Dict<bytes, bytes>, name: string, default: string): (r: string)
    ensures Utf8(Lower(name)) !in Keys(h) ==> r == default
  {
    match HeaderText(h, name)
      case Some(v) => v
      case None => default
  }

  /**
   * For the headers of a scope, the value found is the last one sent
   * under that name.
   */
  lemma HeaderTextOfScope(pairs: seq<(bytes, bytes)>, name: string)
    ensures HeaderText(FromPairs(pairs), name) ==
      match LastValue(pairs, Utf8(Lower(name)))
        case Some(v) => Some(Latin1(v))
        case None => None
  {
    GetFromPairs(pairs, Utf8(Lower(name)));
  }
}
