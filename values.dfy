/**
 * The Python values that flow through handlers, responses and the example
 * stores: JSON-shaped data plus bytes, tuples and opaque objects; their
 * truthiness; `str.encode()` (UTF-8); and the foreign serialisers
 * (`json.dumps`, `json.loads`, `bytes.decode`, `str()` of an object),
 * which the model receives as parameters.
 */
module Values {
  import opened Common
  import opened Text

  type byte = x: int | 0 <= x < 256
  type bytes = seq<byte>

  datatype Value =
    | VNone
    | VBool(b: bool)
    | VInt(i: int)
    | VStr(s: string)
    | VBytes(data: bytes)
    | VList(items: seq<Value>)
    | VTuple(items: seq<Value>)
    | VDict(entries: seq<(string, Value)>)
    /** Any other object (a float, a `Request`, a `Response`, ...), known by its `str()`. */
    | VOther(repr: string)

  /** Python truthiness (`if v:`). */
  predicate Truthy(v: Value) {
    match v
      case VNone => false
      case VBool(b) => b
      case VInt(i) => i != 0
      case VStr(s) => s != []
      case VBytes(d) => d != []
      case VList(xs) => xs != []
      case VTuple(xs) => xs != []
      case VDict(es) => es != []
      case VOther(_) => true
  }

  /** The `{"error": msg}` body used by every built-in error response. */
  function ErrorBody(msg: string): Value {
    VDict([("error", VStr(msg))])
  }

  const InternalServerError := "Internal Server Error"

  /** A handle standing for the request's `Response` object when a handler returns it. */
  const ResponseObject := VOther("<Response>")

  /** A raised exception: its class name and its message. */
  datatype Exc = Exc(kind: string, message: string)

  /**
   * The foreign conversions. `dumps` answers `None` where `json.dumps`
   * raises `TypeError`; `loads` answers `None` where `json.loads` raises
   * `JSONDecodeError`; `decode` answers `None` where `bytes.decode()`
   * raises `UnicodeDecodeError`; `repr` is `str()` of an object.
   */
  datatype Codec = Codec(
    dumps: Value -> Option<string>,
    loads: string -> Option<Value>,
    decode: bytes -> Option<string>,
    repr: Value -> string)

  /** `str(v)`: fixed text for None, booleans, integers and strings. */
  function Str(codec: Codec, v: Value): (r: string)
    ensures v.VInt? ==> r == IntToString(v.i)
    ensures v.VStr? ==> r == v.s
  {
    match v
      case VNone => "None"
      case VBool(b) => if b then "True" else "False"
      case VInt(i) => IntToString(i)
      case VStr(s) => s
      case _ => codec.repr(v)
  }

  // ---------------------------------------------------------------------
  // str.encode(): UTF-8
  // ---------------------------------------------------------------------

  /** The UTF-8 encoding of one code point. */
  function EncodeChar(c: char): (r: bytes)
    ensures 1 <= |r| <= 4
    ensures |r| == 1 <==> c as int < 0x80
    ensures |r| == 1 ==> r[0] == c as int
    ensures r[0] < 0x80 || 0xC0 <= r[0] < 0xF8
    ensures forall k :: 1 <= k < |r| ==> 0x80 <= r[k] < 0xC0
  {
    var n := c as int;
    if n < 0x80 then [n]
    else if n < 0x800 then [0xC0 + n / 0x40, 0x80 + n % 0x40]
    else if n < 0x10000 then [0xE0 + n / 0x1000, 0x80 + (n / 0x40) % 0x40, 0x80 + n % 0x40]
    else [0xF0 + n / 0x40000, 0x80 + (n / 0x1000) % 0x40, 0x80 + (n / 0x40) % 0x40, 0x80 + n % 0x40]
  }

  /** `s.encode()`. */
  function Utf8(s: string): (r: bytes)
    ensures |r| >= |s|
  {
    if s == [] then [] else EncodeChar(s[0]) + Utf8(s[1..])
  }

  /** Encoding distributes over concatenation. */
  lemma {:induction false} Utf8Append(a: string, b: string)
    ensures Utf8(a + b) == Utf8(a) + Utf8(b)
  {
    if a != [] {
      assert (a + b)[0] == a[0];
      assert (a + b)[1..] == a[1..] + b;
      Utf8Append(a[1..], b);
      assert Utf8(a + b) == EncodeChar(a[0]) + Utf8(a[1..] + b);
    } else {
      assert a + b == b;
    }
  }

  predicate IsAscii(c: char) { c as int < 0x80 }

  /** An ASCII string encodes to its own code points, one byte each. */
  lemma {:induction false} Utf8Ascii(s: string)
    requires AllChars(s, IsAscii)
    ensures |Utf8(s)| == |s|
    ensures forall i :: 0 <= i < |s| ==> Utf8(s)[i] == s[i] as int
  {
    if s != [] {
      Utf8Ascii(s[1..]);
    }
  }
}
