/**
 * `MiddlewareManager`: an ordered list of global middleware and an
 * insertion-ordered dict from path pattern to a list of middleware, and
 * the prefix-style matcher that selects the path middleware for a request.
 *
 * Middleware are of an arbitrary type `M`: the manager only stores them.
 */
module MiddlewareCore {
  import opened Common
  import opened Text
  import opened OrderedDict
  import opened PathPattern

  // ---------------------------------------------------------------------
  // _compile_path_pattern / _path_matches
  // ---------------------------------------------------------------------

  /**
   * The tail appended by `_compile_path_pattern`: `(?:/.*)?$` unless the
   * escaped pattern already ends in `$`. Escaping turns a final `$` of the
   * pattern into `\$`, which still ends in `$`, so such a pattern gets no
   * end anchor at all and matches as a plain prefix.
   */
  function MiddlewareTail(pattern: string): Tail {
    if |pattern| >= 1 && pattern[|pattern| - 1] == '$' then Unanchored else SubpathOrEnd
  }

  /**
   * `_path_matches(pattern, path)`; `None` when compiling the pattern
   * raises `re.error`.
   */
  function PathMatches(pattern: string, path: string): (r: Option<bool>)
    ensures r.None? <==> Compile(pattern).None?
  {
    match Compile(pattern)
      case None => None
      case Some(ts) => Some(Match(ts, path, MiddlewareTail(pattern)).Some?)
  }

  /**
   * A compiled pattern matches exactly when its groups can take non-empty,
   * `/`-free values that spell out a prefix of the path which the tail
   * accepts: the whole path, the prefix followed by `/...`, or, for a
   * pattern ending in `$`, any continuation.
   */
  lemma PathMatchesMeaning(pattern: string, path: string)
    requires Compile(pattern).Some?
    ensures PathMatches(pattern, path) == Some(true) <==>
              exists vs :: Witness(Compile(pattern).value, vs, path, MiddlewareTail(pattern))
  {
    MatchIff(Compile(pattern).value, path, MiddlewareTail(pattern));
  }

  /** A pattern without braces or a final `$`: the path itself, or the path followed by `/...`. */
  lemma LiteralPatternMatches(pattern: string, path: string)
    requires '{' !in pattern && '}' !in pattern
    requires pattern == [] || pattern[|pattern| - 1] != '$'
    ensures PathMatches(pattern, path) ==
              Some(StartsWith(path, pattern) && TailOk(SubpathOrEnd, path[|pattern|..]))
  {
    CompileLiteral(pattern);
    MatchLiteral(pattern, path, SubpathOrEnd);
  }

  /** `/api` matches `/api` and `/api/users`, but not `/apix`. */
  lemma ApiIsNotAStringPrefix()
    ensures PathMatches("/api", "/api") == Some(true)
    ensures PathMatches("/api", "/api/users") == Some(true)
    ensures PathMatches("/api", "/apix") == Some(false)
  {
    ApiMatchesApi();
    ApiMatchesSubpath();
    ApiRejectsApix();
  }

  lemma ApiMatchesApi()
    ensures PathMatches("/api", "/api") == Some(true)
  {
    LiteralPatternMatches("/api", "/api");
    assert "/api"[4..] == [];
  }

  lemma ApiMatchesSubpath()
    ensures PathMatches("/api", "/api/users") == Some(true)
  {
    LiteralPatternMatches("/api", "/api/users");
    UsersSubpath();
  }

  lemma UsersSubpath()
    ensures StartsWith("/api/users", "/api") && TailOk(SubpathOrEnd, "/api/users"[4..])
  {
    var r := "/api/users"[4..];
    assert r == "/users" && r[1..] == "users";
    assert NoNewline("users");
  }

  lemma ApiRejectsApix()
    ensures PathMatches("/api", "/apix") == Some(false)
  {
    LiteralPatternMatches("/api", "/apix");
    assert "/apix"[4..] == "x";
  }

  /** `.` in a pattern is a literal dot, not a wildcard. */
  lemma DotIsLiteral()
    ensures PathMatches("/a.b", "/axb") == Some(false)
  {
    LiteralPatternMatches("/a.b", "/axb");
  }

  /**
   * The pattern `/` is not a catch-all: it matches `/` (with Python's `$`,
   * also `/` plus a final newline) and paths starting with `//`.
   */
  lemma RootPatternMatches(path: string)
    ensures PathMatches("/", path) == Some(true) <==>
              path == "/" || path == "/\n" || (StartsWith(path, "//") && DotStarDollar(path[2..]))
  {
    LiteralPatternMatches("/", path);
    if |path| >= 1 && path[0] == '/' {
      RootTail(path);
    }
  }

  lemma RootTail(path: string)
    requires |path| >= 1 && path[0] == '/'
    ensures TailOk(SubpathOrEnd, path[1..]) <==>
              path == "/" || path == "/\n" || (StartsWith(path, "//") && DotStarDollar(path[2..]))
  {
    var r := path[1..];
    assert path == "/" + r;
    if |r| >= 1 {
      assert StartsWith(path, "//") <==> r[0] == '/';
      assert r[1..] == path[2..];
    }
  }

  /** A pattern ending in `$` is matched as a plain prefix (its `$` is a literal character). */
  lemma DollarPatternIsPrefix(pattern: string, path: string)
    requires '{' !in pattern && '}' !in pattern
    requires |pattern| >= 1 && pattern[|pattern| - 1] == '$'
    ensures PathMatches(pattern, path) == Some(StartsWith(path, pattern))
  {
    CompileLiteral(pattern);
    MatchLiteral(pattern, path, Unanchored);
  }

  // ---------------------------------------------------------------------
  // Selection over the path dict
  // ---------------------------------------------------------------------

  /**
   * `find_matching_middleware(path)` over the dict `d`: the lists of the
   * matching patterns, concatenated in key order; `None` when some
   * pattern fails to compile (the loop raises).
   */
  function Matching<M>(d: Dict<string, seq<M>>, path: string): Option<seq<M>> {
    if d == [] then Some([])
    else match PathMatches(d[0].0, path)
      case None => None
      case Some(b) =>
        match Matching(d[1..], path)
          case None => None
          case Some(rest) => Some((if b then d[0].1 else []) + rest)
  }

  /** Selecting over two halves of the dict and concatenating gives the selection over the whole. */
  lemma {:induction false} MatchingAppend<M>(d1: Dict<string, seq<M>>, d2: Dict<string, seq<M>>, path: string)
    ensures Matching(d1 + d2, path).None? <==> Matching(d1, path).None? || Matching(d2, path).None?
    ensures Matching(d1 + d2, path).Some? ==>
              Matching(d1 + d2, path).value == Matching(d1, path).value + Matching(d2, path).value
  {
    if d1 == [] {
      assert d1 + d2 == d2;
    } else {
      assert (d1 + d2)[0] == d1[0];
      assert (d1 + d2)[1..] == d1[1..] + d2;
      MatchingAppend(d1[1..], d2, path);
    }
  }

  /** Selection fails exactly when some pattern of the dict fails to compile. */
  lemma {:induction false} MatchingFailsIff<M>(d: Dict<string, seq<M>>, path: string)
    ensures Matching(d, path).None? <==> exists i :: 0 <= i < |d| && Compile(d[i].0).None?
  {
    if d != [] {
      MatchingFailsIff(d[1..], path);
      if exists i :: 1 <= i < |d| && Compile(d[i].0).None? {
        var i :| 1 <= i < |d| && Compile(d[i].0).None?;
        assert d[1..][i - 1] == d[i];
      }
    }
  }

  /** The total number of path middleware. */
  function SumLengths<M>(d: Dict<string, seq<M>>): nat {
    if d == [] then 0 else |d[0].1| + SumLengths(d[1..])
  }

  lemma {:induction false} SumLengthsAppend<M>(d1: Dict<string, seq<M>>, d2: Dict<string, seq<M>>)
    ensures SumLengths(d1 + d2) == SumLengths(d1) + SumLengths(d2)
  {
    if d1 == [] {
      assert d1 + d2 == d2;
    } else {
      assert (d1 + d2)[1..] == d1[1..] + d2;
      SumLengthsAppend(d1[1..], d2);
    }
  }

  /** Never more path middleware are selected than are registered. */
  lemma {:induction false} MatchingBounded<M>(d: Dict<string, seq<M>>, path: string)
    requires Matching(d, path).Some?
    ensures |Matching(d, path).value| <= SumLengths(d)
  {
    if d != [] {
      MatchingBounded(d[1..], path);
    }
  }

  /** All registered lists, in key order. */
  function Flatten<M>(d: Dict<string, seq<M>>): seq<M> {
    if d == [] then [] else d[0].1 + Flatten(d[1..])
  }

  /** When every pattern matches, every path middleware is selected, grouped by key. */
  lemma {:induction false} MatchingAll<M>(d: Dict<string, seq<M>>, path: string)
    requires forall i :: 0 <= i < |d| ==> PathMatches(d[i].0, path) == Some(true)
    ensures Matching(d, path) == Some(Flatten(d))
  {
    if d != [] {
      assert forall i :: 0 <= i < |d| - 1 ==> d[1..][i] == d[i + 1];
      MatchingAll(d[1..], path);
    }
  }

  /** `add_path(p, m)` on the dict: `p`'s list (created empty if new) gets `m` appended. */
  function AppendUnder<M>(d: Dict<string, seq<M>>, p: string, m: M): Dict<string, seq<M>> {
    Set(d, p, ListOf(d, p) + [m])
  }

  function ListOf<M>(d: Dict<string, seq<M>>, p: string): seq<M> {
    match Get(d, p)
      case Some(l) => l
      case None => []
  }

  /** A new pattern goes last, so its middleware follows every earlier path middleware. */
  lemma AddPathNewKey<M>(d: Dict<string, seq<M>>, p: string, m: M, path: string)
    requires p !in Keys(d) && Matching(d, path).Some? && PathMatches(p, path).Some?
    ensures AppendUnder(d, p, m) == d + [(p, [m])]
    ensures Matching(AppendUnder(d, p, m), path) ==
              Some(Matching(d, path).value + (if PathMatches(p, path) == Some(true) then [m] else []))
  {
    assert ListOf(d, p) + [m] == [m];
    SetNew(d, p, [m]);
    MatchingAppend(d, [(p, [m])], path);
    MatchingSingle((p, [m]), path);
  }

  lemma MatchingSingle<M>(e: (string, seq<M>), path: string)
    ensures Matching([e], path) ==
              match PathMatches(e.0, path)
                case None => None
                case Some(b) => Some(if b then e.1 else [])
  {
    var d := [e];
    assert d[0] == e && d[1..] == [];
    assert Matching(d[1..], path) == Some([]);
    match PathMatches(e.0, path) {
      case None =>
      case Some(b) =>
        var x: seq<M> := if b then e.1 else [];
        assert x + [] == x;
        assert Matching(d, path) == Some(x + []);
    }
  }

  /** One more iteration of the selection loop. */
  lemma MatchingStep<M>(d: Dict<string, seq<M>>, i: nat, acc: seq<M>, path: string)
    requires i < |d| && Matching(d[..i], path) == Some(acc)
    ensures PathMatches(d[i].0, path).None? ==> Matching(d, path).None?
    ensures PathMatches(d[i].0, path).Some? ==>
              Matching(d[..i + 1], path) ==
                Some(acc + (if PathMatches(d[i].0, path).value then d[i].1 else []))
  {
    var e := d[i];
    TakeOneMore(d, i);
    MatchingAppend(d[..i], [e], path);
    MatchingSingle(e, path);
    if PathMatches(e.0, path).None? {
      MatchingAppend(d[..i + 1], d[i + 1..], path);
    }
  }

  /** Selection over a dict split around one entry. */
  lemma MatchingSplit<M>(a: Dict<string, seq<M>>, e: (string, seq<M>), b: Dict<string, seq<M>>, path: string)
    ensures Matching(a + [e] + b, path).Some? <==>
              Matching(a, path).Some? && PathMatches(e.0, path).Some? && Matching(b, path).Some?
    ensures Matching(a + [e] + b, path).Some? ==>
              Matching(a + [e] + b, path).value ==
                Matching(a, path).value + (if PathMatches(e.0, path) == Some(true) then e.1 else [])
                + Matching(b, path).value
  {
    MatchingAppend(a + [e], b, path);
    MatchingAppend(a, [e], path);
    MatchingSingle(e, path);
  }

  /**
   * A pattern registered before keeps its place: the new middleware joins
   * that pattern's group, ahead of the groups of patterns registered after
   * it, whatever their registration times.
   */
  lemma AddPathExistingKey<M>(d: Dict<string, seq<M>>, p: string, m: M, path: string) returns (i: nat)
    requires p in Keys(d) && Matching(d, path).Some?
    ensures i < |d| && d[i].0 == p
    ensures AppendUnder(d, p, m) == d[..i] + [(p, d[i].1 + [m])] + d[i + 1..]
    ensures Matching(d[..i], path).Some? && Matching(d[i + 1..], path).Some?
    ensures Matching(AppendUnder(d, p, m), path) ==
              Some(Matching(d[..i], path).value
                   + (if PathMatches(p, path) == Some(true) then d[i].1 + [m] else [])
                   + Matching(d[i + 1..], path).value)
  {
    i := ExistingEntry(d, p, m);
    MatchingSplit(d[..i], d[i], d[i + 1..], path);
    MatchingSplit(d[..i], (p, d[i].1 + [m]), d[i + 1..], path);
  }

  lemma ExistingEntry<M>(d: Dict<string, seq<M>>, p: string, m: M) returns (i: nat)
    requires p in Keys(d)
    ensures i < |d| && d[i].0 == p
    ensures d == d[..i] + [d[i]] + d[i + 1..]
    ensures AppendUnder(d, p, m) == d[..i] + [(p, d[i].1 + [m])] + d[i + 1..]
  {
    i := KeyIndex(d, p);
    GetFirst(d, i, p);
    SetExisting(d, i, p, d[i].1 + [m]);
    assert d == d[..i] + [d[i]] + d[i + 1..];
  }

  lemma {:induction false} GetFirst<M>(d: Dict<string, seq<M>>, i: nat, k: string)
    requires i < |d| && d[i].0 == k
    requires forall j :: 0 <= j < i ==> d[j].0 != k
    ensures Get(d, k) == Some(d[i].1)
  {
    if i > 0 {
      GetFirst(d[1..], i - 1, k);
    }
  }

  /** `add_path` registers exactly one more middleware. */
  lemma AddPathCount<M>(d: Dict<string, seq<M>>, p: string, m: M)
    ensures SumLengths(AppendUnder(d, p, m)) == SumLengths(d) + 1
  {
    if p in Keys(d) {
      var i := ExistingEntry(d, p, m);
      SumLengthsSplit(d[..i], d[i], d[i + 1..]);
      SumLengthsSplit(d[..i], (p, d[i].1 + [m]), d[i + 1..]);
    } else {
      assert ListOf(d, p) + [m] == [m];
      SetNew(d, p, [m]);
      SumLengthsAppend(d, [(p, [m])]);
    }
  }

  lemma SumLengthsSplit<M>(a: Dict<string, seq<M>>, e: (string, seq<M>), b: Dict<string, seq<M>>)
    ensures SumLengths(a + [e] + b) == SumLengths(a) + |e.1| + SumLengths(b)
  {
    SumLengthsAppend(a + [e], b);
    SumLengthsAppend(a, [e]);
  }

  /**
   * Every middleware that applies to `path`: the global list, then the
   * selected path middleware; `None` where a pattern fails to compile.
   */
  function AllFor<M>(global: seq<M>, d: Dict<string, seq<M>>, path: string): Option<seq<M>> {
    match Matching(d, path)
    case None => None
    case Some(ms) => Some(global + ms)
  }

  /** The three counters `middleware_count` reports. */
  datatype Counts = Counts(global: nat, path: nat, total: nat)

  class MiddlewareManager<M> {
    var globalMiddleware: seq<M>
    var pathMiddleware: Dict<string, seq<M>>

    predicate Valid()
      reads this
    {
      UniqueKeys(pathMiddleware)
    }

    constructor()
      ensures Valid()
      ensures globalMiddleware == [] && pathMiddleware == []
    {
      globalMiddleware := [];
      pathMiddleware := [];
    }

    /** `add_global`: append to the global list; the path dict is untouched. */
    method AddGlobal(m: M)
      requires Valid()
      modifies this
      ensures Valid()
      ensures globalMiddleware == old(globalMiddleware) + [m]
      ensures pathMiddleware == old(pathMiddleware)
    {
      globalMiddleware := globalMiddleware + [m];
    }

    /**
     * `add_path`: create an empty list for an unseen pattern (at the end of
     * the dict), then append to the pattern's list. Other patterns and the
     * global list are untouched.
     */
    method AddPath(p: string, m: M)
      requires Valid()
      modifies this
      ensures Valid()
      ensures pathMiddleware == AppendUnder(old(pathMiddleware), p, m)
      ensures Keys(pathMiddleware) ==
                if p in Keys(old(pathMiddleware)) then Keys(old(pathMiddleware))
                else Keys(old(pathMiddleware)) + [p]
      ensures Get(pathMiddleware, p) == Some(ListOf(old(pathMiddleware), p) + [m])
      ensures forall q :: q != p ==> Get(pathMiddleware, q) == Get(old(pathMiddleware), q)
      ensures globalMiddleware == old(globalMiddleware)
    {
      ghost var d := pathMiddleware;
      if p !in Keys(pathMiddleware) {
        pathMiddleware := Set(pathMiddleware, p, []);
        GetSetSame(d, p, []);
        SetSet(d, p, [], ListOf(d, p) + [m]);
      }
      var current := Get(pathMiddleware, p).value;
      assert current == ListOf(d, p);
      pathMiddleware := Set(pathMiddleware, p, current + [m]);
      AppendUnderFacts(d, p, m);
      SetKeys(d, p, current + [m]);
    }

    /** `find_matching_middleware`: the loop over the dict's items with `extend`. */
    method FindMatchingMiddleware(path: string) returns (r: Option<seq<M>>)
      ensures r == Matching(pathMiddleware, path)
    {
      var d := pathMiddleware;
      var acc: seq<M> := [];
      var i := 0;
      while i < |d|
        invariant 0 <= i <= |d|
        invariant Matching(d[..i], path) == Some(acc)
      {
        var matches := PathMatches(d[i].0, path);
        MatchingStep(d, i, acc, path);
        if matches.None? {
          return None;
        }
        if matches.value {
          acc := acc + d[i].1;
        } else {
          assert acc + [] == acc;
        }
        i := i + 1;
      }
      assert d[..i] == d;
      return Some(acc);
    }

    /**
     * `get_all_middleware_for_path`: every global middleware in
     * registration order, then the selected path middleware.
     */
    method GetAllMiddlewareForPath(path: string) returns (r: Option<seq<M>>)
      ensures r.None? <==> Matching(pathMiddleware, path).None?
      ensures r.Some? ==> r.value == globalMiddleware + Matching(pathMiddleware, path).value
      ensures r == AllFor(globalMiddleware, pathMiddleware, path)
    {
      var selected := FindMatchingMiddleware(path);
      if selected.None? {
        return None;
      }
      return Some(globalMiddleware + selected.value);
    }

    /** `clear`: both collections empty. */
    method Clear()
      modifies this
      ensures Valid()
      ensures globalMiddleware == [] && pathMiddleware == []
    {
      globalMiddleware := [];
      pathMiddleware := [];
    }

    /** `middleware_count`: the sum of the per-pattern list lengths, and the total. */
    method MiddlewareCount() returns (c: Counts)
      ensures c.global == |globalMiddleware|
      ensures c.path == SumLengths(pathMiddleware)
      ensures c.total == c.global + c.path
    {
      var pathCount := 0;
      var i := 0;
      while i < |pathMiddleware|
        invariant 0 <= i <= |pathMiddleware|
        invariant pathCount == SumLengths(pathMiddleware[..i])
      {
        TakeOneMore(pathMiddleware, i);
        SumLengthsAppend(pathMiddleware[..i], [pathMiddleware[i]]);
        pathCount := pathCount + |pathMiddleware[i].1|;
        i := i + 1;
      }
      assert pathMiddleware[..i] == pathMiddleware;
      c := Counts(|globalMiddleware|, pathCount, |globalMiddleware| + pathCount);
    }
  }

  /** What `add_path` does to the dict, key by key. */
  lemma AppendUnderFacts<M>(d: Dict<string, seq<M>>, p: string, m: M)
    requires UniqueKeys(d)
    ensures UniqueKeys(AppendUnder(d, p, m))
    ensures Get(AppendUnder(d, p, m), p) == Some(ListOf(d, p) + [m])
    ensures forall q :: q != p ==> Get(AppendUnder(d, p, m), q) == Get(d, q)
  {
    SetUnique(d, p, ListOf(d, p) + [m]);
    GetSetSame(d, p, ListOf(d, p) + [m]);
    forall q | q != p ensures Get(AppendUnder(d, p, m), q) == Get(d, q) {
      GetSetOther(d, p, ListOf(d, p) + [m], q);
    }
  }
}
