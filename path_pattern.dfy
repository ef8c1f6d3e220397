/**
 * Path patterns such as `/users/{id}/posts`, as both `MiddlewareManager`
 * and the legacy `App` compile them: `re.escape` the text, then turn each
 * `{name}` into the named group `(?P<name>[^/]+)`. Every other character
 * matches itself. The compiled expression is then anchored by one of three
 * tails, and matched with `re.match` (anchored at the start).
 *
 * The matcher below follows the regular-expression engine's own search
 * order: a group `[^/]+` first takes the longest run of non-`/` characters
 * and gives back one character at a time until the rest of the pattern
 * matches, so the captured values are the ones Python's `groupdict()`
 * reports.
 */
module PathPattern {
  import opened Common
  import opened Text
  import opened OrderedDict

  datatype Token = Lit(c: char) | Param(name: string)

  predicate IsIdentStart(c: char) { IsAsciiLetter(c) || c == '_' }
  predicate IsIdentChar(c: char) { IsAsciiAlnum(c) || c == '_' }

  /** A valid group name (`str.isidentifier()` over ASCII). */
  predicate IsIdentifier(s: string) {
    |s| >= 1 && IsIdentStart(s[0]) && AllChars(s, IsIdentChar)
  }

  /** The group names of a token list, left to right. */
  function Names(ts: seq<Token>): seq<string> {
    if ts == [] then []
    else (if ts[0].Param? then [ts[0].name] else []) + Names(ts[1..])
  }

  predicate GoodToken(t: Token) {
    match t
      case Lit(c) => c != '{' && c != '}'
      case Param(n) => IsIdentifier(n)
  }

  /** A token list that some pattern text compiles to. */
  predicate WellFormed(ts: seq<Token>) {
    (forall i :: 0 <= i < |ts| ==> GoodToken(ts[i])) && Distinct(Names(ts))
  }

  function TokenText(t: Token): string {
    match t
      case Lit(c) => [c]
      case Param(n) => "{" + n + "}"
  }

  /** The pattern text a token list is written as. */
  function Source(ts: seq<Token>): string {
    if ts == [] then [] else TokenText(ts[0]) + Source(ts[1..])
  }

  /**
   * Compiling a pattern. `None` stands for the `re.error` that
   * `re.compile` raises: a `}` with no `{` before it (an unbalanced
   * parenthesis), a `{` with no `}` after it (a group name missing its
   * `>`), a name that is not an identifier (this covers `{}` and nested
   * braces), or the same name used twice.
   */
  function Compile(p: string): Option<seq<Token>>
    decreases |p|
  {
    if p == [] then Some([])
    else if p[0] == '}' then None
    else if p[0] == '{' then
      if '}' !in p then None
      else
        var j := IndexOf(p, '}');
        var name := p[1..j];
        if !IsIdentifier(name) then None
        else match Compile(p[j + 1..])
          case None => None
          case Some(rest) => if name in Names(rest) then None else Some([Param(name)] + rest)
    else match Compile(p[1..])
      case None => None
      case Some(rest) => Some([Lit(p[0])] + rest)
  }

  /** A pattern that compiles yields well-formed tokens that spell it back. */
  lemma {:induction false} CompileSound(p: string)
    ensures Compile(p).Some? ==> WellFormed(Compile(p).value) && Source(Compile(p).value) == p
    decreases |p|
  {
    if p != [] && p[0] == '{' && '}' in p {
      var j := IndexOf(p, '}');
      CompileSound(p[j + 1..]);
      CompileSoundParam(p, j);
    } else if p != [] && p[0] != '{' && p[0] != '}' {
      CompileSound(p[1..]);
      CompileSoundLit(p);
    }
  }

  lemma CompileSoundParam(p: string, j: nat)
    requires '}' in p && p[0] == '{' && j == IndexOf(p, '}')
    requires Compile(p[j + 1..]).Some? ==>
               WellFormed(Compile(p[j + 1..]).value) && Source(Compile(p[j + 1..]).value) == p[j + 1..]
    ensures Compile(p).Some? ==> WellFormed(Compile(p).value) && Source(Compile(p).value) == p
  {
    if Compile(p).Some? {
      var name := p[1..j];
      var rest := Compile(p[j + 1..]).value;
      assert Compile(p) == Some([Param(name)] + rest);
      BraceSplit(p, j);
      ConsParam(name, rest);
    }
  }

  lemma CompileSoundLit(p: string)
    requires p != [] && p[0] != '{' && p[0] != '}'
    requires Compile(p[1..]).Some? ==> WellFormed(Compile(p[1..]).value) && Source(Compile(p[1..]).value) == p[1..]
    ensures Compile(p).Some? ==> WellFormed(Compile(p).value) && Source(Compile(p).value) == p
  {
    if Compile(p).Some? {
      var rest := Compile(p[1..]).value;
      assert Compile(p) == Some([Lit(p[0])] + rest);
      assert p == [p[0]] + p[1..];
      ConsLit(p[0], rest);
    }
  }

  lemma BraceSplit(p: string, j: nat)
    requires 0 < j < |p| && p[0] == '{' && p[j] == '}'
    ensures p == "{" + p[1..j] + "}" + p[j + 1..]
  {
    assert p == p[..1] + p[1..j] + p[j..j + 1] + p[j + 1..];
  }

  lemma ConsLit(c: char, rest: seq<Token>)
    requires c != '{' && c != '}' && WellFormed(rest)
    ensures WellFormed([Lit(c)] + rest) && Source([Lit(c)] + rest) == [c] + Source(rest)
  {
    var ts := [Lit(c)] + rest;
    assert ts[1..] == rest;
    assert Names(ts) == Names(rest);
  }

  lemma ConsParam(n: string, rest: seq<Token>)
    requires IsIdentifier(n) && WellFormed(rest) && n !in Names(rest)
    ensures WellFormed([Param(n)] + rest) && Source([Param(n)] + rest) == "{" + n + "}" + Source(rest)
  {
    var ts := [Param(n)] + rest;
    assert ts[1..] == rest;
    assert Names(ts) == [n] + Names(rest);
    forall i, j | 0 <= i < j < |Names(ts)| ensures Names(ts)[i] != Names(ts)[j] {
      if i == 0 {
        assert Names(ts)[j] == Names(rest)[j - 1];
      } else {
        assert Names(ts)[i] == Names(rest)[i - 1] && Names(ts)[j] == Names(rest)[j - 1];
      }
    }
  }

  /** Every well-formed token list is what its own text compiles to. */
  lemma {:induction false} CompileSource(ts: seq<Token>)
    requires WellFormed(ts)
    ensures Compile(Source(ts)) == Some(ts)
  {
    if ts != [] {
      var rest := ts[1..];
      assert GoodToken(ts[0]);
      assert Names(ts) == (if ts[0].Param? then [ts[0].name] else []) + Names(rest);
      DistinctTail(if ts[0].Param? then [ts[0].name] else [], Names(rest));
      assert WellFormed(rest);
      CompileSource(rest);
      if ts[0].Lit? {
        CompileSourceLit(ts);
      } else {
        assert [ts[0].name][0] == ts[0].name;
        CompileSourceParam(ts);
      }
    }
  }

  lemma CompileSourceLit(ts: seq<Token>)
    requires ts != [] && ts[0].Lit? && GoodToken(ts[0])
    requires Compile(Source(ts[1..])) == Some(ts[1..])
    ensures Compile(Source(ts)) == Some(ts)
  {
    var p := Source(ts);
    assert p == [ts[0].c] + Source(ts[1..]);
    assert p[1..] == Source(ts[1..]);
    assert [ts[0]] + ts[1..] == ts;
  }

  lemma CompileSourceParam(ts: seq<Token>)
    requires ts != [] && ts[0].Param? && GoodToken(ts[0])
    requires ts[0].name !in Names(ts[1..])
    requires Compile(Source(ts[1..])) == Some(ts[1..])
    ensures Compile(Source(ts)) == Some(ts)
  {
    var n := ts[0].name;
    var t := Source(ts[1..]);
    var p := Source(ts);
    assert p == "{" + n + "}" + t;
    ClosingBrace(n, t);
    assert p[0] == '{';
    assert [ts[0]] + ts[1..] == ts;
  }

  /** In `{name}rest`, the first `}` is the one right after the name. */
  lemma ClosingBrace(n: string, t: string)
    requires AllChars(n, IsIdentChar)
    ensures var p := "{" + n + "}" + t;
      && '}' in p && IndexOf(p, '}') == |n| + 1
      && p[1..|n| + 1] == n && p[|n| + 2..] == t
  {
    var p := "{" + n + "}" + t;
    assert p[|n| + 1] == '}';
    forall k | 0 <= k < |n| + 1 ensures p[k] != '}' {
      if k > 0 { assert p[k] == n[k - 1]; }
    }
    IndexOfUnique(p, '}', |n| + 1);
    assert p[1..|n| + 1] == n;
    assert p[|n| + 2..] == t;
  }

  lemma IndexOfUnique(s: string, c: char, i: nat)
    requires i < |s| && s[i] == c && c !in s[..i]
    ensures IndexOf(s, c) == i
  {
  }

  // ---------------------------------------------------------------------
  // What the compiled expression accepts
  // ---------------------------------------------------------------------

  /**
   * How the compiled expression ends:
   *   EndAnchor     `^...$`           (routes of the legacy `App`)
   *   SubpathOrEnd  `^...(?:/.*)?$`   (middleware patterns)
   *   Unanchored    `^...`            (middleware patterns whose text ends in `$`)
   */
  datatype Tail = EndAnchor | SubpathOrEnd | Unanchored

  /** Python's `$`: at the very end, or just before a final newline. */
  predicate DollarOk(r: string) {
    r == [] || r == "\n"
  }

  /** `.*$`: `.` does not match a newline. */
  predicate DotStarDollar(x: string) {
    NoNewline(x) || (|x| >= 1 && x[|x| - 1] == '\n' && NoNewline(x[..|x| - 1]))
  }

  /** Whether the tail accepts what is left of the path after the tokens. */
  predicate TailOk(tail: Tail, r: string) {
    match tail
      case EndAnchor => DollarOk(r)
      case SubpathOrEnd => DollarOk(r) || (|r| >= 1 && r[0] == '/' && DotStarDollar(r[1..]))
      case Unanchored => true
  }

  /** Length of the longest run of non-`/` characters at the start of `s`. */
  function RunLen(s: string): (k: nat)
    ensures k <= |s|
    ensures forall i :: 0 <= i < k ==> s[i] != '/'
    ensures k < |s| ==> s[k] == '/'
  {
    if s == [] || s[0] == '/' then 0 else 1 + RunLen(s[1..])
  }

  predicate SlashFreePrefix(s: string, k: nat) {
    k <= |s| && forall i :: 0 <= i < k ==> s[i] != '/'
  }

  /** `re.match(...)`: the captured groups of the first match found, or `None`. */
  function Match(ts: seq<Token>, s: string, tail: Tail): Option<map<string, string>>
    decreases |ts|, 0, 0
  {
    if ts == [] then
      if TailOk(tail, s) then Some(map[]) else None
    else match ts[0]
      case Lit(c) =>
        if |s| >= 1 && s[0] == c then Match(ts[1..], s[1..], tail) else None
      case Param(name) =>
        TryRun(name, ts[1..], s, RunLen(s), tail)
  }

  /** A group `[^/]+` tries runs of length `k`, `k - 1`, ..., `1`, in that order. */
  function TryRun(name: string, rest: seq<Token>, s: string, k: nat, tail: Tail): Option<map<string, string>>
    requires SlashFreePrefix(s, k)
    decreases |rest|, 1, k
  {
    if k == 0 then None
    else match Match(rest, s[k..], tail)
      case Some(m) => Some(m[name := s[..k]])
      case None => TryRun(name, rest, s, k - 1, tail)
  }

  // ---------------------------------------------------------------------
  // The declarative reading: what a match is
  // ---------------------------------------------------------------------

  /** A value a group can capture: a non-empty run without `/`. */
  predicate GoodValue(v: string) {
    |v| >= 1 && '/' !in v
  }

  predicate GoodValues(vs: seq<string>) {
    forall i :: 0 <= i < |vs| ==> GoodValue(vs[i])
  }

  /** The text the tokens stand for when the groups take the values `vs`. */
  function Fill(ts: seq<Token>, vs: seq<string>): string
    requires |vs| == |Names(ts)|
  {
    if ts == [] then []
    else match ts[0]
      case Lit(c) => [c] + Fill(ts[1..], vs)
      case Param(_) => vs[0] + Fill(ts[1..], vs[1..])
  }

  /** The `groupdict()` when the groups take the values `vs`. */
  function Bind(ts: seq<Token>, vs: seq<string>): map<string, string>
    requires |vs| == |Names(ts)|
  {
    if ts == [] then map[]
    else match ts[0]
      case Lit(_) => Bind(ts[1..], vs)
      case Param(n) => Bind(ts[1..], vs[1..])[n := vs[0]]
  }

  /** The groups taking the values `vs` make the pattern match `s`. */
  predicate Witness(ts: seq<Token>, vs: seq<string>, s: string, tail: Tail) {
    && |vs| == |Names(ts)|
    && GoodValues(vs)
    && StartsWith(s, Fill(ts, vs))
    && TailOk(tail, s[|Fill(ts, vs)|..])
  }

  lemma {:induction false} TryRunSound(name: string, rest: seq<Token>, s: string, k: nat, tail: Tail)
    returns (k': nat)
    requires SlashFreePrefix(s, k)
    requires TryRun(name, rest, s, k, tail).Some?
    ensures 1 <= k' <= k
    ensures Match(rest, s[k'..], tail).Some?
    ensures TryRun(name, rest, s, k, tail).value == Match(rest, s[k'..], tail).value[name := s[..k']]
    decreases k
  {
    if Match(rest, s[k..], tail).Some? {
      k' := k;
    } else {
      k' := TryRunSound(name, rest, s, k - 1, tail);
    }
  }

  /** Whatever the matcher reports is a match, and its groups are the witness's values. */
  lemma {:induction false} MatchSound(ts: seq<Token>, s: string, tail: Tail) returns (vs: seq<string>)
    requires Match(ts, s, tail).Some?
    ensures Witness(ts, vs, s, tail)
    ensures Match(ts, s, tail).value == Bind(ts, vs)
    decreases |ts|
  {
    if ts == [] {
      vs := [];
    } else if ts[0].Lit? {
      vs := MatchSound(ts[1..], s[1..], tail);
      SoundLit(ts, vs, s, tail);
    } else {
      var k := TryRunSound(ts[0].name, ts[1..], s, RunLen(s), tail);
      var vs' := MatchSound(ts[1..], s[k..], tail);
      vs := [s[..k]] + vs';
      SoundParam(ts, vs, k, s, tail);
    }
  }

  lemma SoundLit(ts: seq<Token>, vs: seq<string>, s: string, tail: Tail)
    requires ts != [] && ts[0].Lit? && |s| >= 1 && s[0] == ts[0].c
    requires Witness(ts[1..], vs, s[1..], tail)
    ensures Witness(ts, vs, s, tail)
    ensures Bind(ts, vs) == Bind(ts[1..], vs)
  {
    var f := Fill(ts[1..], vs);
    assert Fill(ts, vs) == [ts[0].c] + f;
    assert s[..|f| + 1] == [s[0]] + s[1..][..|f|];
    assert s[|f| + 1..] == s[1..][|f|..];
  }

  lemma SoundParam(ts: seq<Token>, vs: seq<string>, k: nat, s: string, tail: Tail)
    requires ts != [] && ts[0].Param? && 1 <= k && SlashFreePrefix(s, k)
    requires |vs| >= 1 && vs[0] == s[..k]
    requires Witness(ts[1..], vs[1..], s[k..], tail)
    ensures Witness(ts, vs, s, tail)
    ensures Bind(ts, vs) == Bind(ts[1..], vs[1..])[ts[0].name := s[..k]]
  {
    var f := Fill(ts[1..], vs[1..]);
    assert Fill(ts, vs) == s[..k] + f;
    PrefixJoin(s, k, f);
    GoodValuesCons(s[..k], vs[1..]);
    assert [s[..k]] + vs[1..] == vs;
  }

  /** A prefix of what follows position `k`, put after `s[..k]`, is a prefix of `s`. */
  lemma PrefixJoin(s: string, k: nat, f: string)
    requires k <= |s| && StartsWith(s[k..], f)
    ensures StartsWith(s, s[..k] + f) && s[|s[..k] + f|..] == s[k..][|f|..]
  {
    var g := s[k..];
    assert s[..k + |f|] == s[..k] + g[..|f|];
    assert s[k + |f|..] == g[|f|..];
  }

  lemma GoodValuesCons(v: string, vs: seq<string>)
    requires GoodValues(vs) && |v| >= 1
    requires forall i :: 0 <= i < |v| ==> v[i] != '/'
    ensures GoodValues([v] + vs)
  {
    assert GoodValue(v);
    assert forall i :: 1 <= i < |vs| + 1 ==> ([v] + vs)[i] == vs[i - 1];
  }

  lemma DistinctTail(a: seq<string>, b: seq<string>)
    requires Distinct(a + b)
    ensures Distinct(b)
    ensures forall i, j :: 0 <= i < |a| && 0 <= j < |b| ==> a[i] != b[j]
  {
    forall i, j | 0 <= i < |a| && 0 <= j < |b| ensures a[i] != b[j] {
      assert (a + b)[i] == a[i] && (a + b)[|a| + j] == b[j];
    }
    forall i, j | 0 <= i < j < |b| ensures b[i] != b[j] {
      assert (a + b)[|a| + i] == b[i] && (a + b)[|a| + j] == b[j];
    }
  }

  lemma {:induction false} TryRunFinds(name: string, rest: seq<Token>, s: string, k: nat, j: nat, tail: Tail)
    requires SlashFreePrefix(s, k)
    requires 1 <= j <= k
    requires Match(rest, s[j..], tail).Some?
    ensures TryRun(name, rest, s, k, tail).Some?
    decreases k
  {
    if k != j && Match(rest, s[k..], tail).None? {
      TryRunFinds(name, rest, s, k - 1, j, tail);
    }
  }

  lemma {:induction false} RunLenCovers(s: string, j: nat)
    requires SlashFreePrefix(s, j)
    ensures j <= RunLen(s)
  {
    if j > 0 {
      RunLenCovers(s[1..], j - 1);
    }
  }

  /** Whenever some choice of group values makes the pattern match, the matcher finds a match. */
  lemma {:induction false} MatchComplete(ts: seq<Token>, vs: seq<string>, s: string, tail: Tail)
    requires Witness(ts, vs, s, tail)
    ensures Match(ts, s, tail).Some?
    decreases |ts|
  {
    if ts != [] {
      match ts[0]
        case Lit(c) =>
          WitnessAfterLit(ts, vs, s, tail);
          MatchComplete(ts[1..], vs, s[1..], tail);
        case Param(name) =>
          var v := vs[0];
          WitnessAfterParam(ts, vs, s, tail);
          MatchComplete(ts[1..], vs[1..], s[|v|..], tail);
          RunLenCovers(s, |v|);
          TryRunFinds(name, ts[1..], s, RunLen(s), |v|, tail);
    }
  }

  /** A witness for a literal first token: the path starts with it, and the rest witnesses the rest. */
  lemma WitnessAfterLit(ts: seq<Token>, vs: seq<string>, s: string, tail: Tail)
    requires Witness(ts, vs, s, tail) && ts != [] && ts[0].Lit?
    ensures |s| >= 1 && s[0] == ts[0].c && Witness(ts[1..], vs, s[1..], tail)
  {
    var f := Fill(ts[1..], vs);
    assert Fill(ts, vs) == [ts[0].c] + f;
    assert s[1..][..|f|] == s[1..|f| + 1];
    assert s[1..][|f|..] == s[|f| + 1..];
  }

  /** A witness for a group first: its value is a `/`-free prefix, and the rest witnesses the rest. */
  lemma WitnessAfterParam(ts: seq<Token>, vs: seq<string>, s: string, tail: Tail)
    requires Witness(ts, vs, s, tail) && ts != [] && ts[0].Param?
    ensures |vs| >= 1 && 1 <= |vs[0]| && SlashFreePrefix(s, |vs[0]|)
    ensures Witness(ts[1..], vs[1..], s[|vs[0]|..], tail)
  {
    var v := vs[0];
    var f := Fill(ts[1..], vs[1..]);
    assert Fill(ts, vs) == v + f;
    assert s[..|v|] == v;
    assert GoodValue(v);
    forall i | 0 <= i < |v| ensures s[i] != '/' {
      assert s[i] == v[i];
    }
    assert s[|v|..][..|f|] == s[|v|..|v| + |f|];
    assert s[|v|..][|f|..] == s[|v| + |f|..];
    forall i | 0 <= i < |vs| - 1 ensures GoodValue(vs[1..][i]) {
      assert vs[1..][i] == vs[i + 1];
    }
  }

  /**
   * The matcher succeeds exactly when some choice of non-empty, `/`-free
   * group values spells out a prefix of the path that the tail accepts;
   * the groups it reports are then the values of one such choice.
   */
  lemma MatchIff(ts: seq<Token>, s: string, tail: Tail)
    ensures Match(ts, s, tail).Some? <==> exists vs :: Witness(ts, vs, s, tail)
    ensures Match(ts, s, tail).Some? ==>
              exists vs :: Witness(ts, vs, s, tail) && Match(ts, s, tail).value == Bind(ts, vs)
  {
    if Match(ts, s, tail).Some? {
      var vs := MatchSound(ts, s, tail);
    }
    if exists vs :: Witness(ts, vs, s, tail) {
      var vs :| Witness(ts, vs, s, tail);
      MatchComplete(ts, vs, s, tail);
    }
  }

  // ---------------------------------------------------------------------
  // Patterns without groups
  // ---------------------------------------------------------------------

  /** A brace-free pattern compiles to one literal per character. */
  function Lits(p: string): (ts: seq<Token>)
    ensures |ts| == |p| && Names(ts) == []
  {
    if p == [] then [] else [Lit(p[0])] + Lits(p[1..])
  }

  lemma {:induction false} CompileLiteral(p: string)
    requires '{' !in p && '}' !in p
    ensures Compile(p) == Some(Lits(p))
  {
    if p != [] {
      CompileLiteral(p[1..]);
    }
  }

  /** A literal pattern matches exactly the paths that start with it and whose remainder the tail accepts. */
  lemma {:induction false} MatchLiteral(p: string, s: string, tail: Tail)
    ensures Match(Lits(p), s, tail).Some? <==> StartsWith(s, p) && TailOk(tail, s[|p|..])
  {
    if p != [] && s != [] {
      MatchLiteral(p[1..], s[1..], tail);
      assert StartsWith(s, p) <==> s[0] == p[0] && StartsWith(s[1..], p[1..]);
      if |p| <= |s| {
        assert s[|p|..] == s[1..][|p| - 1..];
      }
    }
  }
}
