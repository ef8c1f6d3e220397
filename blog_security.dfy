/**
 * The blog example's security helpers (`utils/security.py`): password
 * hashing with a fixed salt, and the file-name cleaning applied to
 * uploads. SHA-256 is a parameter; JSON Web Tokens and the HTML cleaner
 * are not part of this module.
 */
module BlogSecurity {
  import opened Text
  import opened Values
  import opened Seqs

  // ---------------------------------------------------------------------
  // Passwords
  // ---------------------------------------------------------------------

  const Salt := "artanis_blog_salt"

  /** `hash_password(password)`: the hex SHA-256 digest of the UTF-8 bytes of password plus salt. */
  function HashPassword(sha256Hex: bytes -> string, password: string): string {
    sha256Hex(Utf8(password + Salt))
  }

  /** `verify_password(password, password_hash)` */
  predicate VerifyPassword(sha256Hex: bytes -> string, password: string, hash: string) {
    HashPassword(sha256Hex, password) == hash
  }

  /**
   * Two passwords with the same hash are indistinguishable to the check:
   * a stored hash accepts every password hashing to it and no other.
   */
  lemma VerifyIffSameHash(sha256Hex: bytes -> string, password: string, other: string)
    ensures VerifyPassword(sha256Hex, password, HashPassword(sha256Hex, other)) <==>
            sha256Hex(Utf8(password + Salt)) == sha256Hex(Utf8(other + Salt))
  {
  }

  // ---------------------------------------------------------------------
  // generate_secure_filename
  // ---------------------------------------------------------------------

  /** `[a-zA-Z0-9._-]` */
  predicate IsSafeChar(c: char) {
    IsAsciiAlnum(c) || c == '.' || c == '_' || c == '-'
  }

  /** A path component that `pathlib` keeps: neither empty nor `.`. */
  predicate Component(part: string) { part != "" && part != "." }

  /** `Path(s).name` for a POSIX path: its last kept component, or `""`. */
  function PathName(s: string): (r: string)
    ensures '/' !in r && r != "."
  {
    var split := SplitOn(s, '/');
    var parts := Filter(split, Component);
    if parts == [] then ""
    else
      var last := parts[|parts| - 1];
      FilterMeaning(split, Component);
      assert last in split;
      last
  }

  /** `re.sub(r"[^a-zA-Z0-9._-]", "_", s)` */
  function Sanitize(s: string): (r: string)
    ensures |r| == |s| && AllChars(r, IsSafeChar)
    ensures forall i :: 0 <= i < |s| ==> r[i] == Cleaned(s[i])
  {
    if s == [] then [] else [Cleaned(s[0])] + Sanitize(s[1..])
  }

  /** A safe character is kept, any other becomes `_`. */
  function Cleaned(c: char): (d: char)
    ensures IsSafeChar(d) && (d == c <==> IsSafeChar(c))
  {
    if IsSafeChar(c) then c else '_'
  }

  /** Where `Path.suffix` starts: the last `.`, unless it is the first or the last character. */
  function SuffixAt(n: string): (i: int)
    ensures i == -1 || (0 < i < |n| - 1 && n[i] == '.' && '.' !in n[i + 1..])
  {
    var i := RFind(n, '.');
    if 0 < i < |n| - 1 then i else -1
  }

  /** `Path(n).stem` */
  function Stem(n: string): string {
    var i := SuffixAt(n);
    if i == -1 then n else n[..i]
  }

  /** `Path(n).suffix` */
  function Suffix(n: string): (r: string)
    ensures r == [] || (|r| >= 2 && r[0] == '.' && '.' !in r[1..])
  {
    var i := SuffixAt(n);
    if i == -1 then "" else n[i..]
  }

  lemma StemSuffix(n: string)
    ensures Stem(n) + Suffix(n) == n
  {
  }

  /** `name[:50]` */
  function Truncated(name: string): (r: string)
    ensures |r| <= 50 && |r| <= |name| && r == name[..|r|]
    ensures |name| <= 50 ==> r == name
  {
    if |name| > 50 then name[..50] else name
  }

  /** `generate_secure_filename(filename)` */
  function SecureFilename(filename: string): (r: string)
    ensures AllChars(r, IsSafeChar)
  {
    var name := PathName(Sanitize(PathName(filename)));
    NameIsSafe(filename);
    Truncated(Stem(name)) + Suffix(name)
  }

  lemma NameIsSafe(filename: string)
    ensures AllChars(PathName(Sanitize(PathName(filename))), IsSafeChar)
  {
    var n := Sanitize(PathName(filename));
    PathNameOfPlain(n);
  }

  /** On a name without `/`, `Path(s).name` is the name itself, unless it is empty or `.`. */
  lemma PathNameOfPlain(s: string)
    requires '/' !in s
    ensures PathName(s) == if Component(s) then s else ""
  {
    assert SplitOn(s, '/') == [s];
    assert Filter([s], Component) == (if Component(s) then [s] else []) + Filter([s][1..], Component);
  }

  /** Directory components are dropped: only the last component survives. */
  lemma PathNameDropsDirectory(dir: string, name: string)
    requires '/' !in name && Component(name)
    ensures PathName(dir + "/" + name) == name
  {
    SplitOnAppend(dir, '/', name);
    FilterAppend(SplitOn(dir, '/'), [name], Component);
    assert Filter([name], Component) == [name] + Filter([name][1..], Component);
  }

  /** The cleaned name of `dir/name` is the cleaned name of `name`. */
  lemma SecureFilenameDropsDirectory(dir: string, name: string)
    requires '/' !in name && Component(name)
    ensures SecureFilename(dir + "/" + name) == SecureFilename(name)
  {
    PathNameDropsDirectory(dir, name);
    PathNameOfPlain(name);
  }

  /** Replacing characters keeps every `.` where it was and adds none. */
  lemma SanitizeKeepsDots(n: string)
    ensures SuffixAt(Sanitize(n)) == SuffixAt(n)
  {
    var m := Sanitize(n);
    var k := RFind(n, '.');
    if k >= 0 {
      assert '.' !in m[k + 1..] by {
        forall j | k + 1 <= j < |m| ensures m[j] != '.' {
          assert n[j] == n[k + 1..][j - k - 1];
        }
      }
      RFindUnique(m, '.', k);
    } else {
      assert '.' !in m by {
        forall j | 0 <= j < |m| ensures m[j] != '.' {
          assert n[j] != '.';
        }
      }
    }
  }

  /** Replacing characters one for one commutes with slicing. */
  lemma SanitizeSlices(n: string, i: nat)
    requires i <= |n|
    ensures Sanitize(n)[i..] == Sanitize(n[i..]) && Sanitize(n)[..i] == Sanitize(n[..i])
  {
    SanitizeDrop(n, i);
    SanitizeTake(n, i);
  }

  lemma SanitizeDrop(n: string, i: nat)
    requires i <= |n|
    ensures Sanitize(n)[i..] == Sanitize(n[i..])
  {
    var r, part := Sanitize(n), Sanitize(n[i..]);
    forall k | 0 <= k < |n| - i ensures r[i..][k] == part[k] {
      assert n[i..][k] == n[i + k];
    }
  }

  lemma SanitizeTake(n: string, i: nat)
    requires i <= |n|
    ensures Sanitize(n)[..i] == Sanitize(n[..i])
  {
    var r, part := Sanitize(n), Sanitize(n[..i]);
    forall k | 0 <= k < i ensures r[..i][k] == part[k] {
      assert n[..i][k] == n[k];
    }
  }

  /**
   * The result is the cleaned stem of the file's own name cut to 50
   * characters, followed by its cleaned suffix unchanged.
   */
  lemma SecureFilenameShape(filename: string)
    ensures Component(PathName(filename)) ==>
      SecureFilename(filename) == Truncated(Sanitize(Stem(PathName(filename)))) + Sanitize(Suffix(PathName(filename)))
    ensures !Component(PathName(filename)) ==> SecureFilename(filename) == ""
  {
    var n := PathName(filename);
    var clean := Sanitize(n);
    PathNameOfPlain(clean);
    SanitizeKeepsDots(n);
    var i := SuffixAt(n);
    if i != -1 {
      SanitizeSlices(n, i);
    }
    if Component(n) {
      assert clean != "." by {
        if |n| == 1 { assert n[0] != '.'; }
      }
      assert clean != "";
    }
  }

  /** A name that is already safe, with a stem of at most 50 characters, is returned unchanged. */
  lemma SafeNameUnchanged(filename: string)
    requires AllChars(filename, IsSafeChar) && Component(filename) && |Stem(filename)| <= 50
    ensures SecureFilename(filename) == filename
  {
    assert '/' !in filename by {
      NoSlash(filename);
    }
    PathNameOfPlain(filename);
    assert Sanitize(filename) == filename;
    StemSuffix(filename);
  }

  lemma NoSlash(s: string)
    requires AllChars(s, IsSafeChar)
    ensures '/' !in s
  {
  }

  /** Cleaning a cleaned name changes nothing. */
  lemma SecureFilenameIdempotent(filename: string)
    ensures SecureFilename(SecureFilename(filename)) == SecureFilename(filename)
  {
    var r := SecureFilename(filename);
    var name := PathName(Sanitize(PathName(filename)));
    NameIsSafe(filename);
    var stem, ext := Truncated(Stem(name)), Suffix(name);
    if r == "" {
      assert PathName("") == "" by { PathNameOfPlain(""); }
    } else {
      assert Component(r) && |Stem(r)| <= 50 by {
        OutputStem(name);
      }
      SafeNameUnchanged(r);
    }
  }

  /** The cleaned output is a kept component whose own stem is at most 50 characters. */
  lemma OutputStem(name: string)
    requires AllChars(name, IsSafeChar) && name != "."
    requires Truncated(Stem(name)) + Suffix(name) != ""
    ensures var r := Truncated(Stem(name)) + Suffix(name);
      Component(r) && |Stem(r)| <= 50
  {
    var stem, ext := Truncated(Stem(name)), Suffix(name);
    var r := stem + ext;
    var i := SuffixAt(name);
    if i == -1 {
      assert r == stem;
      assert r != "." by {
        if |name| > 50 { assert |r| == 50; }
      }
    } else {
      assert |stem| >= 1;
      assert r[|stem|] == '.' && r[|stem| + 1..] == ext[1..];
      RFindUnique(r, '.', |stem|);
      assert r[..|stem|] == stem;
    }
  }
}
