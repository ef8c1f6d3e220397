/**
 * The blog example's input validation (`utils/validation.py`): the e-mail,
 * user-name and password rules, the checks a post body goes through before
 * it is stored, and the upload checks.
 *
 * The two regular expressions are modelled twice: once as the shape the
 * pattern describes (an independent reference definition, including the
 * `$` anchor's acceptance of one final newline) and once as the direct
 * scan the model computes; lemmas prove the two agree.
 */
module BlogValidation {
  import opened Common
  import opened Text
  import opened OrderedDict
  import opened Values

  // ---------------------------------------------------------------------
  // validate_email
  // ---------------------------------------------------------------------

  /** `[a-zA-Z0-9._%+-]` */
  predicate IsLocalChar(c: char) {
    IsAsciiAlnum(c) || c == '.' || c == '_' || c == '%' || c == '+' || c == '-'
  }

  /** `[a-zA-Z0-9.-]` */
  predicate IsDomainChar(c: char) {
    IsAsciiAlnum(c) || c == '.' || c == '-'
  }

  /** `s` is `local@domain.tld` with the three parts drawn from the pattern's classes. */
  predicate EmailParts(s: string, local: string, domain: string, tld: string) {
    && s == local + "@" + domain + "." + tld
    && |local| >= 1 && AllChars(local, IsLocalChar)
    && |domain| >= 1 && AllChars(domain, IsDomainChar)
    && |tld| >= 2 && AllChars(tld, IsAsciiLetter)
  }

  ghost predicate EmailShape(s: string) {
    exists local, domain, tld :: EmailParts(s, local, domain, tld)
  }

  /**
   * What `re.match(r"^[a-zA-Z0-9._%+-]+@[a-zA-Z0-9.-]+\.[a-zA-Z]{2,}$", e)`
   * accepts: the shape, either alone or followed by one newline, which
   * `$` lets through.
   */
  ghost predicate EmailRegex(e: string) {
    EmailShape(e) || (|e| >= 1 && e[|e| - 1] == '\n' && EmailShape(e[..|e| - 1]))
  }

  /** Drop one final newline, the only suffix `$` tolerates. */
  function DropFinalNewline(s: string): (r: string)
    ensures s == r || s == r + "\n"
  {
    if |s| >= 1 && s[|s| - 1] == '\n' then s[..|s| - 1] else s
  }

  /**
   * The scan: the local part runs to the first `@`, the top-level domain
   * starts after the last `.` of the rest.
   */
  predicate ShapeScan(s: string) {
    && '@' in s
    && var at := IndexOf(s, '@');
       at >= 1 && AllChars(s[..at], IsLocalChar) && DomainScan(s[at + 1..])
  }

  /** The part after the `@`: the top-level domain starts after its last `.`. */
  predicate DomainScan(rest: string) {
    var dot := RFind(rest, '.');
    && dot >= 1 && |rest| - dot - 1 >= 2
    && AllChars(rest[..dot], IsDomainChar)
    && AllChars(rest[dot + 1..], IsAsciiLetter)
  }

  /** `validate_email(email)` */
  predicate ValidateEmail(e: string) {
    ShapeScan(DropFinalNewline(e))
  }

  /** Cutting a string at an `@` and a later `.` and gluing the pieces back gives it back. */
  lemma Reassembled(s: string, at: nat, dot: nat)
    requires at < |s| && s[at] == '@' && at + 1 + dot < |s| && s[at + 1 + dot] == '.'
    ensures s == s[..at] + "@" + s[at + 1..][..dot] + "." + s[at + 1..][dot + 1..]
  {
    var rest := s[at + 1..];
    assert rest == rest[..dot] + "." + rest[dot + 1..];
    assert s == s[..at] + "@" + rest;
  }

  lemma ScanGivesShape(s: string)
    requires ShapeScan(s)
    ensures EmailShape(s)
  {
    var at := IndexOf(s, '@');
    var rest := s[at + 1..];
    var dot := RFind(rest, '.');
    var local, domain, tld := s[..at], rest[..dot], rest[dot + 1..];
    assert |local| >= 1 && AllChars(local, IsLocalChar);
    assert |domain| >= 1 && AllChars(domain, IsDomainChar) && |tld| >= 2 && AllChars(tld, IsAsciiLetter) by {
      assert DomainScan(rest);
    }
    assert s == local + "@" + domain + "." + tld by {
      Reassembled(s, at, dot);
    }
    assert EmailParts(s, local, domain, tld);
  }

  lemma ShapeGivesScan(s: string, local: string, domain: string, tld: string)
    requires EmailParts(s, local, domain, tld)
    ensures ShapeScan(s)
  {
    var rest := domain + "." + tld;
    var at := |local|;
    assert s[at] == '@' && s[..at] == local && s[at + 1..] == rest by {
      assert s == local + "@" + rest;
    }
    assert '@' !in local by {
      NotAmong(local, IsLocalChar, '@');
    }
    IndexOfUnique(s, '@', at);
    DomainGivesScan(domain, tld);
  }

  lemma DomainGivesScan(domain: string, tld: string)
    requires |domain| >= 1 && AllChars(domain, IsDomainChar)
    requires |tld| >= 2 && AllChars(tld, IsAsciiLetter)
    ensures DomainScan(domain + "." + tld)
  {
    var rest := domain + "." + tld;
    assert rest[|domain|] == '.' && rest[..|domain|] == domain && rest[|domain| + 1..] == tld;
    assert '.' !in tld by {
      NotAmong(tld, IsAsciiLetter, '.');
    }
    RFindUnique(rest, '.', |domain|);
  }

  lemma NotAmong(s: string, p: char -> bool, c: char)
    requires AllChars(s, p) && !p(c)
    ensures c !in s
  {
  }

  /** The scan accepts exactly the strings of the pattern's shape. */
  lemma ShapeScanIff(s: string)
    ensures ShapeScan(s) <==> EmailShape(s)
  {
    if ShapeScan(s) {
      ScanGivesShape(s);
    }
    if EmailShape(s) {
      var local, domain, tld :| EmailParts(s, local, domain, tld);
      ShapeGivesScan(s, local, domain, tld);
    }
  }

  /** `validate_email` accepts exactly what the regular expression matches. */
  lemma ValidateEmailIff(e: string)
    ensures ValidateEmail(e) <==> EmailRegex(e)
  {
    var core := DropFinalNewline(e);
    ShapeScanIff(core);
    ShapeEndsInLetter(e);
    if |e| >= 1 && e[|e| - 1] == '\n' {
      assert core == e[..|e| - 1] && !EmailShape(e);
    } else {
      assert core == e;
    }
  }

  /** An address of the pattern's shape ends in a letter of its top-level domain. */
  lemma ShapeEndsInLetter(e: string)
    ensures EmailShape(e) ==> |e| >= 1 && IsAsciiLetter(e[|e| - 1])
  {
    if EmailShape(e) {
      var local, domain, tld :| EmailParts(e, local, domain, tld);
      assert e[|e| - 1] == tld[|tld| - 1];
    }
  }

  /** A well-formed address followed by a newline is accepted too. */
  lemma EmailTrailingNewline(e: string)
    requires EmailShape(e)
    ensures ValidateEmail(e + "\n")
  {
    assert (e + "\n")[..|e|] == e;
    ValidateEmailIff(e + "\n");
  }

  // ---------------------------------------------------------------------
  // validate_username
  // ---------------------------------------------------------------------

  /** `[a-zA-Z0-9_]` */
  predicate IsWordChar(c: char) { IsAsciiAlnum(c) || c == '_' }

  /** `validate_username(username)`: 3 to 30 characters, then `^[a-zA-Z0-9_]+$`. */
  predicate ValidateUsername(u: string) {
    var core := DropFinalNewline(u);
    3 <= |u| <= 30 && core != [] && AllChars(core, IsWordChar)
  }

  /**
   * A user name is accepted exactly when it is 3 to 30 characters long and
   * consists of word characters, save possibly one final newline.
   */
  lemma ValidateUsernameIff(u: string)
    ensures ValidateUsername(u) <==>
      3 <= |u| <= 30 &&
      ((u != [] && AllChars(u, IsWordChar)) ||
       (|u| >= 2 && u[|u| - 1] == '\n' && AllChars(u[..|u| - 1], IsWordChar)))
  {
    if u != [] && AllChars(u, IsWordChar) {
      assert IsWordChar(u[|u| - 1]);
    }
  }

  /** The `$` anchor lets a final newline through: `"abc\n"` is a valid user name. */
  lemma UsernameNewlineAccepted()
    ensures ValidateUsername("abc\n")
  {
    assert DropFinalNewline("abc\n") == "abc";
  }

  /** After `strip()` no newline is left, so an accepted name is all word characters. */
  lemma StrippedUsername(u: string)
    requires ValidateUsername(Strip(u))
    ensures AllChars(Strip(u), IsWordChar)
  {
    StripIsCore(u);
  }

  // ---------------------------------------------------------------------
  // validate_password
  // ---------------------------------------------------------------------

  const Specials := "!@#$%^&*()_+-=[]{}|;:,.<>?"

  predicate Has(p: string, cls: char -> bool) {
    exists i :: 0 <= i < |p| && cls(p[i])
  }

  predicate IsSpecial(c: char) { c in Specials }

  /** `validate_password(password)`: eight characters and one of each class. */
  predicate ValidatePassword(p: string) {
    |p| >= 8 && Has(p, IsAsciiUpper) && Has(p, IsAsciiLower) && Has(p, IsDigit) && Has(p, IsSpecial)
  }

  lemma HasExtended(p: string, q: string, r: string, cls: char -> bool)
    requires Has(p, cls)
    ensures Has(q + p + r, cls)
  {
    var i :| 0 <= i < |p| && cls(p[i]);
    assert (q + p + r)[|q| + i] == p[i];
  }

  /** Surrounding a strong password with more characters keeps it strong. */
  lemma PasswordExtended(p: string, q: string, r: string)
    requires ValidatePassword(p)
    ensures ValidatePassword(q + p + r)
  {
    HasExtended(p, q, r, IsAsciiUpper);
    HasExtended(p, q, r, IsAsciiLower);
    HasExtended(p, q, r, IsDigit);
    HasExtended(p, q, r, IsSpecial);
  }

  /**
   * What `for c in password` walks over, for a value that has a `len()`:
   * the one-character strings of a string, the items of a list or tuple,
   * the keys of a dict and the integers of a bytes value. `None` for a
   * value without a length, on which `len()` raises `TypeError`.
   */
  function Elements(v: Value): (r: Option<seq<Value>>)
    ensures r.None? <==> v.VNone? || v.VBool? || v.VInt? || v.VOther?
    ensures v.VStr? ==> r == Some(CharValues(v.s))
    ensures (v.VList? || v.VTuple?) ==> r == Some(v.items)
  {
    match v
      case VStr(t) => Some(CharValues(t))
      case VBytes(d) => Some(seq(|d|, i requires 0 <= i < |d| => VInt(d[i])))
      case VList(items) => Some(items)
      case VTuple(items) => Some(items)
      case VDict(es) => Some(seq(|es|, i requires 0 <= i < |es| => VStr(es[i].0)))
      case _ => None
  }

  /** The characters of a string, each as a one-character string. */
  function CharValues(t: string): (r: seq<Value>)
    ensures |r| == |t|
    ensures forall i :: 0 <= i < |t| ==> r[i] == VStr([t[i]])
  {
    if t == [] then [] else [VStr([t[0]])] + CharValues(t[1..])
  }

  /**
   * `any(test(c) for c in elements)`: it stops at the first element that
   * passes, and raises `err` on an element that is not a string before that.
   */
  function AnyStr(es: seq<Value>, test: string -> bool, err: string): (r: Result<bool, Problem>)
    ensures (forall k :: 0 <= k < |es| ==> es[k].VStr?) ==> r.Ok?
    ensures r.Ok? ==> (r.value <==> exists k :: 0 <= k < |es| && es[k].VStr? && test(es[k].s))
    ensures r.Err? ==> r.error == Crash(err)
  {
    if es == [] then Ok(false)
    else if !es[0].VStr? then Err(Crash(err))
    else if test(es[0].s) then Ok(true)
    else
      var r := AnyStr(es[1..], test, err);
      assert forall k :: 1 <= k < |es| ==> es[k] == es[1..][k - 1];
      r
  }

  /** `str.isupper()` (ASCII): some upper-case letter and no lower-case one. */
  predicate StrIsUpper(t: string) { Has(t, IsAsciiUpper) && !Has(t, IsAsciiLower) }

  /** `str.islower()` (ASCII): some lower-case letter and no upper-case one. */
  predicate StrIsLower(t: string) { Has(t, IsAsciiLower) && !Has(t, IsAsciiUpper) }

  /** `str.isdigit()` (ASCII): non-empty and digits only. */
  predicate StrIsDigit(t: string) { t != [] && AllChars(t, IsDigit) }

  /** `c in "!@#$..."`: a substring test, true of the empty string. */
  predicate InSpecials(t: string) { ContainsSub(Specials, t) }

  /**
   * `validate_password(password)` on whatever value the body holds. The
   * `len()` test comes first, so a list or dict shorter than eight is
   * refused like a short string; a value without a length raises
   * `TypeError`; each class test raises once it reaches an element that
   * is not a string, unless an earlier element already passed it.
   */
  function PasswordCheck(v: Value): (r: Result<bool, Problem>)
    ensures Elements(v).None? ==> r == Err(Crash("TypeError"))
    ensures Elements(v).Some? && |Elements(v).value| < 8 ==> r == Ok(false)
    ensures Elements(v).Some? && (forall k :: 0 <= k < |Elements(v).value| ==> Elements(v).value[k].VStr?) ==> r.Ok?
  {
    match Elements(v)
      case None => Err(Crash("TypeError"))
      case Some(es) =>
        if |es| < 8 then Ok(false)
        else
          var upper, lower := AnyStr(es, StrIsUpper, "AttributeError"), AnyStr(es, StrIsLower, "AttributeError");
          var digit, special := AnyStr(es, StrIsDigit, "AttributeError"), AnyStr(es, InSpecials, "TypeError");
          if upper.Err? then upper
          else if lower.Err? then lower
          else if digit.Err? then digit
          else if special.Err? then special
          else Ok(upper.value && lower.value && digit.value && special.value)
  }

  /** On a string, the check is `ValidatePassword`. */
  lemma PasswordCheckOfString(t: string)
    ensures PasswordCheck(VStr(t)) == Ok(ValidatePassword(t))
  {
    var es := CharValues(t);
    assert Elements(VStr(t)) == Some(es);
    if |t| >= 8 {
      ClassTestsOnString(t);
    }
  }

  /** `PasswordCheckOfString`, stated for any value. */
  lemma PasswordCheckOfValue(v: Value)
    ensures v.VStr? ==> PasswordCheck(v) == Ok(ValidatePassword(v.s))
  {
    if v.VStr? {
      PasswordCheckOfString(v.s);
    }
  }

  /** The four class tests over the characters of a string. */
  lemma ClassTestsOnString(t: string)
    ensures AnyStr(CharValues(t), StrIsUpper, "AttributeError") == Ok(Has(t, IsAsciiUpper))
    ensures AnyStr(CharValues(t), StrIsLower, "AttributeError") == Ok(Has(t, IsAsciiLower))
    ensures AnyStr(CharValues(t), StrIsDigit, "AttributeError") == Ok(Has(t, IsDigit))
    ensures AnyStr(CharValues(t), InSpecials, "TypeError") == Ok(Has(t, IsSpecial))
  {
    CaseTestsOnChars();
    DigitTestsOnChars();
    AnyOfChars(t, StrIsUpper, IsAsciiUpper, "AttributeError");
    AnyOfChars(t, StrIsLower, IsAsciiLower, "AttributeError");
    AnyOfChars(t, StrIsDigit, IsDigit, "AttributeError");
    AnyOfChars(t, InSpecials, IsSpecial, "TypeError");
  }

  /** On one character, the string case tests are the character classes. */
  lemma CaseTestsOnChars()
    ensures forall c: char :: StrIsUpper([c]) == IsAsciiUpper(c)
    ensures forall c: char :: StrIsLower([c]) == IsAsciiLower(c)
  {
    forall c: char ensures StrIsUpper([c]) == IsAsciiUpper(c) && StrIsLower([c]) == IsAsciiLower(c) {
      OneCharHas([c], IsAsciiUpper);
      OneCharHas([c], IsAsciiLower);
    }
  }

  /** On one character, `isdigit` and the substring test are the character classes. */
  lemma DigitTestsOnChars()
    ensures forall c: char :: StrIsDigit([c]) == IsDigit(c)
    ensures forall c: char :: InSpecials([c]) == IsSpecial(c)
  {
    forall c: char ensures StrIsDigit([c]) == IsDigit(c) && InSpecials([c]) == IsSpecial(c) {
      assert [c][0] == c;
      OneCharSub(Specials, c);
    }
  }

  lemma OneCharHas(t: string, cls: char -> bool)
    requires |t| == 1
    ensures Has(t, cls) == cls(t[0])
  {
  }

  lemma OneCharSub(t: string, c: char)
    ensures ContainsSub(t, [c]) <==> c in t
  {
    if c in t {
      var i :| 0 <= i < |t| && t[i] == c;
      assert OccursAt(t, [c], i);
    }
    if ContainsSub(t, [c]) {
      var i :| 0 <= i <= |t| - 1 && OccursAt(t, [c], i);
      assert t[i] == t[i..i + 1][0];
    }
  }

  /** A class test over the characters of a string answers whether some character is of the class. */
  lemma AnyOfChars(t: string, test: string -> bool, cls: char -> bool, err: string)
    requires forall c: char :: test([c]) == cls(c)
    ensures AnyStr(CharValues(t), test, err) == Ok(Has(t, cls))
  {
    var es := CharValues(t);
    assert forall k :: 0 <= k < |es| ==> es[k].VStr? && es[k].s == [t[k]];
    assert Has(t, cls) <==> exists k :: 0 <= k < |es| && es[k].VStr? && test(es[k].s);
  }

  // ---------------------------------------------------------------------
  // validate_post_data
  // ---------------------------------------------------------------------

  /** What `validate_post_data` returns. */
  datatype PostData = PostData(
    title: string, content: string, summary: string,
    category: string, tags: seq<string>, status: string)

  /**
   * How a blog operation fails: a `ValidationError` naming a field, one
   * naming none, an `AuthenticationError`, or a Python exception the code
   * does not catch (by its class name).
   */
  datatype Problem =
    | Invalid(field: string, message: string)
    | Rejected(message: string)
    | Denied(message: string)
    | Crash(kind: string)

  const Categories := ["Technology", "Lifestyle", "Travel", "Food", "Health",
                       "Business", "Announcements", "General"]

  /** `", ".join(categories)`, written out. */
  const CategoryChoices := "Technology, Lifestyle, Travel, Food, Health, Business, Announcements, General"

  const Statuses := ["draft", "published"]

  /** `d.get(k, default)` on a JSON object. */
  function Field(d: seq<(string, Value)>, k: string, default: Value): (r: Value)
    ensures k !in Keys(d) ==> r == default
    ensures k in Keys(d) ==> (k, r) in d
  {
    match Get(d, k)
      case Some(v) => v
      case None => default
  }

  /**
   * `key in data` followed by `data[key]` on a parsed JSON body: `Ok(None)`
   * when the key is absent, `Ok(Some(v))` for an object holding it, and
   * `TypeError` where `in` or the indexing raises (a number, `null`, or a
   * list or string that contains the key).
   */
  function Read(data: Value, key: string): (r: Result<Option<Value>, Problem>)
    ensures data.VDict? ==> r.Ok?
    ensures data.VDict? ==> (r.value.Some? <==> key in Keys(data.entries))
    ensures r.Ok? && r.value.Some? ==> data.VDict? && (key, r.value.value) in data.entries
  {
    match data
      case VDict(es) =>
        (match Get(es, key)
          case Some(v) => Ok(Some(v))
          case None => Ok(None))
      case VList(xs) => if VStr(key) in xs then Err(Crash("TypeError")) else Ok(None)
      case VTuple(xs) => if VStr(key) in xs then Err(Crash("TypeError")) else Ok(None)
      case VStr(text) => if ContainsSub(text, key) then Err(Crash("TypeError")) else Ok(None)
      case _ => Err(Crash("TypeError"))
  }

  /** On an object holding the key, `Read` answers its value. */
  lemma ReadPresent(es: seq<(string, Value)>, key: string, v: Value)
    requires Get(es, key) == Some(v)
    ensures Read(VDict(es), key) == Ok(Some(v))
  { }

  /** The text a body sends under `key`, when it holds a string there. */
  function SentText(data: Value, key: string): Option<string> {
    match Read(data, key)
      case Ok(Some(VStr(t))) => Some(t)
      case _ => None
  }

  /** `data.get(key, default)` on a parsed JSON body; only an object has `.get`. */
  function GetField(data: Value, key: string, default: Value): (r: Result<Value, Problem>)
    ensures r.Ok? <==> data.VDict?
    ensures r.Ok? ==> r.value == Field(data.entries, key, default)
  {
    if data.VDict? then Ok(Field(data.entries, key, default)) else Err(Crash("AttributeError"))
  }

  /**
   * The loop over the tags: every tag must be a string that is not blank
   * and whose length before stripping is at most 30. Answers the texts.
   */
  function CheckTags(items: seq<Value>): (r: Result<seq<string>, string>)
    ensures r.Ok? ==> AsValues(r.value) == items
  {
    if items == [] then Ok([])
    else
      var t := items[0];
      if !TagOk(t) then
        Err(if !t.VStr? || Strip(t.s) == [] then "Tags must be non-empty strings"
            else "Each tag must be less than 30 characters")
      else match CheckTags(items[1..])
        case Err(m) => Err(m)
        case Ok(rest) =>
          AsValuesCons(t.s, rest);
          assert items == [t] + items[1..];
          Ok([t.s] + rest)
  }

  /** The loop passes exactly when every tag is acceptable. */
  lemma {:induction false} CheckTagsPassesIff(items: seq<Value>)
    ensures CheckTags(items).Ok? <==> forall k :: 0 <= k < |items| ==> TagOk(items[k])
  {
    if items != [] {
      AllTagsOkCons(items);
      CheckTagsPassesIff(items[1..]);
    }
  }

  lemma AllTagsOkCons(items: seq<Value>)
    requires items != []
    ensures (forall k :: 0 <= k < |items| ==> TagOk(items[k])) <==>
              TagOk(items[0]) && forall k :: 0 <= k < |items[1..]| ==> TagOk(items[1..][k])
  {
    if TagOk(items[0]) && forall k :: 0 <= k < |items[1..]| ==> TagOk(items[1..][k]) {
      forall k | 1 <= k < |items| ensures TagOk(items[k]) {
        assert items[k] == items[1..][k - 1];
      }
    }
  }

  lemma AsValuesCons(x: string, rest: seq<string>)
    ensures AsValues([x] + rest) == [VStr(x)] + AsValues(rest)
  {
    assert ([x] + rest)[1..] == rest;
  }

  /** A tag the loop lets through: a string, not blank, at most 30 characters as sent. */
  predicate TagOk(v: Value) {
    v.VStr? && Strip(v.s) != [] && |v.s| <= 30
  }

  /** A stored tag: not blank and already stripped. */
  predicate CleanTag(t: string) { t != [] && Strip(t) == t }

  /** `[tag.strip() for tag in tags if tag.strip()]` */
  function CleanTags(tags: seq<string>): (r: seq<string>)
    ensures |r| <= |tags|
    ensures forall k :: 0 <= k < |r| ==> CleanTag(r[k])
  {
    if tags == [] then []
    else
      var t := Strip(tags[0]);
      var rest := CleanTags(tags[1..]);
      if t == [] then rest
      else
        StripIdempotent(tags[0]);
        assert CleanTag(t);
        [t] + rest
  }

  /** Tags that are already clean are kept as they are. */
  lemma {:induction false} CleanTagsKeeps(tags: seq<string>)
    requires forall k :: 0 <= k < |tags| ==> CleanTag(tags[k])
    ensures CleanTags(tags) == tags
  {
    if tags != [] {
      CleanTagsKeeps(tags[1..]);
      assert CleanTag(tags[0]);
    }
  }

  /** Stripping never lengthens a tag, so the 30-character bound survives it. */
  lemma {:induction false} CleanTagsBounded(tags: seq<string>)
    requires forall k :: 0 <= k < |tags| ==> |tags[k]| <= 30
    ensures forall k :: 0 <= k < |CleanTags(tags)| ==> |CleanTags(tags)[k]| <= 30
  {
    if tags != [] {
      CleanTagsBounded(tags[1..]);
      assert |Strip(tags[0])| <= |tags[0]|;
    }
  }

  /** `validate_post_data(data)`: read the fields, strip the three texts, then check. */
  function ValidatePostData(data: Value): (r: Result<PostData, Problem>)
  {
    if !data.VDict? then Err(Crash("AttributeError"))
    else
      var d := data.entries;
      var rawTitle := Field(d, "title", VStr(""));
      var rawContent := Field(d, "content", VStr(""));
      var rawSummary := Field(d, "summary", VStr(""));
      if !rawTitle.VStr? || !rawContent.VStr? || !rawSummary.VStr? then Err(Crash("AttributeError"))
      else CheckPost(Strip(rawTitle.s), Strip(rawContent.s), Strip(rawSummary.s),
                     Field(d, "category", VStr("General")), Field(d, "tags", VList([])),
                     Field(d, "status", VStr("draft")))
  }

  /** The checks of `validate_post_data`, in the order it makes them, on the stripped texts. */
  function CheckPost(title: string, content: string, summary: string,
                     category: Value, tags: Value, status: Value): (r: Result<PostData, Problem>)
    ensures r.Ok? ==> r.value.title == title && r.value.content == content && r.value.summary == summary
    ensures r.Ok? ==> VStr(r.value.category) == category && VStr(r.value.status) == status
    ensures r.Ok? ==> tags.VList? && CheckTags(tags.items).Ok? &&
                      r.value.tags == CleanTags(CheckTags(tags.items).value)
  {
    if title == [] then Err(Invalid("title", "Title is required"))
    else if |title| > 200 then Err(Invalid("title", "Title must be less than 200 characters"))
    else if content == [] then Err(Invalid("content", "Content is required"))
    else if |content| > 50000 then Err(Invalid("content", "Content must be less than 50,000 characters"))
    else if summary != [] && |summary| > 500 then Err(Invalid("summary", "Summary must be less than 500 characters"))
    else if !(category.VStr? && category.s in Categories) then
      Err(Invalid("category", "Category must be one of: " + CategoryChoices))
    else if !tags.VList? then Err(Invalid("tags", "Tags must be an array"))
    else if |tags.items| > 10 then Err(Invalid("tags", "Maximum 10 tags allowed"))
    else match CheckTags(tags.items)
      case Err(m) => Err(Invalid("tags", m))
      case Ok(texts) =>
        if !(status.VStr? && status.s in Statuses) then
          Err(Invalid("status", "Status must be 'draft' or 'published'"))
        else Ok(PostData(title, content, summary, category.s, CleanTags(texts), status.s))
  }

  /** The stored form of a validated post body: every field within its bounds. */
  predicate CleanPost(p: PostData) {
    && 1 <= |p.title| <= 200 && Strip(p.title) == p.title
    && 1 <= |p.content| <= 50000 && Strip(p.content) == p.content
    && |p.summary| <= 500 && Strip(p.summary) == p.summary
    && p.category in Categories
    && |p.tags| <= 10
    && (forall k :: 0 <= k < |p.tags| ==> CleanTag(p.tags[k]) && |p.tags[k]| <= 30)
    && p.status in Statuses
  }

  /** The checks let through exactly the bodies within every bound. */
  lemma CheckPostIff(title: string, content: string, summary: string, category: Value, tags: Value, status: Value)
    ensures CheckPost(title, content, summary, category, tags, status).Ok? <==>
      && 1 <= |title| <= 200 && 1 <= |content| <= 50000 && |summary| <= 500
      && category.VStr? && category.s in Categories
      && tags.VList? && |tags.items| <= 10 && (forall k :: 0 <= k < |tags.items| ==> TagOk(tags.items[k]))
      && status.VStr? && status.s in Statuses
  {
    CheckPostPasses(title, content, summary, category, tags, status);
    if tags.VList? {
      CheckTagsPassesIff(tags.items);
    }
  }

  lemma CheckPostPasses(title: string, content: string, summary: string, category: Value, tags: Value, status: Value)
    ensures CheckPost(title, content, summary, category, tags, status).Ok? <==>
      && 1 <= |title| <= 200 && 1 <= |content| <= 50000 && |summary| <= 500
      && category.VStr? && category.s in Categories
      && tags.VList? && |tags.items| <= 10 && CheckTags(tags.items).Ok?
      && status.VStr? && status.s in Statuses
  {
  }

  /** What the checks let through on stripped texts is stored within every bound, with its tags cleaned. */
  lemma CheckPostClean(title: string, content: string, summary: string, category: Value, tags: Value, status: Value)
    requires Strip(title) == title && Strip(content) == content && Strip(summary) == summary
    requires CheckPost(title, content, summary, category, tags, status).Ok?
    ensures CleanPost(CheckPost(title, content, summary, category, tags, status).value)
  {
    var texts := CheckTags(tags.items).value;
    assert forall k :: 0 <= k < |texts| ==> |texts[k]| <= 30 by {
      CheckTagsPassesIff(tags.items);
      assert forall k :: 0 <= k < |texts| ==> tags.items[k] == VStr(texts[k]);
    }
    CheckPostIff(title, content, summary, category, tags, status);
    CleanTagsBounded(texts);
  }

  /** The stored tags are the sent ones, stripped, one for one. */
  lemma CheckedTagsKept(title: string, content: string, summary: string, category: Value, tags: Value, status: Value)
    requires CheckPost(title, content, summary, category, tags, status).Ok?
    ensures tags.VList?
    ensures var stored := CheckPost(title, content, summary, category, tags, status).value.tags;
      |stored| == |tags.items| && forall k :: 0 <= k < |stored| ==> stored[k] == Strip(tags.items[k].s)
  {
    var texts := CheckTags(tags.items).value;
    assert forall k :: 0 <= k < |texts| ==> tags.items[k] == VStr(texts[k]) && TagOk(tags.items[k]) by {
      CheckTagsPassesIff(tags.items);
      assert AsValues(texts) == tags.items;
    }
    CleanTagsAllKept(texts);
  }

  /** When no tag is blank, cleaning keeps one stripped entry per tag. */
  lemma {:induction false} CleanTagsAllKept(tags: seq<string>)
    requires forall k :: 0 <= k < |tags| ==> Strip(tags[k]) != []
    ensures |CleanTags(tags)| == |tags|
    ensures forall k :: 0 <= k < |tags| ==> CleanTags(tags)[k] == Strip(tags[k])
  {
    if tags != [] {
      CleanTagsAllKept(tags[1..]);
      assert CleanTags(tags) == [Strip(tags[0])] + CleanTags(tags[1..]);
    }
  }

  /** Whatever validation lets through is within every bound it checks. */
  lemma ValidatedIsClean(data: Value)
    requires ValidatePostData(data).Ok?
    ensures CleanPost(ValidatePostData(data).value)
  {
    var d := data.entries;
    var t, c, s := Field(d, "title", VStr("")).s, Field(d, "content", VStr("")).s, Field(d, "summary", VStr("")).s;
    StripIdempotent(t);
    StripIdempotent(c);
    StripIdempotent(s);
    CheckPostClean(Strip(t), Strip(c), Strip(s), Field(d, "category", VStr("General")),
                   Field(d, "tags", VList([])), Field(d, "status", VStr("draft")));
  }

  /** An object carrying the fields of a validated body, as strings and a list of strings. */
  predicate Carries(d: seq<(string, Value)>, p: PostData) {
    && Get(d, "title") == Some(VStr(p.title))
    && Get(d, "content") == Some(VStr(p.content))
    && Get(d, "summary") == Some(VStr(p.summary))
    && Get(d, "category") == Some(VStr(p.category))
    && Get(d, "tags") == Some(VList(AsValues(p.tags)))
    && Get(d, "status") == Some(VStr(p.status))
  }

  /** A list of strings as JSON values. */
  function AsValues(tags: seq<string>): (r: seq<Value>)
    ensures |r| == |tags|
    ensures forall k :: 0 <= k < |r| ==> r[k] == VStr(tags[k])
  {
    if tags == [] then [] else [VStr(tags[0])] + AsValues(tags[1..])
  }

  lemma AsValuesInjective(a: seq<string>, b: seq<string>)
    requires AsValues(a) == AsValues(b)
    ensures a == b
  {
    assert forall k :: 0 <= k < |a| ==> AsValues(a)[k] == VStr(a[k]) && AsValues(b)[k] == VStr(b[k]);
  }

  /** Clean tags sent as a list of strings pass the loop and come back as they were. */
  lemma TagsRoundTrip(tags: seq<string>)
    requires forall k :: 0 <= k < |tags| ==> CleanTag(tags[k]) && |tags[k]| <= 30
    ensures CheckTags(AsValues(tags)) == Ok(tags)
    ensures CleanTags(tags) == tags
  {
    var items := AsValues(tags);
    assert forall k :: 0 <= k < |items| ==> TagOk(items[k]);
    CheckTagsPassesIff(items);
    var r := CheckTags(items);
    AsValuesInjective(r.value, tags);
    CleanTagsKeeps(tags);
  }

  /** Validating what validation produced gives it back unchanged. */
  lemma RevalidateClean(d: seq<(string, Value)>, p: PostData)
    requires CleanPost(p) && Carries(d, p)
    ensures ValidatePostData(VDict(d)) == Ok(p)
  {
    var items := AsValues(p.tags);
    assert ValidatePostData(VDict(d)) ==
           CheckPost(p.title, p.content, p.summary, VStr(p.category), VList(items), VStr(p.status)) by {
      FieldsOfCarried(d, p);
    }
    RecheckClean(p);
  }

  lemma FieldsOfCarried(d: seq<(string, Value)>, p: PostData)
    requires Carries(d, p)
    ensures Field(d, "title", VStr("")) == VStr(p.title)
    ensures Field(d, "content", VStr("")) == VStr(p.content)
    ensures Field(d, "summary", VStr("")) == VStr(p.summary)
    ensures Field(d, "category", VStr("General")) == VStr(p.category)
    ensures Field(d, "tags", VList([])) == VList(AsValues(p.tags))
    ensures Field(d, "status", VStr("draft")) == VStr(p.status)
  {
  }

  lemma RecheckClean(p: PostData)
    requires CleanPost(p)
    ensures CheckPost(p.title, p.content, p.summary, VStr(p.category), VList(AsValues(p.tags)), VStr(p.status)) == Ok(p)
  {
    TagsRoundTrip(p.tags);
    CheckPostIff(p.title, p.content, p.summary, VStr(p.category), VList(AsValues(p.tags)), VStr(p.status));
  }

  /** Validation is idempotent: any object carrying its output validates to the same result. */
  lemma ValidatePostDataIdempotent(data: Value, d: seq<(string, Value)>)
    requires ValidatePostData(data).Ok? && Carries(d, ValidatePostData(data).value)
    ensures ValidatePostData(VDict(d)) == ValidatePostData(data)
  {
    ValidatedIsClean(data);
    RevalidateClean(d, ValidatePostData(data).value);
  }

  /**
   * The 30-character limit applies to the tag as sent, before stripping: a
   * short word padded with spaces past 30 characters is refused.
   */
  lemma PaddedTagRefused(word: string, pad: string)
    requires Strip(word) != [] && AllChars(pad, IsSpace) && |word + pad| > 30
    ensures CheckTags([VStr(word + pad)]) == Err("Each tag must be less than 30 characters")
    ensures Strip(word + pad) == Strip(word)
  {
    StripEmptyIff(word);
    PaddedStrip(word, pad);
  }

  lemma {:induction false} TrimRightPadded(x: string, pad: string)
    requires AllChars(pad, IsSpace)
    ensures TrimRight(x + pad) == TrimRight(x)
    decreases |pad|
  {
    if pad == [] {
      assert x + pad == x;
    } else {
      var shorter := pad[..|pad| - 1];
      assert (x + pad)[..|x + pad| - 1] == x + shorter;
      TrimRightPadded(x, shorter);
    }
  }

  lemma {:induction false} TrimLeftPadded(x: string, pad: string)
    requires !AllChars(x, IsSpace)
    ensures TrimLeft(x + pad) == TrimLeft(x) + pad
  {
    if IsSpace(x[0]) {
      assert (x + pad)[1..] == x[1..] + pad;
      TrimLeftPadded(x[1..], pad);
    }
  }

  /** Trailing whitespace after a non-blank text is stripped away. */
  lemma PaddedStrip(word: string, pad: string)
    requires !AllChars(word, IsSpace) && AllChars(pad, IsSpace)
    ensures Strip(word + pad) == Strip(word)
  {
    TrimLeftPadded(word, pad);
    TrimRightPadded(TrimLeft(word), pad);
  }

  // ---------------------------------------------------------------------
  // validate_file_upload
  // ---------------------------------------------------------------------

  /** What the upload check looks at: truthiness, `file.size` and `file.filename` where present. */
  datatype Upload = Upload(present: bool, size: Option<int>, filename: Option<string>)

  /** `filename.lower().split(".")[-1] if "." in filename else ""` */
  function Extension(name: string): (r: string)
    ensures '.' !in r
  {
    if '.' in name then
      var parts := SplitOn(Lower(name), '.');
      parts[|parts| - 1]
    else ""
  }

  lemma LowerAppend(a: string, b: string)
    ensures Lower(a + b) == Lower(a) + Lower(b)
  {
  }

  /** The extension is the lower-cased text after the last dot. */
  lemma ExtensionOf(stem: string, ext: string)
    requires '.' !in ext
    ensures Extension(stem + "." + ext) == Lower(ext)
  {
    LowerAppend(stem + ".", ext);
    LowerAppend(stem, ".");
    assert Lower(".") == ".";
    assert '.' !in Lower(ext) by {
      forall i | 0 <= i < |ext| ensures Lower(ext)[i] != '.' {
        assert ext[i] != '.';
      }
    }
    SplitOnAppend(Lower(stem), '.', Lower(ext));
    assert '.' in stem + "." + ext by {
      assert (stem + "." + ext)[|stem|] == '.';
    }
  }

  /** `validate_file_upload(file, allowed_extensions, max_size)`: the `ValidationError` message, if any. */
  function ValidateFileUpload(f: Upload, allowed: seq<string>, maxSize: int): (r: Option<string>)
  {
    if !f.present then Some("No file provided")
    else if f.size.Some? && f.size.value > maxSize then
      Some("File size must be less than " + IntToString(FloorDiv(maxSize, 1048576)) + "MB")
    else if allowed != [] then
      var name := if f.filename.Some? then f.filename.value else "";
      if name == [] then Some("Invalid filename")
      else if Extension(name) !in allowed then Some("File type must be one of: " + Join(allowed, ", "))
      else None
    else None
  }

  /** An upload passes exactly when it is present, small enough and, if a list is given, of a listed type. */
  lemma ValidateFileUploadIff(f: Upload, allowed: seq<string>, maxSize: int)
    ensures ValidateFileUpload(f, allowed, maxSize).None? <==>
      && f.present
      && (f.size.None? || f.size.value <= maxSize)
      && (allowed == [] || (f.filename.Some? && f.filename.value != [] && Extension(f.filename.value) in allowed))
  {
  }

  /** `photo.JPG` passes a list naming `jpg`: the extension is compared lower-cased. */
  lemma UploadExtensionCaseBlind(f: Upload, stem: string, ext: string, allowed: seq<string>, maxSize: int)
    requires f.present && f.size.None? && f.filename == Some(stem + "." + ext)
    requires '.' !in ext && Lower(ext) in allowed
    ensures ValidateFileUpload(f, allowed, maxSize).None?
  {
    ExtensionOf(stem, ext);
  }
}
