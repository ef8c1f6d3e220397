/**
 * The blog example's authentication routes (`routes/auth.py`): the user
 * store with its id counter and token blacklist, registration, login,
 * logout, token refresh, profile and password changes, and the counts
 * the statistics route reports.
 *
 * SHA-256, token issuing and token decoding are parameters. The signed-in
 * user (`request.current_user`) is a record passed in and handed back, as
 * the route changes that record and not the store.
 */
module BlogAuth {
  import opened Common
  import opened Text
  import opened OrderedDict
  import opened Values
  import opened Seqs
  import opened BlogValidation
  import opened BlogSecurity
  import opened RequestHeaders

  /** One stored user (`UserDict`). */
  datatype User = User(
    id: int, username: string, email: string, passwordHash: string, fullName: string,
    isActive: bool, isAdmin: bool, createdAt: string)

  /** The user as the routes answer it: every field but the password hash. */
  datatype Profile = Profile(
    id: int, username: string, email: string, fullName: string,
    isActive: bool, isAdmin: bool, createdAt: string)

  /** `{k: v for k, v in user.items() if k != "password_hash"}` */
  function ProfileOf(u: User): Profile {
    Profile(u.id, u.username, u.email, u.fullName, u.isActive, u.isAdmin, u.createdAt)
  }

  /** The seed user, whose hash is that of `"admin123"`. */
  function Admin(sha256Hex: bytes -> string): User {
    User(1, "admin", "admin@example.com", HashPassword(sha256Hex, "admin123"), "Administrator",
         true, true, "2024-01-01T00:00:00Z")
  }

  // ---------------------------------------------------------------------
  // register
  // ---------------------------------------------------------------------

  /** What a registration body yields once read and checked. */
  datatype Signup = Signup(username: string, email: string, password: string, fullName: string)

  const UsernameRule := "Username must be 3-30 characters, letters, numbers, and underscores only"
  const PasswordRule := "Password must be at least 8 characters with uppercase, lowercase, number, and special character"

  predicate UsernameTaken(users: seq<User>, username: string) {
    exists k :: 0 <= k < |users| && users[k].username == username
  }

  predicate EmailTaken(users: seq<User>, email: string) {
    exists k :: 0 <= k < |users| && users[k].email == email
  }

  /** The four fields of a registration body after `.strip()` (and `.lower()` for the e-mail). */
  datatype SignupForm = SignupForm(username: string, email: string, password: Value, fullName: string)

  /** The reading part of `register`: a text field that is not a string has no `.strip()`. */
  function ReadSignup(data: Value): (r: Result<SignupForm, Problem>)
    ensures r.Err? <==>
      || !data.VDict?
      || !Field(data.entries, "username", VStr("")).VStr? || !Field(data.entries, "email", VStr("")).VStr?
      || !Field(data.entries, "full_name", VStr("")).VStr?
    ensures r.Err? ==> r.error == Crash("AttributeError")
    ensures r.Ok? ==> Strip(r.value.username) == r.value.username && Strip(r.value.fullName) == r.value.fullName
  {
    if !data.VDict? then Err(Crash("AttributeError"))
    else
      var d := data.entries;
      var rawName := Field(d, "username", VStr(""));
      var rawEmail := Field(d, "email", VStr(""));
      var password := Field(d, "password", VStr(""));
      var rawFull := Field(d, "full_name", VStr(""));
      if !rawName.VStr? || !rawEmail.VStr? || !rawFull.VStr? then Err(Crash("AttributeError"))
      else
        StripIdempotent(rawName.s);
        StripIdempotent(rawFull.s);
        Ok(SignupForm(Strip(rawName.s), Lower(Strip(rawEmail.s)), password, Strip(rawFull.s)))
  }

  /** Every check of `register` passes on these (already read) fields. */
  predicate SignupAccepted(users: seq<User>, username: string, email: string, password: string, fullName: string) {
    && username != [] && ValidateUsername(username) && email != [] && ValidateEmail(email)
    && password != [] && ValidatePassword(password) && fullName != []
    && !UsernameTaken(users, username) && !EmailTaken(users, email)
  }

  /**
   * The password step of `register` and `change_password`: nothing when
   * `validate_password` passes, else the rule's message under `field`, or
   * the exception the check raised.
   */
  function PasswordProblem(v: Value, field: string): (r: Option<Problem>)
    ensures v.VStr? ==> (r.None? <==> ValidatePassword(v.s))
    ensures r.Some? && r.value.Invalid? ==> r.value == Invalid(field, PasswordRule)
  {
    PasswordCheckOfValue(v);
    match PasswordCheck(v)
      case Err(e) => Some(e)
      case Ok(strong) => if strong then None else Some(Invalid(field, PasswordRule))
  }

  /** The checks of `register`, in its order, each with its own message. */
  function CheckForm(users: seq<User>, f: SignupForm): (r: Result<Signup, Problem>)
    ensures r.Ok? <==> f.password.VStr? && SignupAccepted(users, f.username, f.email, f.password.s, f.fullName)
    ensures r.Ok? ==> r.value == Signup(f.username, f.email, f.password.s, f.fullName)
  {
    if f.username == [] then Err(Invalid("username", "Username is required"))
    else if !ValidateUsername(f.username) then Err(Invalid("username", UsernameRule))
    else if f.email == [] then Err(Invalid("email", "Email is required"))
    else if !ValidateEmail(f.email) then Err(Invalid("email", "Invalid email format"))
    else if !Truthy(f.password) then Err(Invalid("password", "Password is required"))
    else
      var problem := PasswordProblem(f.password, "password");
      if problem.Some? then Err(problem.value)
      else if f.fullName == [] then Err(Invalid("full_name", "Full name is required"))
      else if UsernameTaken(users, f.username) then Err(Invalid("username", "Username already exists"))
      else if EmailTaken(users, f.email) then Err(Invalid("email", "Email already exists"))
      // `hash_password`: `password + salt` needs a string
      else if !f.password.VStr? then Err(Crash("TypeError"))
      else Ok(Signup(f.username, f.email, f.password.s, f.fullName))
  }

  /**
   * `len()` comes first in `validate_password`, so a password sent as a
   * list or dict of fewer than eight entries gets the rule's message, as a
   * short string does.
   */
  lemma ShortPasswordValueRefused(users: seq<User>, f: SignupForm)
    requires f.username != [] && ValidateUsername(f.username) && f.email != [] && ValidateEmail(f.email)
    requires f.password.VList? || f.password.VDict?
    requires Truthy(f.password) && Elements(f.password).Some? && |Elements(f.password).value| < 8
    ensures CheckForm(users, f) == Err(Invalid("password", PasswordRule))
  {
    assert PasswordProblem(f.password, "password") == Some(Invalid("password", PasswordRule));
  }

  /** The reading and the checks of `register`. */
  function CheckSignup(users: seq<User>, data: Value): (r: Result<Signup, Problem>)
    ensures r.Ok? ==> SignupAccepted(users, r.value.username, r.value.email, r.value.password, r.value.fullName)
    ensures r.Ok? ==> Strip(r.value.username) == r.value.username && Strip(r.value.fullName) == r.value.fullName
  {
    match ReadSignup(data)
      case Err(e) => Err(e)
      case Ok(f) => CheckForm(users, f)
  }

  /** The body `{"username": .., "email": .., "password": .., "full_name": ..}`. */
  function SignupBody(name: string, email: string, password: string, full: string): Value {
    VDict([("username", VStr(name)), ("email", VStr(email)), ("password", VStr(password)), ("full_name", VStr(full))])
  }

  /**
   * For a body of four strings, registration is accepted exactly when
   * every check passes on the stripped name, the stripped lower-cased
   * e-mail, the password as sent and the stripped full name.
   */
  lemma CheckSignupIff(users: seq<User>, name: string, email: string, password: string, full: string)
    ensures CheckSignup(users, SignupBody(name, email, password, full)).Ok? <==>
            SignupAccepted(users, Strip(name), Lower(Strip(email)), password, Strip(full))
  {
    ReadSignupBody(name, email, password, full);
  }

  /** An accepted registration keeps the fields as read. */
  lemma CheckSignupKeeps(users: seq<User>, name: string, email: string, password: string, full: string)
    requires CheckSignup(users, SignupBody(name, email, password, full)).Ok?
    ensures CheckSignup(users, SignupBody(name, email, password, full)).value ==
            Signup(Strip(name), Lower(Strip(email)), password, Strip(full))
  {
    ReadSignupBody(name, email, password, full);
  }

  /** A body of four strings reads as those strings, stripped. */
  lemma ReadSignupBody(name: string, email: string, password: string, full: string)
    ensures ReadSignup(SignupBody(name, email, password, full)) == Ok(SignupForm(Strip(name), Lower(Strip(email)), VStr(password), Strip(full)))
  {
    var tail := [("full_name", VStr(full))];
    var d2 := [("password", VStr(password))] + tail;
    var d1 := [("email", VStr(email))] + d2;
    var d := [("username", VStr(name))] + d1;
    assert d == SignupBody(name, email, password, full).entries;
    GetCons("full_name", VStr(full), [], "full_name");
    GetCons("password", VStr(password), tail, "full_name");
    GetCons("password", VStr(password), tail, "password");
    GetCons("email", VStr(email), d2, "full_name");
    GetCons("email", VStr(email), d2, "password");
    GetCons("email", VStr(email), d2, "email");
    GetCons("username", VStr(name), d1, "full_name");
    GetCons("username", VStr(name), d1, "password");
    GetCons("username", VStr(name), d1, "email");
    GetCons("username", VStr(name), d1, "username");
  }

  /** The record `register` stores: active, not an admin, the password hashed. */
  function NewUser(id: int, s: Signup, sha256Hex: bytes -> string, now: string): User {
    User(id, s.username, s.email, HashPassword(sha256Hex, s.password), s.fullName, true, false, now)
  }

  /**
   * What `register` stores for a request body, or why it refuses it: the
   * counter's value as id, an active account that is not an admin.
   */
  function Enrol(users: seq<User>, next: int, json: Option<Value>, sha256Hex: bytes -> string, now: string): (r: Result<User, Problem>)
    ensures json.None? ==> r == Err(Rejected("Invalid JSON in request body"))
    ensures r.Ok? ==> r.value.id == next && r.value.isActive && !r.value.isAdmin && r.value.createdAt == now
    ensures r.Ok? ==> !UsernameTaken(users, r.value.username) && !EmailTaken(users, r.value.email)
    ensures r.Ok? ==> ValidateUsername(r.value.username) && ValidateEmail(r.value.email) && r.value.fullName != []
  {
    if json.None? then Err(Rejected("Invalid JSON in request body"))
    else match CheckSignup(users, json.value)
      case Err(e) => Err(e)
      case Ok(s) => Ok(NewUser(next, s, sha256Hex, now))
  }

  // ---------------------------------------------------------------------
  // login
  // ---------------------------------------------------------------------

  /** `u["username"].lower() == username.lower()` */
  function SameName(username: string): User -> bool {
    (u: User) => Lower(u.username) == Lower(username)
  }

  /**
   * `login(request)`: the user the credentials open, or why not. The
   * token is issued from the user; its contents are not part of this
   * model.
   */
  function Login(users: seq<User>, json: Option<Value>, sha256Hex: bytes -> string): (r: Result<User, Problem>)
    ensures r.Ok? ==>
      && json.Some? && json.value.VDict?
      && var name := Field(json.value.entries, "username", VStr(""));
      && var password := Field(json.value.entries, "password", VStr(""));
      && name.VStr? && password.VStr? && Strip(name.s) != []
      && var k := FirstWhere(users, SameName(Strip(name.s)));
      && k.Some? && r.value == users[k.value] && r.value.isActive
      && VerifyPassword(sha256Hex, password.s, r.value.passwordHash)
  {
    if json.None? then Err(Rejected("Invalid JSON in request body"))
    else if !json.value.VDict? then Err(Crash("AttributeError"))
    else
      var d := json.value.entries;
      var rawName := Field(d, "username", VStr(""));
      var password := Field(d, "password", VStr(""));
      if !rawName.VStr? then Err(Crash("AttributeError"))
      else
        var username := Strip(rawName.s);
        if username == [] then Err(Invalid("username", "Username is required"))
        else if !Truthy(password) then Err(Invalid("password", "Password is required"))
        else match FirstWhere(users, SameName(username))
          case None => Err(Denied("Invalid username or password"))
          case Some(k) =>
            var u := users[k];
            if !u.isActive then Err(Denied("Account is disabled"))
            else if !password.VStr? then Err(Crash("TypeError"))
            else if !VerifyPassword(sha256Hex, password.s, u.passwordHash) then Err(Denied("Invalid username or password"))
            else Ok(u)
  }

  /** The login body `{"username": name, "password": password}`. */
  function Credentials(name: string, password: string): Option<Value> {
    Some(VDict([("username", VStr(name)), ("password", VStr(password))]))
  }

  /**
   * A user stored by registration can log in with the name and password
   * registered, provided no earlier user's name matches it when case is
   * ignored.
   */
  lemma RegisteredCanLogin(users: seq<User>, s: Signup, sha256Hex: bytes -> string, id: int, now: string)
    requires s.username != [] && Strip(s.username) == s.username && s.password != []
    requires forall k :: 0 <= k < |users| ==> Lower(users[k].username) != Lower(s.username)
    ensures Login(users + [NewUser(id, s, sha256Hex, now)], Credentials(s.username, s.password), sha256Hex)
            == Ok(NewUser(id, s, sha256Hex, now))
  {
    var all := users + [NewUser(id, s, sha256Hex, now)];
    assert FirstWhere(all, SameName(s.username)) == Some(|users|) by {
      assert all[|users|] == NewUser(id, s, sha256Hex, now);
      assert forall k :: 0 <= k < |users| ==> all[k] == users[k];
    }
    LoginFinds(all, s.username, s.password, sha256Hex, |users|);
  }

  /** Logging in with clean credentials checks the first user whose name matches. */
  lemma LoginFinds(users: seq<User>, name: string, password: string, sha256Hex: bytes -> string, k: nat)
    requires name != [] && Strip(name) == name && password != []
    requires FirstWhere(users, SameName(name)) == Some(k)
    ensures Login(users, Credentials(name, password), sha256Hex) ==
      if !users[k].isActive then Err(Denied("Account is disabled"))
      else if !VerifyPassword(sha256Hex, password, users[k].passwordHash) then Err(Denied("Invalid username or password"))
      else Ok(users[k])
  {
    CredentialFields(name, password);
    assert Truthy(VStr(password));
    var u := users[k];
    if !u.isActive {
      assert Login(users, Credentials(name, password), sha256Hex) == Err(Denied("Account is disabled"));
    } else if !VerifyPassword(sha256Hex, password, u.passwordHash) {
      assert Login(users, Credentials(name, password), sha256Hex) == Err(Denied("Invalid username or password"));
    } else {
      assert Login(users, Credentials(name, password), sha256Hex) == Ok(u);
    }
  }

  lemma CredentialFields(name: string, password: string)
    ensures Credentials(name, password).Some? && Credentials(name, password).value.VDict?
    ensures Field(Credentials(name, password).value.entries, "username", VStr("")) == VStr(name)
    ensures Field(Credentials(name, password).value.entries, "password", VStr("")) == VStr(password)
  {
    var d := [("username", VStr(name)), ("password", VStr(password))];
    assert Get(d, "username") == Some(VStr(name));
    assert "password" != "username";
    assert Get(d, "password") == Some(VStr(password));
  }

  /**
   * Registration compares names exactly but login ignores case, so a user
   * registered as `"Admin"` next to `"admin"` always reaches the earlier
   * account: with a different password the login is refused.
   */
  lemma CaseShadowedLogin(users: seq<User>, k: nat, s: Signup, sha256Hex: bytes -> string, id: int, now: string)
    requires k < |users| && users[k].isActive && Lower(users[k].username) == Lower(s.username)
    requires forall j :: 0 <= j < k ==> Lower(users[j].username) != Lower(s.username)
    requires s.username != [] && Strip(s.username) == s.username && s.password != []
    requires users[k].passwordHash != HashPassword(sha256Hex, s.password)
    ensures Login(users + [NewUser(id, s, sha256Hex, now)], Credentials(s.username, s.password), sha256Hex)
            == Err(Denied("Invalid username or password"))
  {
    var all := users + [NewUser(id, s, sha256Hex, now)];
    assert FirstWhere(all, SameName(s.username)) == Some(k) by {
      assert all[k] == users[k];
      assert forall j :: 0 <= j < k ==> all[j] == users[j];
    }
    LoginFinds(all, s.username, s.password, sha256Hex, k);
  }

  // ---------------------------------------------------------------------
  // logout
  // ---------------------------------------------------------------------

  /** `auth_header.split(" ")[1]` for a header that starts with `"Bearer "`. */
  function BearerToken(header: string): (token: string)
    requires StartsWith(header, "Bearer ")
    ensures ' ' !in token
  {
    BearerSplit(header);
    SplitOn(header, ' ')[1]
  }

  /** After `"Bearer "` the split goes on over the rest of the header. */
  lemma BearerSplit(header: string)
    requires StartsWith(header, "Bearer ")
    ensures SplitOn(header, ' ') == ["Bearer"] + SplitOn(header[7..], ' ')
  {
    assert header[..6] == "Bearer";
    assert ' ' !in header[..6];
    IndexOfUnique(header, ' ', 6);
  }

  /** The token is the text after `"Bearer "`, up to the next space. */
  lemma BearerTokenIsRest(header: string)
    requires StartsWith(header, "Bearer ")
    ensures ' ' !in header[7..] ==> BearerToken(header) == header[7..]
    ensures ' ' in header[7..] ==> BearerToken(header) == header[7..][..IndexOf(header[7..], ' ')]
  {
    BearerSplit(header);
  }

  /**
   * The token `logout` blacklists: the header must be present and start
   * with `"Bearer "`.
   */
  function LogoutToken(header: Option<string>): (r: Result<string, Problem>)
    ensures r.Ok? <==> header.Some? && StartsWith(header.value, "Bearer ")
    ensures r.Ok? ==> ' ' !in r.value && r.value == BearerToken(header.value)
    ensures r.Err? ==> r.error == Denied("Authorization token required")
  {
    match header
      case Some(h) =>
        if h != "" && StartsWith(h, "Bearer ") then Ok(BearerToken(h))
        else Err(Denied("Authorization token required"))
      case None => Err(Denied("Authorization token required"))
  }

  /** With a bearer header sent, `logout` blacklists exactly the token after `"Bearer "`. */
  lemma LogoutBearer(headers: Dict<bytes, bytes>, token: string)
    requires ' ' !in token
    requires HeaderText(headers, "Authorization") == Some("Bearer " + token)
    ensures LogoutToken(HeaderText(headers, "Authorization")) == Ok(token)
  {
    var h := "Bearer " + token;
    assert StartsWith(h, "Bearer ") by { assert h[..7] == "Bearer "; }
    assert h[7..] == token;
    BearerTokenIsRest(h);
  }

  /**
   * As written, `request.headers.get("Authorization")` looks a `str` up
   * among `bytes` keys and always answers `None`, so every logout is refused.
   */
  lemma LogoutAsWrittenRefuses(headers: Dict<bytes, bytes>)
    ensures AsWritten(headers, "Authorization") == None
    ensures LogoutToken(None) == Err(Denied("Authorization token required"))
  {
    AsWrittenNeverFinds(headers, "Authorization");
  }

  // ---------------------------------------------------------------------
  // refresh_token
  // ---------------------------------------------------------------------

  /** What `jwt.decode` gives: a token it refuses, claims without `user_id`, or the user id. */
  datatype Decoded =
    | BadToken
    | NoUserId
    | UserId(id: int)
    /**
     * A `user_id` claim equal to no integer (a string, `null`, a list). A
     * boolean claim compares equal to 1 or 0 in Python, so it is given
     * as `UserId(1)` or `UserId(0)`.
     */
    | OtherUserId

  // ---------------------------------------------------------------------
  // get_current_user
  // ---------------------------------------------------------------------

  /** `get_current_user(request)`: the signed-in user's profile, without the hash. */
  function CurrentProfile(current: Option<User>): (r: Result<Profile, Problem>)
    ensures r.Ok? <==> current.Some?
    ensures r.Ok? ==>
      && r.value.id == current.value.id && r.value.username == current.value.username
      && r.value.email == current.value.email && r.value.fullName == current.value.fullName
  {
    if current.None? then Err(Denied("Authentication required")) else Ok(ProfileOf(current.value))
  }

  // ---------------------------------------------------------------------
  // update_current_user and change_password
  // ---------------------------------------------------------------------

  /** The signed-in user's record after a profile update, and the problem that stopped it, if any. */
  datatype Edited = Edited(user: User, problem: Option<Problem>)

  /** `any(u["email"] == email and u["id"] != current_user["id"] for u in users)` */
  predicate EmailHeldByOther(users: seq<User>, email: string, id: int) {
    exists k :: 0 <= k < |users| && users[k].email == email && users[k].id != id
  }

  /** The `full_name` part of `update_current_user`. */
  function EditName(me: User, data: Value): (r: Edited)
    ensures r.user == me.(fullName := r.user.fullName)
    ensures r.user.fullName != me.fullName ==> r.user.fullName != [] && Strip(r.user.fullName) == r.user.fullName
    ensures Read(data, "full_name") == Ok(None) ==> r == Edited(me, None)
    ensures SentText(data, "full_name").Some? ==>
      var name := Strip(SentText(data, "full_name").value);
      r == if name == [] then Edited(me, Some(Invalid("full_name", "Full name cannot be empty")))
           else Edited(me.(fullName := name), None)
    ensures Read(data, "full_name") != Ok(None) && SentText(data, "full_name").None? ==> r.user == me && r.problem.Some?
    ensures r.problem.None? ==>
      r.user.fullName == (if SentText(data, "full_name").Some? then Strip(SentText(data, "full_name").value) else me.fullName)
  {
    match Read(data, "full_name")
      case Err(e) => assert SentText(data, "full_name").None?; Edited(me, Some(e))
      case Ok(None) => Edited(me, None)
      case Ok(Some(v)) =>
        if !v.VStr? then assert SentText(data, "full_name").None?; Edited(me, Some(Crash("AttributeError")))
        else
          assert SentText(data, "full_name") == Some(v.s);
          if Strip(v.s) == [] then Edited(me, Some(Invalid("full_name", "Full name cannot be empty")))
          else
            StripIdempotent(v.s);
            Edited(me.(fullName := Strip(v.s)), None)
  }

  /** The `email` part of `update_current_user`, on the record the name part left. */
  function EditEmail(users: seq<User>, me: User, data: Value): (r: Edited)
    ensures r.user == me.(email := r.user.email)
    ensures r.user.email != me.email ==> ValidateEmail(r.user.email) && !EmailHeldByOther(users, r.user.email, me.id)
    ensures Read(data, "email") == Ok(None) ==> r == Edited(me, None)
    ensures SentText(data, "email").Some? ==>
      var email := Lower(Strip(SentText(data, "email").value));
      r == if !ValidateEmail(email) then Edited(me, Some(Invalid("email", "Invalid email format")))
           else if EmailHeldByOther(users, email, me.id) then Edited(me, Some(Invalid("email", "Email already exists")))
           else Edited(me.(email := email), None)
    ensures Read(data, "email") != Ok(None) && SentText(data, "email").None? ==> r.user == me && r.problem.Some?
    ensures r.problem.None? ==>
      r.user.email == (if SentText(data, "email").Some? then Lower(Strip(SentText(data, "email").value)) else me.email)
  {
    match Read(data, "email")
      case Err(e) => assert SentText(data, "email").None?; Edited(me, Some(e))
      case Ok(None) => Edited(me, None)
      case Ok(Some(v)) =>
        if !v.VStr? then assert SentText(data, "email").None?; Edited(me, Some(Crash("AttributeError")))
        else
          assert SentText(data, "email") == Some(v.s);
          var email := Lower(Strip(v.s));
          if !ValidateEmail(email) then Edited(me, Some(Invalid("email", "Invalid email format")))
          else if EmailHeldByOther(users, email, me.id) then Edited(me, Some(Invalid("email", "Email already exists")))
          else Edited(me.(email := email), None)
  }

  /**
   * The body of `update_current_user`: the full name, then the e-mail. A
   * full name already set stays set when the e-mail is refused.
   */
  function EditProfile(users: seq<User>, me: User, data: Value): (r: Edited)
    ensures r.user == me.(fullName := r.user.fullName, email := r.user.email)
    ensures r.user.email != me.email ==> ValidateEmail(r.user.email) && !EmailHeldByOther(users, r.user.email, me.id)
    ensures r.user.fullName != me.fullName ==> r.user.fullName != [] && Strip(r.user.fullName) == r.user.fullName
    ensures r.problem.None? ==>
      r.user.fullName == (if SentText(data, "full_name").Some? then Strip(SentText(data, "full_name").value) else me.fullName)
    ensures r.problem.None? ==>
      r.user.email == (if SentText(data, "email").Some? then Lower(Strip(SentText(data, "email").value)) else me.email)
    ensures EditName(me, data).problem.Some? ==> r == EditName(me, data)
  {
    var named := EditName(me, data);
    if named.problem.Some? then named else EditEmail(users, named.user, data)
  }

  /**
   * A full name that was set stays set when the e-mail that follows it is
   * refused: the record is changed field by field.
   */
  lemma NameSurvivesEmailError(users: seq<User>, me: User, data: Value)
    requires SentText(data, "full_name").Some? && Strip(SentText(data, "full_name").value) != []
    requires SentText(data, "email").Some? && !ValidateEmail(Lower(Strip(SentText(data, "email").value)))
    ensures EditProfile(users, me, data) ==
      Edited(me.(fullName := Strip(SentText(data, "full_name").value)), Some(Invalid("email", "Invalid email format")))
  {
  }

  /** `update_current_user(request)`: `Err` for the checks made before the record is touched. */
  function UpdateCurrentUser(users: seq<User>, current: Option<User>, json: Option<Value>): (r: Result<Edited, Problem>)
    ensures current.None? ==> r == Err(Denied("Authentication required"))
    ensures current.Some? && json.None? ==> r == Err(Rejected("Invalid JSON in request body"))
    ensures r.Ok? <==> current.Some? && json.Some?
    ensures r.Ok? ==> r.value == EditProfile(users, current.value, json.value)
  {
    if current.None? then Err(Denied("Authentication required"))
    else if json.None? then Err(Rejected("Invalid JSON in request body"))
    else Ok(EditProfile(users, current.value, json.value))
  }

  /** No two users share an e-mail address. */
  predicate UniqueEmails(users: seq<User>) {
    forall i, j :: 0 <= i < j < |users| ==> users[i].email != users[j].email
  }

  /** No two users share an id. */
  predicate UniqueUserIds(users: seq<User>) {
    forall i, j :: 0 <= i < j < |users| ==> users[i].id != users[j].id
  }

  /**
   * Writing the edited record back over the stored one keeps e-mail
   * addresses unique: the update refuses an address held by another id.
   */
  lemma EditKeepsEmailsUnique(users: seq<User>, k: nat, data: Value)
    requires k < |users| && UniqueEmails(users) && UniqueUserIds(users)
    ensures UniqueEmails(users[k := EditProfile(users, users[k], data).user])
  {
    var e := EditProfile(users, users[k], data).user;
    if e.email != users[k].email {
      assert !EmailHeldByOther(users, e.email, users[k].id);
      forall j | 0 <= j < |users| && j != k ensures users[j].email != e.email {
        assert users[j].id != users[k].id;
      }
    }
    ReplaceKeepsUnique(users, k, e);
  }

  lemma ReplaceKeepsUnique(users: seq<User>, k: nat, u: User)
    requires k < |users| && UniqueEmails(users)
    requires u.email == users[k].email || forall j :: 0 <= j < |users| && j != k ==> users[j].email != u.email
    ensures UniqueEmails(users[k := u])
  {
    var all := users[k := u];
    forall i, j | 0 <= i < j < |all| ensures all[i].email != all[j].email {
      if i != k && j != k {
        assert all[i] == users[i] && all[j] == users[j];
      }
    }
  }

  /** Sending back one's own (clean) address is not a clash. */
  lemma KeepOwnEmail(users: seq<User>, k: nat)
    requires k < |users| && UniqueEmails(users) && ValidateEmail(users[k].email)
    requires Lower(Strip(users[k].email)) == users[k].email
    ensures EditProfile(users, users[k], VDict([("email", VStr(users[k].email))])) == Edited(users[k], None)
  {
    var me := users[k];
    var data := VDict([("email", VStr(me.email))]);
    EmailOnly(me.email);
    assert EditName(me, data) == Edited(me, None);
    assert !EmailHeldByOther(users, me.email, me.id) by {
      forall j | 0 <= j < |users| && users[j].email == me.email ensures users[j].id == me.id {
        assert j == k;
      }
    }
  }

  lemma EmailOnly(email: string)
    ensures Read(VDict([("email", VStr(email))]), "full_name") == Ok(None)
    ensures Read(VDict([("email", VStr(email))]), "email") == Ok(Some(VStr(email)))
  {
    var d := [("email", VStr(email))];
    assert Get(d, "full_name") == None;
    assert Get(d, "email") == Some(VStr(email));
  }

  /**
   * `change_password(request)`: the record with its new hash, or why not.
   * Nothing is changed before every check has passed.
   */
  function ChangePassword(current: Option<User>, json: Option<Value>, sha256Hex: bytes -> string): (r: Result<User, Problem>)
    ensures r.Ok? ==> current.Some? && r.value == current.value.(passwordHash := r.value.passwordHash)
    ensures r.Ok? ==> exists p :: ValidatePassword(p) && r.value.passwordHash == HashPassword(sha256Hex, p)
    ensures r.Ok? ==> json.Some? && json.value.VDict?
    ensures r.Ok? ==>
      var sent := Field(json.value.entries, "current_password", VStr(""));
      sent.VStr? && sent.s != [] && VerifyPassword(sha256Hex, sent.s, current.value.passwordHash)
    ensures r.Ok? ==>
      var sent := Field(json.value.entries, "new_password", VStr(""));
      sent.VStr? && ValidatePassword(sent.s) && r.value.passwordHash == HashPassword(sha256Hex, sent.s)
  {
    if current.None? then Err(Denied("Authentication required"))
    else if json.None? then Err(Rejected("Invalid JSON in request body"))
    else if !json.value.VDict? then Err(Crash("AttributeError"))
    else
      var d := json.value.entries;
      var old_ := Field(d, "current_password", VStr(""));
      var new_ := Field(d, "new_password", VStr(""));
      if !Truthy(old_) then Err(Invalid("current_password", "Current password is required"))
      else if !Truthy(new_) then Err(Invalid("new_password", "New password is required"))
      else if !old_.VStr? then Err(Crash("TypeError"))
      else if !VerifyPassword(sha256Hex, old_.s, current.value.passwordHash) then
        Err(Denied("Current password is incorrect"))
      else
        var problem := PasswordProblem(new_, "new_password");
        if problem.Some? then Err(problem.value)
        // `hash_password`: `password + salt` needs a string
        else if !new_.VStr? then Err(Crash("TypeError"))
        else Ok(current.value.(passwordHash := HashPassword(sha256Hex, new_.s)))
  }

  /** A current password that does not verify refuses the change, whatever new password is sent. */
  lemma WrongCurrentPasswordRefused(u: User, d: seq<(string, Value)>, sha256Hex: bytes -> string)
    requires Field(d, "current_password", VStr("")).VStr? && Truthy(Field(d, "current_password", VStr("")))
    requires Truthy(Field(d, "new_password", VStr("")))
    requires !VerifyPassword(sha256Hex, Field(d, "current_password", VStr("")).s, u.passwordHash)
    ensures ChangePassword(Some(u), Some(VDict(d)), sha256Hex) == Err(Denied("Current password is incorrect"))
  {
  }

  /** After a change the new password verifies against the stored hash, and only a password with the same hash does. */
  lemma ChangedPasswordVerifies(u: User, oldPassword: string, newPassword: string, sha256Hex: bytes -> string)
    requires oldPassword != [] && newPassword != [] && ValidatePassword(newPassword)
    requires VerifyPassword(sha256Hex, oldPassword, u.passwordHash)
    ensures var r := ChangePassword(Some(u), Some(VDict([("current_password", VStr(oldPassword)), ("new_password", VStr(newPassword))])), sha256Hex);
      r.Ok? && VerifyPassword(sha256Hex, newPassword, r.value.passwordHash)
  {
    var d := [("current_password", VStr(oldPassword)), ("new_password", VStr(newPassword))];
    assert Field(d, "current_password", VStr("")) == VStr(oldPassword);
    assert Field(d, "new_password", VStr("")) == VStr(newPassword);
  }

  // ---------------------------------------------------------------------
  // The store
  // ---------------------------------------------------------------------

  /** What `get_auth_stats` reports. */
  datatype AuthStats = AuthStats(total: nat, active: nat, admins: nat, blacklisted: nat)

  /** The counts of `get_auth_stats` over a user list and a blacklist. */
  function StatsOf(users: seq<User>, blacklist: set<string>): (r: AuthStats)
    ensures r.total == |users| && r.blacklisted == |blacklist|
    ensures r.active <= r.total && r.admins <= r.total
  {
    AuthStats(|users|, Count(users, (u: User) => u.isActive), Count(users, (u: User) => u.isAdmin), |blacklist|)
  }

  /** A registered user is counted as active and not as an admin. */
  lemma StatsAfterSignup(users: seq<User>, u: User, blacklist: set<string>)
    requires u.isActive && !u.isAdmin
    ensures var before := StatsOf(users, blacklist);
      StatsOf(users + [u], blacklist) == AuthStats(before.total + 1, before.active + 1, before.admins, before.blacklisted)
  {
    CountAppend(users, u, (u: User) => u.isActive);
    CountAppend(users, u, (u: User) => u.isAdmin);
  }

  /** Ids unique and below the counter; names and addresses unique. */
  predicate UsersInvariant(users: seq<User>, next: int) {
    && UniqueUserIds(users) && UniqueEmails(users)
    && (forall i, j :: 0 <= i < j < |users| ==> users[i].username != users[j].username)
    && (forall i :: 0 <= i < |users| ==> users[i].id < next)
  }

  /** A user with the counter as id and a new name and address can be appended. */
  lemma AppendUserKeeps(users: seq<User>, u: User, next: int)
    requires UsersInvariant(users, next) && u.id == next
    requires !UsernameTaken(users, u.username) && !EmailTaken(users, u.email)
    ensures UsersInvariant(users + [u], next + 1)
  {
  }

  /** `users`, `next_user_id` and `token_blacklist` of `routes/auth.py`. */
  class UserStore {
    var users: seq<User>
    var nextUserId: int
    var blacklist: set<string>

    ghost predicate Valid()
      reads this
    {
      UsersInvariant(users, nextUserId)
    }

    constructor (sha256Hex: bytes -> string)
      ensures Valid() && users == [Admin(sha256Hex)] && nextUserId == 2 && blacklist == {}
    {
      users := [Admin(sha256Hex)];
      nextUserId := 2;
      blacklist := {};
    }

    /** `get_auth_stats()` */
    function Stats(): AuthStats
      reads this
    {
      StatsOf(users, blacklist)
    }

    /** `register(request)`: answers the stored user's profile. */
    method Register(json: Option<Value>, sha256Hex: bytes -> string, now: string) returns (r: Result<Profile, Problem>)
      requires Valid()
      modifies this
      ensures Valid() && unchanged(this`blacklist)
      ensures r.Ok? <==> Enrol(old(users), old(nextUserId), json, sha256Hex, now).Ok?
      ensures r.Err? ==> unchanged(this) && r.error == Enrol(old(users), old(nextUserId), json, sha256Hex, now).error
      ensures r.Ok? ==>
        var u := Enrol(old(users), old(nextUserId), json, sha256Hex, now).value;
        users == old(users) + [u] && nextUserId == old(nextUserId) + 1 && r.value == ProfileOf(u)
    {
      var enrolled := Enrol(users, nextUserId, json, sha256Hex, now);
      if enrolled.Err? {
        r := Err(enrolled.error);
      } else {
        var u := enrolled.value;
        Append(u);
        r := Ok(ProfileOf(u));
      }
    }

    /** `users.append(new_user)` and `next_user_id += 1`. */
    method Append(u: User)
      requires Valid() && u.id == nextUserId
      requires !UsernameTaken(users, u.username) && !EmailTaken(users, u.email)
      modifies this
      ensures Valid() && unchanged(this`blacklist)
      ensures users == old(users) + [u] && nextUserId == old(nextUserId) + 1
    {
      AppendUserKeeps(users, u, nextUserId);
      users := users + [u];
      nextUserId := nextUserId + 1;
    }

    /**
     * `logout(request)`: blacklists the bearer token of the `Authorization`
     * header. `None` is success.
     */
    method Logout(headers: Dict<bytes, bytes>) returns (r: Option<Problem>)
      modifies this
      ensures users == old(users) && nextUserId == old(nextUserId)
      ensures match LogoutToken(HeaderText(headers, "Authorization"))
        case Ok(token) => r.None? && blacklist == old(blacklist) + {token}
        case Err(e) => r == Some(e) && unchanged(this`blacklist)
    {
      var checked := LogoutToken(HeaderText(headers, "Authorization"));
      if checked.Err? {
        r := Some(checked.error);
      } else {
        Revoke(checked.value);
        r := None;
      }
    }

    /** `token_blacklist.add(token)`. */
    method Revoke(token: string)
      modifies this
      ensures users == old(users) && nextUserId == old(nextUserId)
      ensures blacklist == old(blacklist) + {token}
    {
      blacklist := blacklist + {token};
    }

    /**
     * `refresh_token(request)`: answers the new token. The old token is
     * blacklisted only when a new one is issued.
     */
    method Refresh(json: Option<Value>, decode: string -> Decoded, issue: User -> string) returns (r: Result<string, Problem>)
      modifies this
      ensures users == old(users) && nextUserId == old(nextUserId)
      ensures r.Err? ==> blacklist == old(blacklist)
      ensures json.Some? && json.value.VDict? && Field(json.value.entries, "token", VNone).VStr? &&
              Field(json.value.entries, "token", VNone).s != [] &&
              Field(json.value.entries, "token", VNone).s in old(blacklist) ==>
        r == Err(Denied("Token is invalid"))
      ensures r.Ok? ==>
        && json.Some? && json.value.VDict?
        && var t := Field(json.value.entries, "token", VNone);
        && t.VStr? && t.s !in old(blacklist)
        && decode(t.s).UserId?
        && var k := FirstWhere(users, (u: User) => u.id == decode(t.s).id);
        && k.Some? && users[k.value].isActive
        && r.value == issue(users[k.value])
        && blacklist == old(blacklist) + {t.s}
    {
      if json.None? {
        return Err(Rejected("Invalid JSON in request body"));
      }
      if !json.value.VDict? {
        return Err(Crash("AttributeError"));
      }
      var t := Field(json.value.entries, "token", VNone);
      if !Truthy(t) {
        return Err(Invalid("token", "Token is required"));
      }
      if t.VList? || t.VDict? {
        return Err(Crash("TypeError"));
      }
      if t.VStr? && t.s in blacklist {
        return Err(Denied("Token is invalid"));
      }
      if !t.VStr? {
        return Err(Denied("Invalid token"));
      }
      match decode(t.s) {
        case BadToken =>
          return Err(Denied("Invalid token"));
        case NoUserId =>
          return Err(Crash("KeyError"));
        case OtherUserId =>
          return Err(Denied("User not found or inactive"));
        case UserId(id) =>
          var k := FirstWhere(users, (u: User) => u.id == id);
          if k.None? || !users[k.value].isActive {
            return Err(Denied("User not found or inactive"));
          }
          blacklist := blacklist + {t.s};
          return Ok(issue(users[k.value]));
      }
    }
  }

}
