/**
 * The router-patterns example application (`docs/examples/router_patterns/app.py`):
 * its in-memory users, posts and comments with their id counters, the
 * `find_*` lookups, and the handlers that read and extend them.
 *
 * The store is a class whose fields are the module's three lists and
 * three counters; the lookups and page builders are functions over the
 * lists. `request.json()` is a parameter (`None` where parsing raises).
 * A failure is the `({"error": ...}, status)` tuple a handler returns, or
 * the exception it lets escape (which the application answers with 500);
 * the create handlers answer 201 on success.
 */
module RouterPatterns {
  import opened Common
  import opened Text
  import opened OrderedDict
  import opened Values
  import opened Seqs

  /** A user dict. Its `posts` list is always empty and is not modelled. */
  datatype User = User(id: int, username: string, email: string)

  datatype Post = Post(id: int, title: string, content: string, userId: int)

  /** A comment dict; `user_id` is whatever the request body sent. */
  datatype Comment = Comment(id: int, postId: int, userId: Value, content: string)

  /** What a handler answers instead of its result. */
  datatype Failure =
    | Failure(status: int, error: string)
    /** An exception the handler does not catch, by class name. */
    | Crash(kind: string)

  const SeedUsers := [User(1, "alice", "alice@example.com"), User(2, "bob", "bob@example.com")]
  const SeedPosts := [Post(1, "Alice's First Post", "Hello world!", 1), Post(2, "Bob's Thoughts", "Artanis is great!", 2)]
  const SeedComments := [Comment(1, 1, VInt(2), "Great post, Alice!"), Comment(2, 2, VInt(1), "I agree, Bob!")]

  // ---------------------------------------------------------------------
  // find_user, find_post, find_comment
  // ---------------------------------------------------------------------

  /** `find_user(user_id)`: the first user with that id. */
  function FindUser(users: seq<User>, id: int): (r: Option<User>)
    ensures r.Some? ==> r.value in users && r.value.id == id
    ensures r.None? <==> forall k :: 0 <= k < |users| ==> users[k].id != id
  {
    match FirstWhere(users, (u: User) => u.id == id)
      case Some(k) => Some(users[k])
      case None => None
  }

  /** `find_post(post_id)`: the first post with that id. */
  function FindPost(posts: seq<Post>, id: int): (r: Option<Post>)
    ensures r.Some? ==> r.value in posts && r.value.id == id
    ensures r.None? <==> forall k :: 0 <= k < |posts| ==> posts[k].id != id
  {
    match FirstWhere(posts, (p: Post) => p.id == id)
      case Some(k) => Some(posts[k])
      case None => None
  }

  /** `find_comment(comment_id)`: the first comment with that id. */
  function FindComment(comments: seq<Comment>, id: int): (r: Option<Comment>)
    ensures r.Some? ==> r.value in comments && r.value.id == id
    ensures r.None? <==> forall k :: 0 <= k < |comments| ==> comments[k].id != id
  {
    match FirstWhere(comments, (c: Comment) => c.id == id)
      case Some(k) => Some(comments[k])
      case None => None
  }

  predicate DistinctUserIds(users: seq<User>) {
    forall i, j :: 0 <= i < j < |users| ==> users[i].id != users[j].id
  }

  predicate DistinctPostIds(posts: seq<Post>) {
    forall i, j :: 0 <= i < j < |posts| ==> posts[i].id != posts[j].id
  }

  predicate DistinctCommentIds(comments: seq<Comment>) {
    forall i, j :: 0 <= i < j < |comments| ==> comments[i].id != comments[j].id
  }

  /** With distinct ids, `find_user` answers exactly the user holding the id. */
  lemma FindUserExact(users: seq<User>, u: User)
    requires DistinctUserIds(users) && u in users
    ensures FindUser(users, u.id) == Some(u)
  {
    var j :| 0 <= j < |users| && users[j] == u;
    var v := FindUser(users, u.id).value;
    var k :| 0 <= k < |users| && users[k] == v;
    assert users[k].id == users[j].id;
  }

  /** With distinct ids, `find_post` answers exactly the post holding the id. */
  lemma FindPostExact(posts: seq<Post>, p: Post)
    requires DistinctPostIds(posts) && p in posts
    ensures FindPost(posts, p.id) == Some(p)
  {
    var j :| 0 <= j < |posts| && posts[j] == p;
    var v := FindPost(posts, p.id).value;
    var k :| 0 <= k < |posts| && posts[k] == v;
    assert posts[k].id == posts[j].id;
  }

  /** With distinct ids, `find_comment` answers exactly the comment holding the id. */
  lemma FindCommentExact(comments: seq<Comment>, c: Comment)
    requires DistinctCommentIds(comments) && c in comments
    ensures FindComment(comments, c.id) == Some(c)
  {
    var j :| 0 <= j < |comments| && comments[j] == c;
    var v := FindComment(comments, c.id).value;
    var k :| 0 <= k < |comments| && comments[k] == v;
    assert comments[k].id == comments[j].id;
  }

  /** A user found before a user is appended is still found after. */
  lemma FindUserAppend(users: seq<User>, u: User, id: int)
    requires FindUser(users, id).Some?
    ensures FindUser(users + [u], id).Some?
  {
    var k :| 0 <= k < |users| && users[k].id == id;
    assert (users + [u])[k] == users[k];
  }

  /** A post found before a post is appended is still found after. */
  lemma FindPostAppend(posts: seq<Post>, p: Post, id: int)
    requires FindPost(posts, id).Some?
    ensures FindPost(posts + [p], id).Some?
  {
    var k :| 0 <= k < |posts| && posts[k].id == id;
    assert (posts + [p])[k] == posts[k];
  }

  /**
   * The id a JSON value equals under Python's `==` with an `int`: an
   * integer itself, or a boolean (`True == 1`, `False == 0`).
   */
  function IdOf(v: Value): Option<int> {
    match v
      case VInt(i) => Some(i)
      case VBool(b) => Some(if b then 1 else 0)
      case _ => None
  }

  /** `find_user(user_id)` called with a value from a request body. */
  function FindUserByValue(users: seq<User>, v: Value): (r: Option<User>)
    ensures r.Some? ==> r.value in users && IdOf(v) == Some(r.value.id)
    ensures r.None? <==> IdOf(v).None? || forall k :: 0 <= k < |users| ==> users[k].id != IdOf(v).value
  {
    match IdOf(v)
      case Some(n) => FindUser(users, n)
      case None => None
  }

  // ---------------------------------------------------------------------
  // The store invariant
  // ---------------------------------------------------------------------

  predicate UsersOk(users: seq<User>, nextUserId: int) {
    && DistinctUserIds(users)
    && forall i :: 0 <= i < |users| ==> users[i].id < nextUserId
  }

  /** Every post names an existing author. */
  predicate PostsOk(posts: seq<Post>, users: seq<User>, nextPostId: int) {
    && DistinctPostIds(posts)
    && (forall i :: 0 <= i < |posts| ==> posts[i].id < nextPostId)
    && forall i :: 0 <= i < |posts| ==> FindUser(users, posts[i].userId).Some?
  }

  /** Every comment is on an existing post and names an existing user. */
  predicate CommentsOk(comments: seq<Comment>, posts: seq<Post>, users: seq<User>, nextCommentId: int) {
    && DistinctCommentIds(comments)
    && (forall i :: 0 <= i < |comments| ==> comments[i].id < nextCommentId)
    && (forall i :: 0 <= i < |comments| ==> FindPost(posts, comments[i].postId).Some?)
    && forall i :: 0 <= i < |comments| ==> FindUserByValue(users, comments[i].userId).Some?
  }

  /** Appending a user with the next id keeps the user ids distinct and below the counter. */
  lemma AddUserIds(users: seq<User>, nextUserId: int, u: User)
    requires UsersOk(users, nextUserId) && u.id == nextUserId
    ensures UsersOk(users + [u], nextUserId + 1)
  {
  }

  /** Appending a user leaves every post's author found. */
  lemma AddUserAuthors(users: seq<User>, posts: seq<Post>, nextPostId: int, u: User)
    requires PostsOk(posts, users, nextPostId)
    ensures PostsOk(posts, users + [u], nextPostId)
  {
    forall i | 0 <= i < |posts| ensures FindUser(users + [u], posts[i].userId).Some? {
      FindUserAppend(users, u, posts[i].userId);
    }
  }

  /** Appending a user leaves every comment's user found. */
  lemma AddUserCommenters(users: seq<User>, posts: seq<Post>, comments: seq<Comment>, nextCommentId: int, u: User)
    requires CommentsOk(comments, posts, users, nextCommentId)
    ensures CommentsOk(comments, posts, users + [u], nextCommentId)
  {
    forall i | 0 <= i < |comments| ensures FindUserByValue(users + [u], comments[i].userId).Some? {
      FindUserAppend(users, u, IdOf(comments[i].userId).value);
    }
  }

  /** The seed data satisfies the invariant. */
  lemma SeedUsersOk()
    ensures UsersOk(SeedUsers, 3)
    ensures FindUser(SeedUsers, 1) == Some(SeedUsers[0]) && FindUser(SeedUsers, 2) == Some(SeedUsers[1])
  {
    FindUserExact(SeedUsers, SeedUsers[0]);
    FindUserExact(SeedUsers, SeedUsers[1]);
  }

  lemma SeedPostsOk()
    ensures PostsOk(SeedPosts, SeedUsers, 3)
    ensures FindPost(SeedPosts, 1).Some? && FindPost(SeedPosts, 2).Some?
  {
    SeedUsersOk();
    FindPostExact(SeedPosts, SeedPosts[0]);
    FindPostExact(SeedPosts, SeedPosts[1]);
  }

  lemma SeedCommentsOk()
    ensures CommentsOk(SeedComments, SeedPosts, SeedUsers, 3)
  {
    SeedUsersOk();
    SeedPostsOk();
    assert FindUserByValue(SeedUsers, SeedComments[0].userId).Some?;
    assert FindUserByValue(SeedUsers, SeedComments[1].userId).Some?;
  }

  /** Appending a post with the next id by an existing author keeps the invariant. */
  lemma AddPostKeeps(posts: seq<Post>, users: seq<User>, comments: seq<Comment>,
                     nextPostId: int, nextCommentId: int, p: Post)
    requires PostsOk(posts, users, nextPostId) && CommentsOk(comments, posts, users, nextCommentId)
    requires p.id == nextPostId && FindUser(users, p.userId).Some?
    ensures PostsOk(posts + [p], users, nextPostId + 1)
    ensures CommentsOk(comments, posts + [p], users, nextCommentId)
  {
    forall i | 0 <= i < |comments| ensures FindPost(posts + [p], comments[i].postId).Some? {
      FindPostAppend(posts, p, comments[i].postId);
    }
  }

  /** Appending a comment with the next id on an existing post by an existing user keeps the invariant. */
  lemma AddCommentKeeps(comments: seq<Comment>, posts: seq<Post>, users: seq<User>, nextCommentId: int, c: Comment)
    requires CommentsOk(comments, posts, users, nextCommentId)
    requires c.id == nextCommentId && FindPost(posts, c.postId).Some? && FindUserByValue(users, c.userId).Some?
    ensures CommentsOk(comments + [c], posts, users, nextCommentId + 1)
  {
  }

  // ---------------------------------------------------------------------
  // Reading the request body
  // ---------------------------------------------------------------------

  /**
   * `data.get(key, "").strip()`: only a dict has `.get`, and only a
   * string has `.strip`; both misses raise `AttributeError`.
   */
  function TextField(data: Value, key: string): (r: Result<string, Failure>)
    ensures r.Ok? <==> data.VDict? && (key !in Keys(data.entries) || Get(data.entries, key).value.VStr?)
    ensures r.Err? ==> r.error == Crash("AttributeError")
    ensures r.Ok? && key !in Keys(data.entries) ==> r.value == ""
    ensures r.Ok? && key in Keys(data.entries) ==> r.value == Strip(Get(data.entries, key).value.s)
  {
    if !data.VDict? then Err(Crash("AttributeError"))
    else match Get(data.entries, key)
      case None => Ok("")
      case Some(v) => if v.VStr? then Ok(Strip(v.s)) else Err(Crash("AttributeError"))
  }

  /** The stripped text a present string field yields. */
  lemma TextFieldOfString(data: Value, key: string, s: string)
    requires data.VDict? && Get(data.entries, key) == Some(VStr(s))
    ensures TextField(data, key) == Ok(Strip(s))
  {
  }

  // ---------------------------------------------------------------------
  // get_user
  // ---------------------------------------------------------------------

  /** The posts written by user `n`. */
  function ByAuthor(n: int): Post -> bool {
    (p: Post) => p.userId == n
  }

  /** The body of a successful `get_user`. */
  datatype UserPage = UserPage(user: User, posts: seq<Post>, postCount: int)

  /** `get_user(user_id)` */
  function GetUser(users: seq<User>, posts: seq<Post>, userId: string): (r: Result<UserPage, Failure>)
    ensures ParseInt(userId).None? <==> r == Err(Failure(400, "Invalid user ID"))
    ensures r == Err(Failure(404, "User not found")) <==>
      ParseInt(userId).Some? && FindUser(users, ParseInt(userId).value).None?
    ensures r.Ok? ==>
      && ParseInt(userId).Some? && r.value.user.id == ParseInt(userId).value && r.value.user in users
      && r.value.postCount == |r.value.posts|
      && Subsequence(r.value.posts, posts)
      && forall p :: p in r.value.posts <==> p in posts && p.userId == r.value.user.id
  {
    match ParseInt(userId)
      case None => Err(Failure(400, "Invalid user ID"))
      case Some(n) =>
        match FindUser(users, n)
          case None => Err(Failure(404, "User not found"))
          case Some(u) =>
            var mine := Filter(posts, ByAuthor(n));
            FilterMeaning(posts, ByAuthor(n));
            Ok(UserPage(u, mine, |mine|))
  }

  /** Asking for a stored user by its id in decimal finds that user. */
  lemma GetUserById(users: seq<User>, posts: seq<Post>, u: User)
    requires DistinctUserIds(users) && u in users
    ensures GetUser(users, posts, IntToString(u.id)).Ok?
    ensures GetUser(users, posts, IntToString(u.id)).value.user == u
  {
    ParseIntRoundTrip(u.id);
    FindUserExact(users, u);
  }

  /** A post created for a user shows up last on that user's page. */
  lemma CreatedPostListed(users: seq<User>, posts: seq<Post>, userId: string, p: Post)
    requires ParseInt(userId) == Some(p.userId)
    requires FindUser(users, p.userId).Some?
    ensures GetUser(users, posts + [p], userId).Ok?
    ensures GetUser(users, posts + [p], userId).value.posts == GetUser(users, posts, userId).value.posts + [p]
    ensures GetUser(users, posts + [p], userId).value.postCount == GetUser(users, posts, userId).value.postCount + 1
  {
    FilterAppend(posts, [p], ByAuthor(p.userId));
    assert Filter([p], ByAuthor(p.userId)) == [p];
  }

  // ---------------------------------------------------------------------
  // list_posts
  // ---------------------------------------------------------------------

  /** A copy of a post with its `author` added. */
  datatype AuthoredPost = AuthoredPost(post: Post, author: string)

  /** `user["username"] if user else "Unknown"` for the author of a post. */
  function AuthorName(users: seq<User>, userId: int): (name: string)
    ensures FindUser(users, userId).None? ==> name == "Unknown"
    ensures FindUser(users, userId).Some? ==> exists u :: u in users && u.id == userId && name == u.username
  {
    match FindUser(users, userId)
      case Some(u) => u.username
      case None => "Unknown"
  }

  /** Every author of a stored post is known, so no post is listed as `"Unknown"` unless its author is named so. */
  lemma KnownAuthors(users: seq<User>, posts: seq<Post>, nextPostId: int, i: nat)
    requires DistinctUserIds(users) && PostsOk(posts, users, nextPostId) && i < |posts|
    ensures exists u :: u in users && u.id == posts[i].userId && AuthorName(users, posts[i].userId) == u.username
    ensures forall u :: u in users && u.id == posts[i].userId ==> AuthorName(users, posts[i].userId) == u.username
  {
    forall u | u in users && u.id == posts[i].userId
      ensures AuthorName(users, posts[i].userId) == u.username
    {
      FindUserExact(users, u);
    }
  }

  // ---------------------------------------------------------------------
  // The store
  // ---------------------------------------------------------------------

  /** The module-level `users`, `posts`, `comments` and `next_*_id` of the application. */
  class DemoStore {
    var users: seq<User>
    var posts: seq<Post>
    var comments: seq<Comment>
    var nextUserId: int
    var nextPostId: int
    var nextCommentId: int

    ghost predicate Valid()
      reads this
    {
      && UsersOk(users, nextUserId)
      && PostsOk(posts, users, nextPostId)
      && CommentsOk(comments, posts, users, nextCommentId)
    }

    constructor ()
      ensures Valid()
      ensures users == SeedUsers && posts == SeedPosts && comments == SeedComments
      ensures nextUserId == 3 && nextPostId == 3 && nextCommentId == 3
    {
      users := SeedUsers;
      posts := SeedPosts;
      comments := SeedComments;
      nextUserId := 3;
      nextPostId := 3;
      nextCommentId := 3;
      SeedUsersOk();
      SeedPostsOk();
      SeedCommentsOk();
    }

    /** `list_posts()`: copies of the posts, each with its author's name; the stored posts are left alone. */
    method ListPosts() returns (r: seq<AuthoredPost>)
      ensures |r| == |posts|
      ensures forall i :: 0 <= i < |r| ==> r[i].post == posts[i] && r[i].author == AuthorName(users, posts[i].userId)
    {
      r := [];
      var i := 0;
      while i < |posts|
        invariant 0 <= i <= |posts| && |r| == i
        invariant forall k :: 0 <= k < i ==> r[k].post == posts[k] && r[k].author == AuthorName(users, posts[k].userId)
      {
        var post := posts[i];
        var user := FindUser(users, post.userId);
        var author := if user.Some? then user.value.username else "Unknown";
        r := r + [AuthoredPost(post, author)];
        i := i + 1;
      }
    }

    /** `users.append(new_user)` and `next_user_id += 1`. */
    method AddUser(u: User)
      requires Valid() && u.id == nextUserId
      modifies this
      ensures Valid()
      ensures users == old(users) + [u] && nextUserId == old(nextUserId) + 1
      ensures posts == old(posts) && comments == old(comments)
      ensures nextPostId == old(nextPostId) && nextCommentId == old(nextCommentId)
    {
      AddUserIds(users, nextUserId, u);
      AddUserAuthors(users, posts, nextPostId, u);
      AddUserCommenters(users, posts, comments, nextCommentId, u);
      users := users + [u];
      nextUserId := nextUserId + 1;
    }

    /** `create_user(request)`; success answers 201. */
    method CreateUser(json: Option<Value>) returns (r: Result<User, Failure>)
      requires Valid()
      modifies this
      ensures Valid()
      ensures json.None? ==> r == Err(Failure(400, "Invalid JSON"))
      ensures r.Ok? <==> json.Some? && NewUserFields(json.value).Ok?
      ensures r.Err? ==> unchanged(this)
      ensures r.Ok? ==>
        && r.value == User(old(nextUserId), NewUserFields(json.value).value.0, NewUserFields(json.value).value.1)
        && users == old(users) + [r.value] && nextUserId == old(nextUserId) + 1
        && posts == old(posts) && comments == old(comments)
        && nextPostId == old(nextPostId) && nextCommentId == old(nextCommentId)
      ensures json.Some? && NewUserFields(json.value).Err? ==> r == Err(NewUserFields(json.value).error)
    {
      if json.None? {
        return Err(Failure(400, "Invalid JSON"));
      }
      var fields := NewUserFields(json.value);
      if fields.Err? {
        return Err(fields.error);
      }
      var u := User(nextUserId, fields.value.0, fields.value.1);
      AddUser(u);
      r := Ok(u);
    }

    /** `posts.append(new_post)` and `next_post_id += 1`. */
    method AddPost(p: Post)
      requires Valid() && p.id == nextPostId && FindUser(users, p.userId).Some?
      modifies this
      ensures Valid()
      ensures posts == old(posts) + [p] && nextPostId == old(nextPostId) + 1
      ensures users == old(users) && comments == old(comments)
      ensures nextUserId == old(nextUserId) && nextCommentId == old(nextCommentId)
    {
      AddPostKeeps(posts, users, comments, nextPostId, nextCommentId, p);
      posts := posts + [p];
      nextPostId := nextPostId + 1;
    }

    /**
     * `create_user_post(user_id, request)`: the id, then the user, then the
     * body are checked before anything is stored; success answers 201.
     */
    method CreateUserPost(userId: string, json: Option<Value>) returns (r: Result<Post, Failure>)
      requires Valid()
      modifies this
      ensures Valid()
      ensures ParseInt(userId).None? ==> r == Err(Failure(400, "Invalid user ID"))
      ensures ParseInt(userId).Some? && FindUser(old(users), ParseInt(userId).value).None? ==>
        r == Err(Failure(404, "User not found"))
      ensures ParseInt(userId).Some? && FindUser(old(users), ParseInt(userId).value).Some? ==>
        && (json.None? ==> r == Err(Failure(400, "Invalid JSON")))
        && (json.Some? ==> (r.Ok? <==> NewPostFields(json.value).Ok?))
        && (json.Some? && NewPostFields(json.value).Err? ==> r == Err(NewPostFields(json.value).error))
      ensures r.Err? ==> unchanged(this)
      ensures r.Ok? ==>
        && ParseInt(userId).Some? && json.Some? && NewPostFields(json.value).Ok?
        && r.value == Post(old(nextPostId), NewPostFields(json.value).value.0, NewPostFields(json.value).value.1,
                           ParseInt(userId).value)
        && posts == old(posts) + [r.value] && nextPostId == old(nextPostId) + 1
        && users == old(users) && comments == old(comments)
        && nextUserId == old(nextUserId) && nextCommentId == old(nextCommentId)
    {
      var parsed := ParseInt(userId);
      if parsed.None? {
        return Err(Failure(400, "Invalid user ID"));
      }
      var n := parsed.value;
      if FindUser(users, n).None? {
        return Err(Failure(404, "User not found"));
      }
      if json.None? {
        return Err(Failure(400, "Invalid JSON"));
      }
      var fields := NewPostFields(json.value);
      if fields.Err? {
        return Err(fields.error);
      }
      var p := Post(nextPostId, fields.value.0, fields.value.1, n);
      AddPost(p);
      r := Ok(p);
    }

    /** `comments.append(new_comment)` and `next_comment_id += 1`. */
    method AddComment(c: Comment)
      requires Valid() && c.id == nextCommentId
      requires FindPost(posts, c.postId).Some? && FindUserByValue(users, c.userId).Some?
      modifies this
      ensures Valid()
      ensures comments == old(comments) + [c] && nextCommentId == old(nextCommentId) + 1
      ensures users == old(users) && posts == old(posts)
      ensures nextUserId == old(nextUserId) && nextPostId == old(nextPostId)
    {
      AddCommentKeeps(comments, posts, users, nextCommentId, c);
      comments := comments + [c];
      nextCommentId := nextCommentId + 1;
    }

    /**
     * `create_post_comment(post_id, request)`: the post must exist, the
     * content must not be blank and `user_id` must name an existing user;
     * success answers 201.
     */
    method CreatePostComment(postId: string, json: Option<Value>) returns (r: Result<Comment, Failure>)
      requires Valid()
      modifies this
      ensures Valid()
      ensures ParseInt(postId).None? ==> r == Err(Failure(400, "Invalid post ID"))
      ensures ParseInt(postId).Some? && FindPost(old(posts), ParseInt(postId).value).None? ==>
        r == Err(Failure(404, "Post not found"))
      ensures ParseInt(postId).Some? && FindPost(old(posts), ParseInt(postId).value).Some? ==>
        && (json.None? ==> r == Err(Failure(400, "Invalid JSON")))
        && (json.Some? ==> (r.Ok? <==> NewCommentFields(old(users), json.value).Ok?))
        && (json.Some? && NewCommentFields(old(users), json.value).Err? ==>
              r == Err(NewCommentFields(old(users), json.value).error))
      ensures r.Err? ==> unchanged(this)
      ensures r.Ok? ==>
        && ParseInt(postId).Some? && json.Some? && NewCommentFields(old(users), json.value).Ok?
        && r.value == Comment(old(nextCommentId), ParseInt(postId).value,
                              NewCommentFields(old(users), json.value).value.1,
                              NewCommentFields(old(users), json.value).value.0)
        && FindUserByValue(old(users), r.value.userId).Some?
        && comments == old(comments) + [r.value] && nextCommentId == old(nextCommentId) + 1
        && users == old(users) && posts == old(posts)
        && nextUserId == old(nextUserId) && nextPostId == old(nextPostId)
    {
      var parsed := ParseInt(postId);
      if parsed.None? {
        return Err(Failure(400, "Invalid post ID"));
      }
      var n := parsed.value;
      if FindPost(posts, n).None? {
        return Err(Failure(404, "Post not found"));
      }
      if json.None? {
        return Err(Failure(400, "Invalid JSON"));
      }
      var fields := NewCommentFields(users, json.value);
      if fields.Err? {
        return Err(fields.error);
      }
      var c := Comment(nextCommentId, n, fields.value.1, fields.value.0);
      AddComment(c);
      r := Ok(c);
    }
  }

  // ---------------------------------------------------------------------
  // The body checks of the create handlers
  // ---------------------------------------------------------------------

  /** The stripped username and email `create_user` stores, or why it refuses. */
  function NewUserFields(data: Value): (r: Result<(string, string), Failure>)
    ensures r.Ok? <==> (TextField(data, "username").Ok? && TextField(data, "email").Ok? &&
                        TextField(data, "username").value != "" && TextField(data, "email").value != "")
    ensures r.Ok? ==> r.value.0 != "" && r.value.1 != "" && Strip(r.value.0) == r.value.0 && Strip(r.value.1) == r.value.1
    ensures r.Err? ==> r.error == Crash("AttributeError") || r.error == Failure(400, "Username and email are required")
  {
    match TextField(data, "username")
      case Err(e) => Err(e)
      case Ok(name) =>
        match TextField(data, "email")
          case Err(e) => Err(e)
          case Ok(email) =>
            if name == "" || email == "" then Err(Failure(400, "Username and email are required"))
            else
              StripIdempotentOf(data, "username");
              StripIdempotentOf(data, "email");
              Ok((name, email))
  }

  /** The stripped title and content `create_user_post` stores, or why it refuses. */
  function NewPostFields(data: Value): (r: Result<(string, string), Failure>)
    ensures r.Ok? <==> (TextField(data, "title").Ok? && TextField(data, "content").Ok? &&
                        TextField(data, "title").value != "" && TextField(data, "content").value != "")
    ensures r.Ok? ==> r.value.0 != "" && r.value.1 != "" && Strip(r.value.0) == r.value.0 && Strip(r.value.1) == r.value.1
    ensures r.Err? ==> r.error == Crash("AttributeError") || r.error == Failure(400, "Title and content are required")
  {
    match TextField(data, "title")
      case Err(e) => Err(e)
      case Ok(title) =>
        match TextField(data, "content")
          case Err(e) => Err(e)
          case Ok(content) =>
            if title == "" || content == "" then Err(Failure(400, "Title and content are required"))
            else
              StripIdempotentOf(data, "title");
              StripIdempotentOf(data, "content");
              Ok((title, content))
  }

  /**
   * The stripped content and the `user_id` value `create_post_comment`
   * stores, or why it refuses: blank content first, then a falsy or
   * unknown `user_id`.
   */
  function NewCommentFields(users: seq<User>, data: Value): (r: Result<(string, Value), Failure>)
    ensures r.Ok? <==> (TextField(data, "content").Ok? && TextField(data, "content").value != "" &&
                        Truthy(UserIdField(data)) && FindUserByValue(users, UserIdField(data)).Some?)
    ensures r.Ok? ==> r.value.1 == UserIdField(data) && r.value.0 != "" && Strip(r.value.0) == r.value.0
    ensures r.Err? ==> r.error in {Crash("AttributeError"), Failure(400, "Content is required"),
                                   Failure(400, "Valid user_id is required")}
  {
    match TextField(data, "content")
      case Err(e) => Err(e)
      case Ok(content) =>
        var userId := UserIdField(data);
        if content == "" then Err(Failure(400, "Content is required"))
        else if !Truthy(userId) || FindUserByValue(users, userId).None? then Err(Failure(400, "Valid user_id is required"))
        else
          StripIdempotentOf(data, "content");
          Ok((content, userId))
  }

  /** `data.get("user_id")` on a body already known to be a dict. */
  function UserIdField(data: Value): (v: Value)
    ensures data.VDict? && "user_id" !in Keys(data.entries) ==> v == VNone
    ensures data.VDict? && "user_id" in Keys(data.entries) ==> ("user_id", v) in data.entries
  {
    if !data.VDict? then VNone
    else match Get(data.entries, "user_id")
      case Some(v) => v
      case None => VNone
  }

  /** A field read with `TextField` is already stripped. */
  lemma StripIdempotentOf(data: Value, key: string)
    requires TextField(data, key).Ok?
    ensures Strip(TextField(data, key).value) == TextField(data, key).value
  {
    match Get(data.entries, key) {
      case None =>
      case Some(v) => StripIdempotent(v.s);
    }
  }
}
