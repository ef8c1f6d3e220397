/**
 * The blog example's post routes (`routes/posts.py`): slugs, lookup by id
 * or slug, the listing with its filters and pagination, and the store of
 * posts that creation, update, deletion, likes and views change.
 *
 * The store is a class whose `posts` field is the module's list of post
 * records and whose `nextPostId` is its counter. Time stamps, the HTML
 * cleaner and the listing's sort are parameters.
 */
module BlogPosts {
  import opened Common
  import opened Text
  import opened OrderedDict
  import opened Values
  import opened Seqs
  import opened BlogValidation

  /** One stored post (`PostDict`). */
  datatype Post = Post(
    id: int, title: string, slug: string, content: string, summary: string,
    authorId: int, authorUsername: string, category: string, tags: seq<string>,
    status: string, featuredImage: Option<string>,
    viewCount: int, likeCount: int, commentCount: int,
    createdAt: string, updatedAt: string, publishedAt: Option<string>)

  predicate Published(p: Post) { p.status == "published" }

  // ---------------------------------------------------------------------
  // generate_slug
  // ---------------------------------------------------------------------

  /** `[a-z0-9-]`: what a slug is made of. */
  predicate IsSlugChar(c: char) { IsAsciiLower(c) || IsDigit(c) || c == '-' }

  /** What `re.sub(r"[^a-z0-9\s-]", "", s)` keeps. */
  predicate Kept(c: char) { IsSlugChar(c) || IsSpace(c) }

  /** `re.sub(r"\s+", "-", s)`: every run of whitespace becomes one `-`. */
  function CollapseSpaces(s: string): (r: string)
    ensures forall i :: 0 <= i < |r| ==> !IsSpace(r[i])
    decreases |s|
  {
    if s == [] then []
    else if IsSpace(s[0]) then "-" + CollapseSpaces(TrimLeft(s[1..]))
    else [s[0]] + CollapseSpaces(s[1..])
  }

  /** Collapsing the spaces of kept characters leaves only slug characters. */
  lemma {:induction false} CollapseKeepsSlugChars(s: string)
    requires AllChars(s, Kept)
    ensures AllChars(CollapseSpaces(s), IsSlugChar)
    decreases |s|
  {
    if s != [] {
      if IsSpace(s[0]) {
        var rest := TrimLeft(s[1..]);
        KeptSuffix(s[1..], |s[1..]| - |rest|);
        CollapseKeepsSlugChars(rest);
        SlugCharsCons('-', CollapseSpaces(rest));
      } else {
        KeptSuffix(s, 1);
        CollapseKeepsSlugChars(s[1..]);
        SlugCharsCons(s[0], CollapseSpaces(s[1..]));
      }
    }
  }

  lemma KeptSuffix(s: string, k: nat)
    requires k <= |s| && AllChars(s, Kept)
    ensures AllChars(s[k..], Kept)
  {
    forall i | 0 <= i < |s| - k ensures Kept(s[k..][i]) {
      assert s[k..][i] == s[k + i];
    }
  }

  lemma SlugCharsCons(c: char, t: string)
    requires IsSlugChar(c) && AllChars(t, IsSlugChar)
    ensures AllChars([c] + t, IsSlugChar)
  {
    forall i | 0 <= i < |[c] + t| ensures IsSlugChar(([c] + t)[i]) {
      if i > 0 {
        assert ([c] + t)[i] == t[i - 1];
      }
    }
  }

  /** Text with no whitespace is left as it is. */
  lemma {:induction false} CollapseWithoutSpaces(s: string)
    requires forall i :: 0 <= i < |s| ==> !IsSpace(s[i])
    ensures CollapseSpaces(s) == s
  {
    if s != [] {
      CollapseWithoutSpaces(s[1..]);
    }
  }

  /** `generate_slug(title)` */
  function GenerateSlug(title: string): (r: string)
    ensures AllChars(r, IsSlugChar)
    ensures r == [] || (r[0] != '-' && r[|r| - 1] != '-')
  {
    var kept := Filter(Lower(title), Kept);
    var dashed := CollapseSpaces(kept);
    CollapseKeepsSlugChars(kept);
    var r := StripChar(dashed, '-');
    assert AllChars(r, IsSlugChar) by {
      forall i | 0 <= i < |r| ensures IsSlugChar(r[i]) {
        assert r[i] in dashed;
      }
    }
    r
  }

  /** A slug is its own slug. */
  lemma GenerateSlugIdempotent(title: string)
    ensures GenerateSlug(GenerateSlug(title)) == GenerateSlug(title)
  {
    SlugIsFixed(GenerateSlug(title));
  }

  /** Text already in slug form, with no `-` at either end, is left as it is. */
  lemma SlugIsFixed(s: string)
    requires AllChars(s, IsSlugChar) && (s == [] || (s[0] != '-' && s[|s| - 1] != '-'))
    ensures GenerateSlug(s) == s
  {
    assert Lower(s) == s;
    FilterAll(s, Kept);
    SlugHasNoSpace(s);
    if s != [] {
      assert StripChar(s, '-') == s;
    }
  }

  lemma SlugHasNoSpace(s: string)
    requires AllChars(s, IsSlugChar)
    ensures CollapseSpaces(s) == s
  {
    assert forall i :: 0 <= i < |s| ==> !IsSpace(s[i]);
    CollapseWithoutSpaces(s);
  }

  // ---------------------------------------------------------------------
  // Slug de-duplication
  // ---------------------------------------------------------------------

  /** The k-th slug tried: the base, then `base-1`, `base-2`, ... */
  function Candidate(base: string, k: nat): string {
    if k == 0 then base else base + "-" + NatToString(k)
  }

  lemma CandidateInjective(base: string, j: nat, k: nat)
    requires Candidate(base, j) == Candidate(base, k)
    ensures j == k
  {
    if j != 0 && k != 0 {
      var a, b := Candidate(base, j), Candidate(base, k);
      assert a[|base| + 1..] == NatToString(j);
      assert b[|base| + 1..] == NatToString(k);
      NatToStringInjective(j, k);
    }
  }

  /** `slug` is the first candidate not among `taken`. */
  ghost predicate FirstFree(base: string, taken: seq<string>, slug: string) {
    && slug !in taken
    && exists k: nat :: slug == Candidate(base, k) && forall j: nat :: j < k ==> Candidate(base, j) in taken
  }

  /** Only one slug is the first free one: the loop's answer is determined by its inputs. */
  lemma FirstFreeUnique(base: string, taken: seq<string>, s1: string, s2: string)
    requires FirstFree(base, taken, s1) && FirstFree(base, taken, s2)
    ensures s1 == s2
  {
    var k1: nat :| s1 == Candidate(base, k1) && forall j: nat :: j < k1 ==> Candidate(base, j) in taken;
    var k2: nat :| s2 == Candidate(base, k2) && forall j: nat :: j < k2 ==> Candidate(base, j) in taken;
    assert Candidate(base, k1) !in taken && Candidate(base, k2) !in taken;
  }

  /** A free base slug is used as it is. */
  lemma FirstFreeBase(base: string, taken: seq<string>, slug: string)
    requires base !in taken && FirstFree(base, taken, slug)
    ensures slug == base
  {
    var k: nat :| slug == Candidate(base, k) && forall j: nat :: j < k ==> Candidate(base, j) in taken;
    assert k == 0 by {
      assert Candidate(base, 0) !in taken;
    }
  }

  /**
   * The `while any(p["slug"] == slug ...)` loop: tries the candidates in
   * turn and stops at the first one no listed slug equals.
   */
  method FreeSlug(base: string, taken: seq<string>) returns (slug: string)
    ensures FirstFree(base, taken, slug)
  {
    slug := base;
    var counter := 1;
    ghost var tried: set<string> := {};
    ghost var pool := set s | s in taken;
    while slug in taken
      invariant counter >= 1 && slug == Candidate(base, counter - 1)
      invariant forall j: nat :: j < counter - 1 ==> Candidate(base, j) in taken
      invariant tried <= pool
      invariant forall x :: x in tried ==> exists j: nat :: j < counter - 1 && x == Candidate(base, j)
      decreases |pool - tried|
    {
      NotYetTried(base, counter, tried);
      RemainingShrinks(pool, tried, slug);
      tried := tried + {slug};
      slug := base + "-" + NatToString(counter);
      counter := counter + 1;
    }
  }

  /** The candidate about to be tried is none of those tried before. */
  lemma NotYetTried(base: string, counter: nat, tried: set<string>)
    requires counter >= 1
    requires forall x :: x in tried ==> exists j: nat :: j < counter - 1 && x == Candidate(base, j)
    ensures Candidate(base, counter - 1) !in tried
  {
    if Candidate(base, counter - 1) in tried {
      var j: nat :| j < counter - 1 && Candidate(base, counter - 1) == Candidate(base, j);
      CandidateInjective(base, j, counter - 1);
    }
  }

  lemma RemainingShrinks(pool: set<string>, tried: set<string>, x: string)
    requires x in pool && x !in tried
    ensures |pool - (tried + {x})| < |pool - tried|
  {
    assert (pool - (tried + {x})) + {x} == pool - tried;
  }

  /** The slugs `create_post` must avoid: every stored post's. */
  function Slugs(posts: seq<Post>): (r: seq<string>)
    ensures |r| == |posts| && forall i :: 0 <= i < |posts| ==> r[i] == posts[i].slug
  {
    if posts == [] then [] else [posts[0].slug] + Slugs(posts[1..])
  }

  /** The slugs `_update_post_title` must avoid: those of the posts with another id. */
  function SlugsExcept(posts: seq<Post>, id: int): (r: seq<string>)
    ensures forall s :: s in r <==> exists i :: 0 <= i < |posts| && posts[i].id != id && posts[i].slug == s
  {
    if posts == [] then []
    else
      var rest := SlugsExcept(posts[1..], id);
      assert forall i :: 1 <= i < |posts| ==> posts[i] == posts[1..][i - 1];
      (if posts[0].id != id then [posts[0].slug] else []) + rest
  }

  // ---------------------------------------------------------------------
  // get_post_by_id_or_slug
  // ---------------------------------------------------------------------

  /** `get_post_by_id_or_slug(identifier)`: the position of the post found. */
  function Lookup(posts: seq<Post>, ident: string): (r: Option<nat>)
    ensures r.Some? ==> r.value < |posts|
  {
    match ParseInt(ident)
      case Some(n) => FirstWhere(posts, (p: Post) => p.id == n)
      case None => FirstWhere(posts, (p: Post) => p.slug == ident)
  }

  /**
   * An identifier that reads as an integer finds the first post with that
   * id, any other the first post with that slug; `None` when there is none.
   */
  lemma LookupMeaning(posts: seq<Post>, ident: string)
    ensures ParseInt(ident).Some? && Lookup(posts, ident).Some? ==>
      var k := Lookup(posts, ident).value;
      posts[k].id == ParseInt(ident).value && forall j :: 0 <= j < k ==> posts[j].id != ParseInt(ident).value
    ensures ParseInt(ident).Some? && Lookup(posts, ident).None? ==>
      forall j :: 0 <= j < |posts| ==> posts[j].id != ParseInt(ident).value
    ensures ParseInt(ident).None? && Lookup(posts, ident).Some? ==>
      var k := Lookup(posts, ident).value;
      posts[k].slug == ident && forall j :: 0 <= j < k ==> posts[j].slug != ident
    ensures ParseInt(ident).None? && Lookup(posts, ident).None? ==>
      forall j :: 0 <= j < |posts| ==> posts[j].slug != ident
  {
  }

  /** No two posts share an id. */
  predicate UniqueIds(posts: seq<Post>) {
    forall i, j :: 0 <= i < j < |posts| ==> posts[i].id != posts[j].id
  }

  /** No two posts share a slug. */
  predicate UniqueSlugs(posts: seq<Post>) {
    forall i, j :: 0 <= i < j < |posts| ==> posts[i].slug != posts[j].slug
  }

  /** With ids unique, the decimal form of a post's id finds that post. */
  lemma LookupById(posts: seq<Post>, i: nat)
    requires UniqueIds(posts) && i < |posts|
    ensures Lookup(posts, IntToString(posts[i].id)) == Some(i)
  {
    ParseIntRoundTrip(posts[i].id);
    LookupMeaning(posts, IntToString(posts[i].id));
  }

  /** With slugs unique, a slug that does not read as an integer finds its post. */
  lemma LookupBySlug(posts: seq<Post>, i: nat)
    requires UniqueSlugs(posts) && i < |posts| && ParseInt(posts[i].slug).None?
    ensures Lookup(posts, posts[i].slug) == Some(i)
  {
    LookupMeaning(posts, posts[i].slug);
  }

  /**
   * An identifier that reads as an integer is only ever compared with ids:
   * a post whose slug is `"2024"` is not found by that slug unless some
   * post has id 2024.
   */
  lemma NumericSlugUnreachable(posts: seq<Post>, i: nat, n: int)
    requires i < |posts| && posts[i].slug == IntToString(n)
    requires forall j :: 0 <= j < |posts| ==> posts[j].id != n
    ensures Lookup(posts, posts[i].slug) == None
  {
    ParseIntRoundTrip(n);
    LookupMeaning(posts, posts[i].slug);
  }

  // ---------------------------------------------------------------------
  // get_posts: filters
  // ---------------------------------------------------------------------

  /** The stripped `search`, `category`, `tag` and `author` query parameters. */
  datatype Filters = Filters(search: string, category: string, tag: string, author: string)

  /** The search test: the lower-cased needle occurs in a lower-cased text field or the joined tags. */
  predicate MatchesSearch(p: Post, needle: string) {
    || ContainsSub(Lower(p.title), needle)
    || ContainsSub(Lower(p.content), needle)
    || ContainsSub(Lower(p.summary), needle)
    || ContainsSub(Lower(Join(p.tags, " ")), needle)
  }

  predicate SearchOk(f: Filters, p: Post) { f.search == "" || MatchesSearch(p, Lower(f.search)) }
  predicate CategoryOk(f: Filters, p: Post) { f.category == "" || p.category == f.category }
  predicate TaggedOk(f: Filters, p: Post) { f.tag == "" || f.tag in p.tags }
  predicate AuthorOk(f: Filters, p: Post) { f.author == "" || p.authorUsername == f.author }

  /** A post the listing keeps: published and passing every filter that is set. */
  predicate Selected(f: Filters, p: Post) {
    Published(p) && SearchOk(f, p) && CategoryOk(f, p) && TaggedOk(f, p) && AuthorOk(f, p)
  }

  /** The four narrowing conditions of `get_posts`, as function values. */
  function SearchQ(f: Filters): Post -> bool { (p: Post) => MatchesSearch(p, Lower(f.search)) }
  function CategoryQ(f: Filters): Post -> bool { (p: Post) => p.category == f.category }
  function TagQ(f: Filters): Post -> bool { (p: Post) => f.tag in p.tags }
  function AuthorQ(f: Filters): Post -> bool { (p: Post) => p.authorUsername == f.author }

  /** `if param: filtered_posts = [p for p in filtered_posts if q(p)]` */
  function Narrow(xs: seq<Post>, on: bool, q: Post -> bool): seq<Post> {
    if on then Filter(xs, q) else xs
  }

  /** `filtered_posts` of `get_posts`: the published posts, narrowed by each filter that is set, in turn. */
  function Filtered(posts: seq<Post>, f: Filters): seq<Post> {
    var published := Filter(posts, Published);
    var searched := Narrow(published, f.search != "", SearchQ(f));
    var inCategory := Narrow(searched, f.category != "", CategoryQ(f));
    var tagged := Narrow(inCategory, f.tag != "", TagQ(f));
    Narrow(tagged, f.author != "", AuthorQ(f))
  }

  /** One optional narrowing step keeps the order of what it keeps. */
  lemma NarrowKeepsOrder(xs: seq<Post>, on: bool, q: Post -> bool)
    ensures Subsequence(Narrow(xs, on, q), xs)
  {
    if on {
      FilterMeaning(xs, q);
    } else {
      SubsequenceRefl(xs);
    }
  }

  lemma {:induction false} SubsequenceRefl(xs: seq<Post>)
    ensures Subsequence(xs, xs)
  {
    if xs != [] {
      SubsequenceRefl(xs[1..]);
    }
  }

  /**
   * The listing before sorting keeps the stored order and holds exactly
   * the published posts that pass every filter that is set.
   */
  lemma FilteredMeaning(posts: seq<Post>, f: Filters)
    ensures Subsequence(Filtered(posts, f), posts)
    ensures forall p :: p in Filtered(posts, f) <==> p in posts && Selected(f, p)
  {
    FilteredOrder(posts, f);
    forall p
      ensures p in Filtered(posts, f) <==> p in posts && Selected(f, p)
    {
      FilteredMember(posts, f, p);
    }
  }

  lemma FilteredOrder(posts: seq<Post>, f: Filters)
    ensures Subsequence(Filtered(posts, f), posts)
  {
    var published := Filter(posts, Published);
    FilterMeaning(posts, Published);
    var searched := Narrow(published, f.search != "", SearchQ(f));
    NarrowKeepsOrder(published, f.search != "", SearchQ(f));
    var inCategory := Narrow(searched, f.category != "", CategoryQ(f));
    NarrowKeepsOrder(searched, f.category != "", CategoryQ(f));
    var tagged := Narrow(inCategory, f.tag != "", TagQ(f));
    NarrowKeepsOrder(inCategory, f.tag != "", TagQ(f));
    var r := Narrow(tagged, f.author != "", AuthorQ(f));
    NarrowKeepsOrder(tagged, f.author != "", AuthorQ(f));
    SubsequenceTrans(searched, published, posts);
    SubsequenceTrans(inCategory, searched, posts);
    SubsequenceTrans(tagged, inCategory, posts);
    SubsequenceTrans(r, tagged, posts);
  }

  lemma FilteredMember(posts: seq<Post>, f: Filters, p: Post)
    ensures p in Filtered(posts, f) <==> p in posts && Selected(f, p)
  {
    var published := Filter(posts, Published);
    FilterMeaning(posts, Published);
    var searched := Narrow(published, f.search != "", SearchQ(f));
    NarrowMember(published, f.search != "", SearchQ(f), p);
    var inCategory := Narrow(searched, f.category != "", CategoryQ(f));
    NarrowMember(searched, f.category != "", CategoryQ(f), p);
    var tagged := Narrow(inCategory, f.tag != "", TagQ(f));
    NarrowMember(inCategory, f.tag != "", TagQ(f), p);
    NarrowMember(tagged, f.author != "", AuthorQ(f), p);
  }

  lemma NarrowMember(xs: seq<Post>, on: bool, q: Post -> bool, p: Post)
    ensures p in Narrow(xs, on, q) <==> p in xs && (!on || q(p))
  {
    if on {
      FilterMeaning(xs, q);
    }
  }

  // ---------------------------------------------------------------------
  // get_posts: pagination
  // ---------------------------------------------------------------------

  /** The pagination block of the listing. */
  datatype Pagination = Pagination(page: int, perPage: int, total: nat, totalPages: int, hasNext: bool, hasPrev: bool)

  /** `int(query_params.get(key, default))`; `None` where `int()` raises `ValueError`. */
  function QueryInt(query: Dict<string, string>, key: string, default: int): Option<int> {
    match Get(query, key)
      case None => Some(default)
      case Some(s) => ParseInt(s)
  }

  /** `page` and `per_page`: capped at 50, and both back to 1 and 10 if either does not parse. */
  function PageSize(query: Dict<string, string>): (r: (int, int))
    ensures r.1 <= 50
    ensures (QueryInt(query, "page", 1).None? || QueryInt(query, "per_page", 10).None?) ==> r == (1, 10)
  {
    match (QueryInt(query, "page", 1), QueryInt(query, "per_page", 10))
      case (Some(page), Some(perPage)) => (page, if perPage < 50 then perPage else 50)
      case _ => (1, 10)
  }

  /** One page of `items` and its metadata. */
  function Paginate<T>(items: seq<T>, page: int, perPage: int): (seq<T>, Pagination)
    requires perPage != 0
  {
    var start := (page - 1) * perPage;
    var total := |items|;
    var totalPages := FloorDiv(total + perPage - 1, perPage);
    (PySlice(items, start, start + perPage),
     Pagination(page, perPage, total, totalPages, page < totalPages, page > 1))
  }

  /** `total_pages` is the number of pages of `per_page` items needed to show every item. */
  lemma TotalPagesIsCeiling<T>(items: seq<T>, page: int, perPage: int)
    requires perPage >= 1
    ensures var tp := Paginate(items, page, perPage).1.totalPages;
      tp >= 0 && tp * perPage >= |items| && (tp == 0 || (tp - 1) * perPage < |items|)
  {
  }

  /** For `page >= 1` the page is the window `[(page-1)*per_page, page*per_page)` of the items, cut at the end. */
  lemma PageWindow<T>(items: seq<T>, page: int, perPage: int)
    requires perPage >= 1 && page >= 1
    ensures var start := (page - 1) * perPage;
      var shown := Paginate(items, page, perPage).0;
      && (start >= |items| ==> shown == [])
      && (start < |items| ==> shown == items[start..if start + perPage < |items| then start + perPage else |items|])
  {
    var start := (page - 1) * perPage;
    assert start >= 0 by {
      assert page - 1 >= 0;
    }
  }

  /** `has_next` holds exactly when items remain after the page. */
  lemma HasNextIff<T>(items: seq<T>, page: int, perPage: int)
    requires perPage >= 1
    ensures Paginate(items, page, perPage).1.hasNext <==> page * perPage < |items|
  {
    var tp := FloorDiv(|items| + perPage - 1, perPage);
    TotalPagesIsCeiling(items, page, perPage);
    if page < tp {
      assert page <= tp - 1;
      assert page * perPage <= (tp - 1) * perPage by {
        MulMono(page, tp - 1, perPage);
      }
    } else {
      assert tp <= page;
      assert tp * perPage <= page * perPage by {
        MulMono(tp, page, perPage);
      }
    }
  }

  lemma MulMono(a: int, b: int, c: int)
    requires a <= b && c >= 0
    ensures a * c <= b * c
  {
    assert b * c - a * c == (b - a) * c;
  }

  // ---------------------------------------------------------------------
  // get_posts
  // ---------------------------------------------------------------------

  /** `query_params.get(key, "")`. */
  function Param(query: Dict<string, string>, key: string, default: string): string {
    match Get(query, key)
      case Some(v) => v
      case None => default
  }

  /** The sort keys `get_posts` honours; any other `sort` leaves the filtered order. */
  const SortKeys := ["created_at", "updated_at", "published_at", "view_count", "like_count"]

  /** The listing `get_posts` answers. */
  datatype Listing = Listing(page: seq<Post>, pagination: Pagination, filters: Filters, sort: string, order: string)

  /** The request's filters, stripped. */
  function QueryFilters(query: Dict<string, string>): Filters {
    Filters(Strip(Param(query, "search", "")), Strip(Param(query, "category", "")),
            Strip(Param(query, "tag", "")), Strip(Param(query, "author", "")))
  }

  /**
   * The sorting step. The sort is a parameter: `sortPosts(posts, key,
   * descending)` stands for `list.sort(key=..., reverse=...)`.
   */
  function Ordered(filtered: seq<Post>, query: Dict<string, string>,
                   sortPosts: (seq<Post>, string, bool) -> seq<Post>): seq<Post> {
    var sortBy := Param(query, "sort", "created_at");
    if sortBy in SortKeys then sortPosts(filtered, sortBy, Param(query, "order", "desc") == "desc") else filtered
  }

  /** `get_posts(request)`. A `per_page` of 0 reaches `// per_page` and raises `ZeroDivisionError`. */
  function GetPosts(posts: seq<Post>, query: Dict<string, string>,
                    sortPosts: (seq<Post>, string, bool) -> seq<Post>): (r: Result<Listing, Problem>)
    ensures r.Err? <==> PageSize(query).1 == 0
    ensures r.Ok? ==> r.value.filters == QueryFilters(query)
    ensures r.Ok? ==> r.value.pagination.total == |Filtered(posts, r.value.filters)|
    ensures r.Ok? ==> forall p :: p in r.value.page ==> p in Ordered(Filtered(posts, QueryFilters(query)), query, sortPosts)
  {
    var f := QueryFilters(query);
    var filtered := Filtered(posts, f);
    var sorted := Ordered(filtered, query, sortPosts);
    var size := PageSize(query);
    if size.1 == 0 then Err(Crash("ZeroDivisionError"))
    else
      var pg := Paginate(sorted, size.0, size.1);
      PageFrom(sorted, size.0, size.1);
      Ok(Listing(pg.0, pg.1.(total := |filtered|), f, Param(query, "sort", "created_at"), Param(query, "order", "desc")))
  }

  /** A page holds only listed items. */
  lemma PageFrom<T>(items: seq<T>, page: int, perPage: int)
    requires perPage != 0
    ensures forall x :: x in Paginate(items, page, perPage).0 ==> x in items
  {
    var start := (page - 1) * perPage;
    var lo, hi := SliceBound(start, |items|), SliceBound(start + perPage, |items|);
    forall x | x in Paginate(items, page, perPage).0 ensures x in items {
      var k :| 0 <= k < |items[lo..hi]| && items[lo..hi][k] == x;
      assert items[lo + k] == x;
    }
  }

  /**
   * Whatever the sort does, as long as it only reorders: every post on a
   * page is a stored published post passing every filter that is set.
   */
  lemma GetPostsMeaning(posts: seq<Post>, query: Dict<string, string>,
                        sortPosts: (seq<Post>, string, bool) -> seq<Post>)
    requires forall xs, k, d :: multiset(sortPosts(xs, k, d)) == multiset(xs)
    requires GetPosts(posts, query, sortPosts).Ok?
    ensures var l := GetPosts(posts, query, sortPosts).value;
      forall p :: p in l.page ==> p in posts && Selected(l.filters, p)
  {
    var f := QueryFilters(query);
    var filtered := Filtered(posts, f);
    FilteredMeaning(posts, f);
    var sorted := Ordered(filtered, query, sortPosts);
    assert multiset(sorted) == multiset(filtered);
    forall p | p in sorted
      ensures p in filtered
    {
      assert p in multiset(sorted);
    }
  }

  // ---------------------------------------------------------------------
  // update_post and its helpers
  // ---------------------------------------------------------------------

  /** A post after some update steps, and the problem that stopped them, if one did. */
  datatype Outcome = Outcome(post: Post, problem: Option<Problem>)

  /** The `title` step: the stripped new title, if the body sets one. */
  function TitleChange(data: Value): (r: Result<Option<string>, Problem>)
    ensures r.Ok? && r.value.Some? ==> r.value.value != [] && Strip(r.value.value) == r.value.value
    ensures Read(data, "title") == Ok(None) ==> r == Ok(None)
    ensures SentText(data, "title").Some? ==>
      var title := Strip(SentText(data, "title").value);
      r == if title == [] then Err(Invalid("title", "Title cannot be empty")) else Ok(Some(title))
    ensures Read(data, "title") != Ok(None) && SentText(data, "title").None? ==> r.Err?
  {
    match Read(data, "title")
      case Err(e) => assert SentText(data, "title").None?; Err(e)
      case Ok(None) => Ok(None)
      case Ok(Some(v)) =>
        if !v.VStr? then assert SentText(data, "title").None?; Err(Crash("AttributeError"))
        else
          assert SentText(data, "title") == Some(v.s);
          if Strip(v.s) == [] then Err(Invalid("title", "Title cannot be empty"))
          else StripIdempotent(v.s); Ok(Some(Strip(v.s)))
  }

  /** `_update_post_content`: the cleaned HTML of the new content, if the body sets it. */
  function SetContent(post: Post, data: Value, sanitize: string -> string): (r: Outcome)
    ensures r.post == post.(content := r.post.content)
    ensures r.post.content != post.content ==> r.problem.None?
    ensures Read(data, "content") == Ok(None) ==> r == Outcome(post, None)
    ensures SentText(data, "content").Some? ==>
      var sent := SentText(data, "content").value;
      r == if Strip(sent) == [] then Outcome(post, Some(Invalid("content", "Content cannot be empty")))
           else Outcome(post.(content := sanitize(sent)), None)
    ensures Read(data, "content") != Ok(None) && SentText(data, "content").None? ==> r.post == post && r.problem.Some?
    ensures r.problem.None? ==>
      r.post.content == (if SentText(data, "content").Some? then sanitize(SentText(data, "content").value) else post.content)
  {
    match Read(data, "content")
      case Err(e) => assert SentText(data, "content").None?; Outcome(post, Some(e))
      case Ok(None) => Outcome(post, None)
      case Ok(Some(v)) =>
        if !v.VStr? then assert SentText(data, "content").None?; Outcome(post, Some(Crash("AttributeError")))
        else if Strip(v.s) == [] then Outcome(post, Some(Invalid("content", "Content cannot be empty")))
        else Outcome(post.(content := sanitize(v.s)), None)
  }

  function SetSummary(post: Post, data: Value): (r: Outcome)
    ensures r.post == post.(summary := r.post.summary)
    ensures Read(data, "summary") == Ok(None) ==> r == Outcome(post, None)
    ensures SentText(data, "summary").Some? ==> r == Outcome(post.(summary := Strip(SentText(data, "summary").value)), None)
    ensures Read(data, "summary") != Ok(None) && SentText(data, "summary").None? ==> r.post == post && r.problem.Some?
    ensures r.problem.None? ==>
      r.post.summary == (if SentText(data, "summary").Some? then Strip(SentText(data, "summary").value) else post.summary)
  {
    match Read(data, "summary")
      case Err(e) => assert SentText(data, "summary").None?; Outcome(post, Some(e))
      case Ok(None) => Outcome(post, None)
      case Ok(Some(v)) =>
        if !v.VStr? then assert SentText(data, "summary").None?; Outcome(post, Some(Crash("AttributeError")))
        else Outcome(post.(summary := Strip(v.s)), None)
  }

  /** The categories an update may choose: the module's list, which lacks `"General"`. */
  const UpdateCategories := ["Technology", "Lifestyle", "Travel", "Food", "Health", "Business", "Announcements"]

  const UpdateCategoryRule := "Category must be one of: Technology, Lifestyle, Travel, Food, Health, Business, Announcements"

  function SetCategory(post: Post, data: Value): (r: Outcome)
    ensures r.post == post.(category := r.post.category)
    ensures r.post.category in UpdateCategories || r.post.category == post.category
    ensures Read(data, "category") == Ok(None) ==> r == Outcome(post, None)
    ensures SentText(data, "category").Some? && SentText(data, "category").value in UpdateCategories ==>
      r == Outcome(post.(category := SentText(data, "category").value), None)
    ensures Read(data, "category").Ok? && Read(data, "category") != Ok(None) &&
            !(SentText(data, "category").Some? && SentText(data, "category").value in UpdateCategories) ==>
      r == Outcome(post, Some(Invalid("category", UpdateCategoryRule)))
    ensures Read(data, "category").Err? ==> r == Outcome(post, Some(Read(data, "category").error))
    ensures r.problem.None? ==>
      r.post.category == (if SentText(data, "category").Some? then SentText(data, "category").value else post.category)
  {
    match Read(data, "category")
      case Err(e) => Outcome(post, Some(e))
      case Ok(None) => Outcome(post, None)
      case Ok(Some(v)) =>
        if !(v.VStr? && v.s in UpdateCategories) then
          Outcome(post, Some(Invalid("category", UpdateCategoryRule)))
        else Outcome(post.(category := v.s), None)
  }

  /** The texts of a list of JSON values, if every one is a string (else `.strip()` raises). */
  function Strings(items: seq<Value>): (r: Option<seq<string>>)
    ensures r.Some? <==> forall k :: 0 <= k < |items| ==> items[k].VStr?
    ensures r.Some? ==> AsValues(r.value) == items
  {
    if items == [] then Some([])
    else if !items[0].VStr? then None
    else match Strings(items[1..])
      case None => None
      case Some(rest) =>
        assert items == [items[0]] + items[1..];
        Some([items[0].s] + rest)
  }

  function SetTags(post: Post, data: Value): (r: Outcome)
    ensures r.post == post.(tags := r.post.tags)
    ensures r.post.tags != post.tags ==> forall k :: 0 <= k < |r.post.tags| ==> CleanTag(r.post.tags[k])
    ensures Read(data, "tags") == Ok(None) ==> r == Outcome(post, None)
    ensures SentTags(data).Some? ==> r == Outcome(post.(tags := CleanTags(SentTags(data).value)), None)
    ensures Read(data, "tags").Ok? && Read(data, "tags").value.Some? && !Read(data, "tags").value.value.VList? ==>
      r == Outcome(post, Some(Invalid("tags", "Tags must be an array")))
    ensures Read(data, "tags") != Ok(None) && SentTags(data).None? ==> r.post == post && r.problem.Some?
    ensures r.problem.None? ==> r.post.tags == (if SentTags(data).Some? then CleanTags(SentTags(data).value) else post.tags)
  {
    match Read(data, "tags")
      case Err(e) => Outcome(post, Some(e))
      case Ok(None) => Outcome(post, None)
      case Ok(Some(v)) =>
        if !v.VList? then Outcome(post, Some(Invalid("tags", "Tags must be an array")))
        else match Strings(v.items)
          case None => Outcome(post, Some(Crash("AttributeError")))
          case Some(texts) => Outcome(post.(tags := CleanTags(texts)), None)
  }

  /** The texts of the tags a body sends, when it sends a list of strings. */
  function SentTags(data: Value): Option<seq<string>> {
    match Read(data, "tags")
      case Ok(Some(VList(items))) => Strings(items)
      case _ => None
  }

  /** The `status` step: `published_at` is stamped only on a move to published. */
  function SetStatus(post: Post, data: Value, now: string): (r: Outcome)
    ensures r.post == post.(status := r.post.status, publishedAt := r.post.publishedAt)
    ensures r.post.status in Statuses || r.post.status == post.status
    ensures r.post.publishedAt != post.publishedAt ==>
      post.status != "published" && r.post.status == "published" && r.post.publishedAt == Some(now)
    ensures Read(data, "status") == Ok(None) ==> r == Outcome(post, None)
    ensures SentText(data, "status").Some? && SentText(data, "status").value in Statuses ==>
      r.problem.None? && r.post.status == SentText(data, "status").value &&
      (post.status != "published" && r.post.status == "published" ==> r.post.publishedAt == Some(now))
    ensures Read(data, "status").Ok? && Read(data, "status") != Ok(None) &&
            !(SentText(data, "status").Some? && SentText(data, "status").value in Statuses) ==>
      r == Outcome(post, Some(Invalid("status", "Status must be 'draft' or 'published'")))
    ensures Read(data, "status").Err? ==> r == Outcome(post, Some(Read(data, "status").error))
    ensures r.problem.None? ==>
      r.post.status == (if SentText(data, "status").Some? then SentText(data, "status").value else post.status)
  {
    match Read(data, "status")
      case Err(e) => Outcome(post, Some(e))
      case Ok(None) => Outcome(post, None)
      case Ok(Some(v)) =>
        if !(v.VStr? && v.s in Statuses) then
          Outcome(post, Some(Invalid("status", "Status must be 'draft' or 'published'")))
        else
          var moved := post.(status := v.s);
          if post.status != "published" && v.s == "published" then Outcome(moved.(publishedAt := Some(now)), None)
          else Outcome(moved, None)
  }

  /** `_update_post_metadata`: summary, category, tags, status, each kept once made. */
  function SetMetadata(post: Post, data: Value, now: string): (r: Outcome)
    ensures r.post == post.(summary := r.post.summary, category := r.post.category, tags := r.post.tags,
                            status := r.post.status, publishedAt := r.post.publishedAt)
    ensures r.post.publishedAt != post.publishedAt ==>
      post.status != "published" && r.post.status == "published" && r.post.publishedAt == Some(now)
    ensures r.problem.None? ==>
      && r.post.summary == (if SentText(data, "summary").Some? then Strip(SentText(data, "summary").value) else post.summary)
      && r.post.category == (if SentText(data, "category").Some? then SentText(data, "category").value else post.category)
      && r.post.tags == (if SentTags(data).Some? then CleanTags(SentTags(data).value) else post.tags)
      && r.post.status == (if SentText(data, "status").Some? then SentText(data, "status").value else post.status)
  {
    var a := SetSummary(post, data);
    if a.problem.Some? then a
    else
      var b := SetCategory(a.post, data);
      if b.problem.Some? then b
      else
        var c := SetTags(b.post, data);
        if c.problem.Some? then c
        else SetStatus(c.post, data, now)
  }

  /**
   * The body of `update_post` after the checks: the title (with `slug`,
   * the free slug chosen for it), the content, the metadata, then
   * `updated_at`. A step that fails stops the rest, and what the earlier
   * steps changed stays changed.
   */
  function Revise(post: Post, data: Value, slug: string, sanitize: string -> string, now: string): (r: Outcome)
    ensures SameRecord(r.post, post)
    ensures TitleChange(data).Err? ==> r == Outcome(post, Some(TitleChange(data).error))
    ensures TitleChange(data) == Ok(None) ==> r.post.title == post.title && r.post.slug == post.slug
    ensures TitleChange(data).Ok? && TitleChange(data).value.Some? ==>
      r.post.title == TitleChange(data).value.value && r.post.slug == slug
    ensures r.post.slug != post.slug ==> TitleChange(data).Ok? && TitleChange(data).value.Some? && r.post.slug == slug
    ensures r.problem.None? ==> r.post.updatedAt == now
    ensures r.post.publishedAt != post.publishedAt ==>
      post.status != "published" && r.post.status == "published" && r.post.publishedAt == Some(now)
  {
    match TitleChange(data)
      case Err(e) => Outcome(post, Some(e))
      case Ok(t) =>
        var titled := if t.Some? then post.(title := t.value, slug := slug) else post;
        var c := SetContent(titled, data, sanitize);
        if c.problem.Some? then c
        else
          var m := SetMetadata(c.post, data, now);
          if m.problem.Some? then m
          else Outcome(m.post.(updatedAt := now), None)
  }

  /**
   * An update that goes through writes what the body sent: the sanitised
   * content, the stripped summary, the category, the cleaned tags and the
   * status, each kept as it was when not sent.
   */
  lemma ReviseWrites(post: Post, data: Value, slug: string, sanitize: string -> string, now: string)
    ensures var r := Revise(post, data, slug, sanitize, now);
      r.problem.None? ==>
      && r.post.content == (if SentText(data, "content").Some? then sanitize(SentText(data, "content").value) else post.content)
      && r.post.summary == (if SentText(data, "summary").Some? then Strip(SentText(data, "summary").value) else post.summary)
      && r.post.category == (if SentText(data, "category").Some? then SentText(data, "category").value else post.category)
      && r.post.tags == (if SentTags(data).Some? then CleanTags(SentTags(data).value) else post.tags)
      && r.post.status == (if SentText(data, "status").Some? then SentText(data, "status").value else post.status)
  {
    var r := Revise(post, data, slug, sanitize, now);
    if r.problem.None? {
      var t := TitleChange(data).value;
      var titled := if t.Some? then post.(title := t.value, slug := slug) else post;
      var c := SetContent(titled, data, sanitize);
      var m := SetMetadata(c.post, data, now);
      assert c.problem.None? && m.problem.None? && r.post == m.post.(updatedAt := now);
    }
  }

  /** The fields no step of an update touches. */
  predicate SameRecord(a: Post, b: Post) {
    && a.id == b.id && a.authorId == b.authorId && a.authorUsername == b.authorUsername
    && a.featuredImage == b.featuredImage && a.viewCount == b.viewCount
    && a.likeCount == b.likeCount && a.commentCount == b.commentCount && a.createdAt == b.createdAt
  }

  /** `"General"`, the default of a new post, is refused by an update. */
  lemma GeneralRejectedOnUpdate(post: Post, d: seq<(string, Value)>)
    requires Get(d, "category") == Some(VStr("General"))
    ensures SetCategory(post, VDict(d)) == Outcome(post, Some(Invalid("category", UpdateCategoryRule)))
  {
    ReadPresent(d, "category", VStr("General"));
    GeneralNotOffered();
  }

  lemma GeneralNotOffered()
    ensures "General" !in UpdateCategories
  {
    forall c | c in UpdateCategories ensures |c| != |"General"| { }
  }

  /**
   * Steps are not rolled back: a body with a good title and blank content
   * fails, yet the post keeps its new title and slug.
   */
  lemma TitleSurvivesContentError(post: Post, data: Value, slug: string, sanitize: string -> string, now: string)
    requires TitleChange(data).Ok? && TitleChange(data).value.Some?
    requires Read(data, "content").Ok? && Read(data, "content").value.Some?
    requires var v := Read(data, "content").value.value; v.VStr? && Strip(v.s) == []
    ensures Revise(post, data, slug, sanitize, now) ==
      Outcome(post.(title := TitleChange(data).value.value, slug := slug), Some(Invalid("content", "Content cannot be empty")))
  {
  }

  // ---------------------------------------------------------------------
  // The post store
  // ---------------------------------------------------------------------

  /** The signed-in user the authentication middleware puts on the request. */
  datatype Actor = Actor(id: int, username: string, isAdmin: bool)

  /** The ownership test of update and delete: the author, or an admin. */
  predicate MayEdit(a: Actor, p: Post) { p.authorId == a.id || a.isAdmin }

  /** A signed-in user, a post found by the identifier, and the right to change it. */
  predicate Authorised(posts: seq<Post>, actor: Option<Actor>, ident: string) {
    actor.Some? && Lookup(posts, ident).Some? && MayEdit(actor.value, posts[Lookup(posts, ident).value])
  }

  /** The two posts the module starts with. */
  const SeedPosts: seq<Post> := [
    Post(1, "Welcome to Our Blog", "welcome-to-our-blog",
         "This is our first blog post! Welcome to our amazing blog platform.",
         "Welcome post introducing our blog platform", 1, "admin", "Announcements",
         ["welcome", "introduction"], "published", None, 45, 12, 3,
         "2024-01-01T10:00:00Z", "2024-01-01T10:00:00Z", Some("2024-01-01T10:00:00Z")),
    Post(2, "Getting Started with Artanis", "getting-started-with-artanis",
         "Artanis is a powerful Python web framework that makes building APIs simple and enjoyable. In this post, we'll explore the basics...",
         "Learn the fundamentals of the Artanis web framework", 1, "admin", "Technology",
         ["artanis", "python", "web", "framework"], "published", None, 128, 34, 8,
         "2024-01-02T14:30:00Z", "2024-01-02T14:30:00Z", Some("2024-01-02T14:30:00Z"))]

  /** The record `create_post` builds from a validated body. */
  function NewPost(id: int, a: Actor, v: PostData, slug: string, sanitize: string -> string, now: string): Post {
    Post(id, v.title, slug, sanitize(v.content), v.summary, a.id, a.username, v.category, v.tags, v.status,
         None, 0, 0, 0, now, now, if v.status == "published" then Some(now) else None)
  }

  /** A body without `status` makes a draft, which has no publication time. */
  lemma CreateDefaultsToDraft(d: seq<(string, Value)>, id: int, a: Actor, slug: string, sanitize: string -> string, now: string)
    requires "status" !in Keys(d) && ValidatePostData(VDict(d)).Ok?
    ensures var p := NewPost(id, a, ValidatePostData(VDict(d)).value, slug, sanitize, now);
      p.status == "draft" && p.publishedAt.None? && p.viewCount == 0 && p.likeCount == 0
  {
    var d' := d;
    assert Field(d', "status", VStr("draft")) == VStr("draft");
  }

  /** `[p for p in posts if p["id"] != id]` */
  function Without(posts: seq<Post>, id: int): seq<Post> {
    Filter(posts, (p: Post) => p.id != id)
  }

  /** Deletion keeps the order of the other posts and exactly the posts with another id. */
  lemma WithoutMeaning(posts: seq<Post>, id: int)
    ensures Subsequence(Without(posts, id), posts)
    ensures forall p :: p in Without(posts, id) <==> p in posts && p.id != id
  {
    FilterMeaning(posts, (p: Post) => p.id != id);
  }

  /** Deleting keeps ids and slugs unique. */
  lemma {:induction false} WithoutUnique(posts: seq<Post>, id: int)
    requires UniqueIds(posts) && UniqueSlugs(posts)
    ensures UniqueIds(Without(posts, id)) && UniqueSlugs(Without(posts, id))
  {
    if posts != [] {
      WithoutUnique(posts[1..], id);
      var rest := Without(posts[1..], id);
      if posts[0].id != id {
        assert Without(posts, id) == [posts[0]] + rest;
        WithoutMeaning(posts[1..], id);
        forall k | 0 <= k < |rest| ensures rest[k].id != posts[0].id && rest[k].slug != posts[0].slug {
          assert rest[k] in posts[1..];
        }
      } else {
        assert Without(posts, id) == rest;
      }
    }
  }

  /** With unique ids, deleting an id that is present removes exactly one post. */
  lemma {:induction false} WithoutCount(posts: seq<Post>, id: int)
    requires UniqueIds(posts)
    ensures (exists k :: 0 <= k < |posts| && posts[k].id == id) ==> |Without(posts, id)| == |posts| - 1
    ensures (forall k :: 0 <= k < |posts| ==> posts[k].id != id) ==> Without(posts, id) == posts
  {
    if posts != [] {
      WithoutCount(posts[1..], id);
      var rest := Without(posts[1..], id);
      assert Without(posts, id) == (if posts[0].id != id then [posts[0]] else []) + rest;
      if posts[0].id == id {
        assert forall k :: 0 <= k < |posts[1..]| ==> posts[1..][k].id != id;
      } else if exists k :: 0 <= k < |posts| && posts[k].id == id {
        var k :| 0 <= k < |posts| && posts[k].id == id;
        assert posts[1..][k - 1].id == id;
      } else {
        assert forall k :: 0 <= k < |posts[1..]| ==> posts[1..][k].id != id;
      }
    }
  }

  /** Replacing a post by one with the same id and a slug no other post has keeps ids and slugs unique. */
  lemma ReplaceUnique(posts: seq<Post>, i: nat, p: Post)
    requires i < |posts| && UniqueIds(posts) && UniqueSlugs(posts) && p.id == posts[i].id
    requires forall j :: 0 <= j < |posts| && j != i ==> posts[j].slug != p.slug
    ensures UniqueIds(posts[i := p]) && UniqueSlugs(posts[i := p])
  {
  }

  /** Appending a post with a fresh id and a fresh slug keeps ids and slugs unique. */
  lemma AppendUnique(posts: seq<Post>, p: Post)
    requires UniqueIds(posts) && UniqueSlugs(posts)
    requires forall j :: 0 <= j < |posts| ==> posts[j].id != p.id && posts[j].slug != p.slug
    ensures UniqueIds(posts + [p]) && UniqueSlugs(posts + [p])
  {
  }

  /** Ids and slugs are unique, and every id is below the counter. */
  predicate StoreInvariant(posts: seq<Post>, next: int) {
    UniqueIds(posts) && UniqueSlugs(posts) && forall i :: 0 <= i < |posts| ==> posts[i].id < next
  }

  /** A post whose id is the counter and whose slug is not taken can be appended. */
  lemma AppendFresh(posts: seq<Post>, p: Post, next: int)
    requires StoreInvariant(posts, next)
    requires p.id == next && p.slug !in Slugs(posts)
    ensures StoreInvariant(posts + [p], next + 1)
  {
    assert forall i :: 0 <= i < |posts| ==> Slugs(posts)[i] == posts[i].slug;
    AppendUnique(posts, p);
  }

  /** Replacing a post by one with the same id and a slug no other post has keeps the invariant. */
  lemma ReplaceKeeps(posts: seq<Post>, i: nat, p: Post, next: int)
    requires StoreInvariant(posts, next) && i < |posts| && p.id == posts[i].id
    requires forall j :: 0 <= j < |posts| && j != i ==> posts[j].slug != p.slug
    ensures StoreInvariant(posts[i := p], next)
  {
    ReplaceUnique(posts, i, p);
  }

  lemma SlugsDiffer(posts: seq<Post>, i: nat, j: nat)
    requires UniqueSlugs(posts) && i < |posts| && j < |posts| && i != j
    ensures posts[i].slug != posts[j].slug
  {
    if j < i {
      assert posts[j].slug != posts[i].slug;
    }
  }

  /** A post with one more like. */
  function Liked(p: Post): (q: Post)
    ensures q.likeCount == p.likeCount + 1 && q.id == p.id && q.slug == p.slug
  {
    p.(likeCount := p.likeCount + 1)
  }

  /** A post with one more view. */
  function Viewed(p: Post): (q: Post)
    ensures q.viewCount == p.viewCount + 1 && q.id == p.id && q.slug == p.slug
  {
    p.(viewCount := p.viewCount + 1)
  }

  /** Changing a post's counters, and not its id or slug, keeps the invariant. */
  lemma RecountKeeps(posts: seq<Post>, i: nat, p: Post, next: int)
    requires StoreInvariant(posts, next) && i < |posts|
    requires p.id == posts[i].id && p.slug == posts[i].slug
    ensures StoreInvariant(posts[i := p], next)
  {
    forall j | 0 <= j < |posts| && j != i ensures posts[j].slug != p.slug {
      SlugsDiffer(posts, i, j);
    }
    ReplaceKeeps(posts, i, p, next);
  }

  /** Deleting keeps the invariant. */
  lemma WithoutKeeps(posts: seq<Post>, id: int, next: int)
    requires StoreInvariant(posts, next)
    ensures StoreInvariant(Without(posts, id), next)
  {
    WithoutUnique(posts, id);
    WithoutMeaning(posts, id);
    forall i | 0 <= i < |Without(posts, id)| ensures Without(posts, id)[i].id < next {
      assert Without(posts, id)[i] in posts;
    }
  }

  /** `posts` and `next_post_id` of `routes/posts.py`. */
  class PostStore {
    var posts: seq<Post>
    var nextPostId: int

    ghost predicate Valid()
      reads this
    {
      StoreInvariant(posts, nextPostId)
    }

    constructor ()
      ensures Valid() && posts == SeedPosts && nextPostId == 3
    {
      posts := SeedPosts;
      nextPostId := 3;
    }

    /** `create_post(request)` */
    method Create(actor: Option<Actor>, json: Option<Value>, sanitize: string -> string, now: string)
      returns (r: Result<Post, Problem>)
      requires Valid()
      modifies this
      ensures Valid()
      ensures actor.None? ==> r == Err(Denied("Authentication required"))
      ensures actor.Some? && json.None? ==> r == Err(Rejected("Invalid JSON in request body"))
      ensures actor.Some? && json.Some? && ValidatePostData(json.value).Err? ==>
        r == Err(ValidatePostData(json.value).error)
      ensures r.Err? ==> posts == old(posts) && nextPostId == old(nextPostId)
      ensures r.Ok? ==> actor.Some? && json.Some? && ValidatePostData(json.value).Ok?
      ensures r.Ok? ==>
        var v := ValidatePostData(json.value).value;
        && r.value == NewPost(old(nextPostId), actor.value, v, r.value.slug, sanitize, now)
        && FirstFree(GenerateSlug(v.title), Slugs(old(posts)), r.value.slug)
        && posts == old(posts) + [r.value] && nextPostId == old(nextPostId) + 1
    {
      if actor.None? {
        return Err(Denied("Authentication required"));
      }
      if json.None? {
        return Err(Rejected("Invalid JSON in request body"));
      }
      var checked := ValidatePostData(json.value);
      if checked.Err? {
        return Err(checked.error);
      }
      var v := checked.value;
      var slug := FreeSlug(GenerateSlug(v.title), Slugs(posts));
      var post := NewPost(nextPostId, actor.value, v, slug, sanitize, now);
      AppendFresh(posts, post, nextPostId);
      posts := posts + [post];
      nextPostId := nextPostId + 1;
      return Ok(post);
    }

    /** `update_post(post_id, request)` */
    method Update(actor: Option<Actor>, ident: string, json: Option<Value>, sanitize: string -> string, now: string)
      returns (r: Result<Post, Problem>)
      requires Valid()
      modifies this
      ensures Valid() && nextPostId == old(nextPostId)
      ensures actor.None? ==> r == Err(Denied("Authentication required"))
      ensures actor.Some? && Lookup(old(posts), ident).None? ==> r == Err(Rejected("Post not found"))
      ensures actor.Some? && Lookup(old(posts), ident).Some? && !Authorised(old(posts), actor, ident) ==>
        r == Err(Denied("You can only edit your own posts"))
      ensures Authorised(old(posts), actor, ident) && json.None? ==> r == Err(Rejected("Invalid JSON in request body"))
      ensures !(Authorised(old(posts), actor, ident) && json.Some?) ==> posts == old(posts)
      ensures |posts| == |old(posts)|
      ensures Authorised(old(posts), actor, ident) && json.Some? ==>
        var i := Lookup(old(posts), ident).value;
        var o := Revise(old(posts)[i], json.value, posts[i].slug, sanitize, now);
        && posts == old(posts)[i := o.post]
        && r == (if o.problem.Some? then Err(o.problem.value) else Ok(o.post))
        && (TitleChange(json.value).Ok? && TitleChange(json.value).value.Some? ==>
              FirstFree(GenerateSlug(TitleChange(json.value).value.value), SlugsExcept(old(posts), old(posts)[i].id), posts[i].slug))
    {
      if actor.None? {
        return Err(Denied("Authentication required"));
      }
      var found := Lookup(posts, ident);
      if found.None? {
        return Err(Rejected("Post not found"));
      }
      var i := found.value;
      if !MayEdit(actor.value, posts[i]) {
        return Err(Denied("You can only edit your own posts"));
      }
      if json.None? {
        return Err(Rejected("Invalid JSON in request body"));
      }
      var data := json.value;
      var slug := posts[i].slug;
      var t := TitleChange(data);
      if t.Ok? && t.value.Some? {
        slug := FreeSlug(GenerateSlug(t.value.value), SlugsExcept(posts, posts[i].id));
      }
      var o := Revise(posts[i], data, slug, sanitize, now);
      forall j | 0 <= j < |posts| && j != i
        ensures posts[j].slug != o.post.slug
      {
        if o.post.slug != posts[i].slug {
          assert posts[j].id != posts[i].id;
        }
      }
      ReplaceKeeps(posts, i, o.post, nextPostId);
      posts := posts[i := o.post];
      r := if o.problem.Some? then Err(o.problem.value) else Ok(o.post);
    }

    /** `delete_post(post_id, request)`: `None` is success. */
    method Delete(actor: Option<Actor>, ident: string) returns (r: Option<Problem>)
      requires Valid()
      modifies this
      ensures Valid() && nextPostId == old(nextPostId)
      ensures actor.None? ==> r == Some(Denied("Authentication required"))
      ensures actor.Some? && Lookup(old(posts), ident).None? ==> r == Some(Rejected("Post not found"))
      ensures actor.Some? && Lookup(old(posts), ident).Some? && !Authorised(old(posts), actor, ident) ==>
        r == Some(Denied("You can only delete your own posts"))
      ensures !Authorised(old(posts), actor, ident) ==> posts == old(posts)
      ensures Authorised(old(posts), actor, ident) ==>
        r.None? && posts == Without(old(posts), old(posts)[Lookup(old(posts), ident).value].id)
    {
      if actor.None? {
        return Some(Denied("Authentication required"));
      }
      var found := Lookup(posts, ident);
      if found.None? {
        return Some(Rejected("Post not found"));
      }
      if !MayEdit(actor.value, posts[found.value]) {
        return Some(Denied("You can only delete your own posts"));
      }
      var id := posts[found.value].id;
      WithoutKeeps(posts, id, nextPostId);
      posts := Without(posts, id);
      return None;
    }

    /** `like_post(post_id, request)`: answers the new count. */
    method Like(actor: Option<Actor>, ident: string) returns (r: Result<int, Problem>)
      requires Valid()
      modifies this
      ensures Valid() && nextPostId == old(nextPostId)
      ensures actor.None? ==> r == Err(Denied("Authentication required")) && posts == old(posts)
      ensures actor.Some? && Lookup(old(posts), ident).None? ==> r == Err(Rejected("Post not found")) && posts == old(posts)
      ensures actor.Some? && Lookup(old(posts), ident).Some? ==>
        var i := Lookup(old(posts), ident).value;
        && posts == old(posts)[i := Liked(old(posts)[i])]
        && r == Ok(old(posts)[i].likeCount + 1)
    {
      if actor.None? {
        return Err(Denied("Authentication required"));
      }
      var found := Lookup(posts, ident);
      if found.None? {
        return Err(Rejected("Post not found"));
      }
      var i := found.value;
      var liked := Liked(posts[i]);
      RecountKeeps(posts, i, liked, nextPostId);
      posts := posts[i := liked];
      return Ok(liked.likeCount);
    }

    /** `get_post(post_id)`: only published posts are shown, and each showing counts a view. */
    method Show(ident: string) returns (r: Result<Post, Problem>)
      requires Valid()
      modifies this
      ensures Valid() && nextPostId == old(nextPostId)
      ensures Lookup(old(posts), ident).None? ==> r == Err(Rejected("Post not found")) && posts == old(posts)
      ensures Lookup(old(posts), ident).Some? && !Published(old(posts)[Lookup(old(posts), ident).value]) ==>
        r == Err(Rejected("Post not available")) && posts == old(posts)
      ensures Lookup(old(posts), ident).Some? && Published(old(posts)[Lookup(old(posts), ident).value]) ==>
        var i := Lookup(old(posts), ident).value;
        posts == old(posts)[i := Viewed(old(posts)[i])] && r == Ok(Viewed(old(posts)[i]))
    {
      var found := Lookup(posts, ident);
      if found.None? {
        r := Err(Rejected("Post not found"));
      } else if !Published(posts[found.value]) {
        r := Err(Rejected("Post not available"));
      } else {
        var i := found.value;
        var seen := Viewed(posts[i]);
        RecountKeeps(posts, i, seen, nextPostId);
        posts := posts[i := seen];
        r := Ok(seen);
      }
    }
  }
}
