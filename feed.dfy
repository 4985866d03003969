/** `renderPost`: the public post listing. The query parameters become a
    conjunctive filter (author, tags, search, and for the following feed the
    caller's followed authors), the matches are ordered on one field and
    cut to a page, and the answer reports the page together with `total`,
    `count`, `hasMore` and `page`. */
module Feed {
  import opened Wrappers
  import opened Seqs
  import opened Sorting
  import opened Text
  import opened Schema
  import opened SocialGraph

  /** `tags` as Express parses it: one string (split on commas) or a
      repeated parameter (already a list). */
  datatype TagsParam = TagCsv(csv: string) | TagList(items: seq<string>)

  /** The query string; `None` is a parameter that was not sent, and the
      numeric ones carry their defaults when absent (limit 20, skip 0). */
  datatype FeedQuery = FeedQuery(
    author: Option<Id>,
    tags: Option<TagsParam>,
    search: Option<string>,
    limit: nat,
    skip: nat,
    sortBy: string,
    sortOrder: string,
    feedType: Option<string>)

  /** The query the listing answers when no parameter is sent. */
  function DefaultQuery(): (q: FeedQuery)
    ensures q.limit == 20 && q.skip == 0 && q.sortBy == "createdAt" && q.sortOrder == "desc"
    ensures q.author.None? && q.tags.None? && q.search.None? && q.feedType.None?
  {
    FeedQuery(None, None, None, 20, 0, "createdAt", "desc", None)
  }

  /** The author condition: none, one author, or one of a list. */
  datatype AuthorFilter = AnyAuthor | OneAuthor(id: Id) | AuthorIn(ids: seq<Id>)

  /** The filter object the handler builds; `tags` holds the trimmed
      patterns and `search` the search text, each when that condition is
      active. */
  datatype PostFilter = PostFilter(authors: AuthorFilter, tags: Option<seq<string>>, search: Option<string>)

  /** `tagArray.map(tag => tag.trim())`. */
  function TagPatterns(t: TagsParam): (pats: seq<string>)
    ensures t.TagList? ==> |pats| == |t.items|
    ensures t.TagCsv? ==> |pats| == |Split(t.csv, ',')|
    ensures forall k :: 0 <= k < |pats| ==> pats[k] == Trim(if t.TagCsv? then Split(t.csv, ',')[k] else t.items[k])
  {
    var raw := if t.TagCsv? then Split(t.csv, ',') else t.items;
    seq(|raw|, k requires 0 <= k < |raw| => Trim(raw[k]))
  }

  /** `if (tags)`: a parameter that is the empty string is falsy; a list
      never is. */
  predicate TagsActive(t: Option<TagsParam>) {
    t.Some? && !(t.value.TagCsv? && t.value.csv == "")
  }

  /** The part of the filter built from `author`, `tags` and `search`, before
      the following feed is considered. */
  function BaseFilter(q: FeedQuery): (f: PostFilter)
    ensures q.author.None? ==> f.authors == AnyAuthor
    ensures q.author.Some? ==> f.authors == OneAuthor(q.author.value)
    ensures f.tags.Some? <==> TagsActive(q.tags)
    ensures f.tags.Some? ==> f.tags.value == TagPatterns(q.tags.value)
    ensures f.search.Some? <==> q.search.Some? && q.search.value != ""
    ensures f.search.Some? ==> f.search == q.search
  {
    PostFilter(
      if q.author.Some? then OneAuthor(q.author.value) else AnyAuthor,
      if TagsActive(q.tags) then Some(TagPatterns(q.tags.value)) else None,
      if q.search.Some? && q.search.value != "" then q.search else None)
  }

  /** The complete filter: for `feedType=following` a missing caller is 401,
      a caller without a document is 404, and otherwise the author condition
      becomes "one of the caller's `following`, or the caller", replacing
      any `author` parameter. */
  function BuildFilter(users: seq<User>, caller: Option<Id>, q: FeedQuery): (r: Result<PostFilter>)
    ensures r.Failure? <==> q.feedType == Some("following") && (caller.None? || caller.value !in Keys(users, UserKey))
    ensures r.Failure? && caller.None? ==> r.status == Unauthorized
    ensures r.Failure? && caller.Some? ==> r.status == NotFound
    ensures r.Success? && q.feedType != Some("following") ==> r.value == BaseFilter(q)
    ensures r.Success? && q.feedType == Some("following") ==>
      && r.value.tags == BaseFilter(q).tags && r.value.search == BaseFilter(q).search
      && r.value.authors == AuthorIn(UserById(users, caller.value).value.following + [caller.value])
  {
    var base := BaseFilter(q);
    if q.feedType != Some("following") then Success(base)
    else if caller.None? then Failure(Unauthorized)
    else match UserById(users, caller.value)
      case None => Failure(NotFound)
      case Some(u) => Success(base.(authors := AuthorIn(u.following + [caller.value])))
  }

  predicate AuthorMatches(a: AuthorFilter, p: Post) {
    match a
    case AnyAuthor => true
    case OneAuthor(id) => p.author == id
    case AuthorIn(ids) => p.author in ids
  }

  /** `{tags: {$in: [regex…]}}`: some tag of the post matches some pattern,
      ignoring case; a post without tags never matches. */
  predicate TagsMatch(pats: seq<string>, p: Post) {
    exists t, pat :: t in p.tags && pat in pats && ContainsIgnoreCase(t, pat)
  }

  /** `$or` of a case-insensitive match on `title` and on `content`; a post
      without a title can only match on its content. */
  predicate SearchMatches(search: string, p: Post) {
    (p.title.Some? && ContainsIgnoreCase(p.title.value, search)) || ContainsIgnoreCase(p.content, search)
  }

  /** A post satisfies the filter when it satisfies every active
      condition. */
  predicate Matches(f: PostFilter, p: Post) {
    && AuthorMatches(f.authors, p)
    && (f.tags.None? || TagsMatch(f.tags.value, p))
    && (f.search.None? || SearchMatches(f.search.value, p))
  }

  /** The value a post has in the sort field. `_id` and `author` are ids,
      the timestamps and the count are numbers. Any other name (a string
      field, the `tags` or `media` array, or a field no post has) gives
      every post the same key. */
  function FieldValue(sortBy: string, p: Post): int {
    if sortBy == "createdAt" then p.createdAt
    else if sortBy == "updatedAt" then p.updatedAt
    else if sortBy == "likesCount" then p.likesCount
    else if sortBy == "_id" then p.id
    else if sortBy == "author" then p.author
    else 0
  }

  /** `sortOrder === 'asc' ? 1 : -1`. */
  function Direction(sortOrder: string): (d: int)
    ensures d == 1 || d == -1
    ensures d == 1 <==> sortOrder == "asc"
  {
    if sortOrder == "asc" then 1 else -1
  }

  /** The ascending sort key: a descending sort orders on the negated
      field. */
  function SortKey(sortBy: string, sortOrder: string): Post -> int {
    (p: Post) => Direction(sortOrder) * FieldValue(sortBy, p)
  }

  /** The response body. `page` is `None` when `limit` is 0, where the
      handler's division gives a non-number. */
  datatype FeedPage = FeedPage(
    posts: seq<Post>,
    count: nat,
    total: nat,
    hasMore: bool,
    limit: nat,
    skip: nat,
    page: Option<nat>)

  /** All stored posts satisfying the filter, in collection order. */
  function Matching(posts: seq<Post>, f: PostFilter): (r: seq<Post>)
    ensures forall p :: p in r <==> p in posts && Matches(f, p)
    ensures |r| <= |posts|
  {
    Filter(posts, (p: Post) => Matches(f, p))
  }

  /** The matches in the requested order. */
  function Ordered(posts: seq<Post>, f: PostFilter, q: FeedQuery): (r: seq<Post>)
    ensures multiset(r) == multiset(Matching(posts, f))
    ensures Ascending(r, SortKey(q.sortBy, q.sortOrder))
  {
    SortBy(Matching(posts, f), SortKey(q.sortBy, q.sortOrder))
  }

  /** The page and its counters, from the ordered matches. */
  function Paginate(sorted: seq<Post>, limit: nat, skip: nat): (r: FeedPage)
    ensures r.posts == Slice(sorted, skip, limit)
    ensures r.total == |sorted| && r.count == |r.posts|
    ensures limit > 0 ==> r.count <= limit
    ensures r.hasMore <==> skip + limit < |sorted|
    ensures r.limit == limit && r.skip == skip
    ensures limit > 0 ==> r.page == Some(skip / limit + 1)
    ensures limit == 0 ==> r.page.None?
  {
    var page := Slice(sorted, skip, limit);
    FeedPage(page, |page|, |sorted|, skip + limit < |sorted|, limit, skip,
             if limit > 0 then Some(skip / limit + 1) else None)
  }

  /** `renderPost`. */
  function RenderPost(users: seq<User>, posts: seq<Post>, caller: Option<Id>, q: FeedQuery): (r: Result<FeedPage>)
    ensures r.Failure? <==> q.feedType == Some("following") && (caller.None? || caller.value !in Keys(users, UserKey))
    ensures r.Failure? ==> r.status == (if caller.None? then Unauthorized else NotFound)
    ensures r.Success? ==> var f := BuildFilter(users, caller, q).value;
      && (forall p :: p in r.value.posts ==> p in posts && Matches(f, p))
      && r.value.total == |Matching(posts, f)|
      && r.value.count == |r.value.posts|
      && (q.limit > 0 ==> r.value.count <= q.limit)
      && (r.value.hasMore <==> q.skip + q.limit < r.value.total)
      && (q.limit > 0 ==> r.value.page == Some(q.skip / q.limit + 1))
  {
    match BuildFilter(users, caller, q)
    case Failure(s) => Failure(s)
    case Success(f) =>
      var sorted := Ordered(posts, f, q);
      var r := Paginate(sorted, q.limit, q.skip);
      assert |sorted| == |Matching(posts, f)| by {
        assert |multiset(sorted)| == |multiset(Matching(posts, f))|;
      }
      forall p | p in r.posts ensures p in posts && Matches(f, p) {
        assert p in sorted;
        assert p in multiset(Matching(posts, f));
      }
      Success(r)
  }

  // ------------------------------------------------------------ properties

  /** Consecutive pages neither overlap nor leave a gap: the page after
      `skip` followed by the next one is the double-sized page at `skip`. */
  lemma PagesTile<T>(s: seq<T>, skip: nat, limit: nat)
    requires limit > 0
    ensures Slice(s, skip, limit) + Slice(s, skip + limit, limit) == Slice(s, skip, 2 * limit)
  {
    if skip + 2 * limit <= |s| {
      assert Slice(s, skip, 2 * limit) == s[skip..skip + 2 * limit];
      assert Slice(s, skip, limit) == s[skip..skip + limit];
      assert Slice(s, skip + limit, limit) == s[skip + limit..skip + 2 * limit];
    } else if skip + limit <= |s| {
      assert Slice(s, skip, limit) == s[skip..skip + limit];
      assert Slice(s, skip + limit, limit) == s[skip + limit..];
      assert Slice(s, skip, 2 * limit) == s[skip..];
    }
  }

  /** With a positive limit, `hasMore` says exactly that some match lies
      beyond the returned page. */
  lemma HasMoreMeansUnseen(users: seq<User>, posts: seq<Post>, caller: Option<Id>, q: FeedQuery)
    requires q.limit > 0
    requires RenderPost(users, posts, caller, q).Success?
    ensures var r := RenderPost(users, posts, caller, q).value;
      r.hasMore <==> q.skip + r.count < r.total
  {
    var f := BuildFilter(users, caller, q).value;
    var sorted := Ordered(posts, f, q);
    assert |sorted| == |Matching(posts, f)| by {
      assert |multiset(sorted)| == |multiset(Matching(posts, f))|;
    }
    if q.skip < |sorted| && q.skip + q.limit > |sorted| {
      assert Slice(sorted, q.skip, q.limit) == sorted[q.skip..];
    }
  }

  /** The page lists its posts in the requested order: non-increasing in the
      sort field for a descending sort, non-decreasing for `asc`. */
  lemma PageOrdered(users: seq<User>, posts: seq<Post>, caller: Option<Id>, q: FeedQuery, i: nat, j: nat)
    requires RenderPost(users, posts, caller, q).Success?
    requires i < j < |RenderPost(users, posts, caller, q).value.posts|
    ensures var page := RenderPost(users, posts, caller, q).value.posts;
      && (q.sortOrder == "asc" ==> FieldValue(q.sortBy, page[i]) <= FieldValue(q.sortBy, page[j]))
      && (q.sortOrder != "asc" ==> FieldValue(q.sortBy, page[i]) >= FieldValue(q.sortBy, page[j]))
  {
    var f := BuildFilter(users, caller, q).value;
    var sorted := Ordered(posts, f, q);
    RenderedPage(users, posts, caller, q);
    var page := Slice(sorted, q.skip, q.limit);
    assert page <= sorted[q.skip..];
    assert page[i] == sorted[q.skip + i] && page[j] == sorted[q.skip + j];
    KeyOrder(q.sortBy, q.sortOrder, sorted[q.skip + i], sorted[q.skip + j]);
  }

  /** Ascending sort keys mean ascending field values for `asc` and
      descending ones otherwise. */
  lemma KeyOrder(sortBy: string, sortOrder: string, a: Post, b: Post)
    requires SortKey(sortBy, sortOrder)(a) <= SortKey(sortBy, sortOrder)(b)
    ensures sortOrder == "asc" ==> FieldValue(sortBy, a) <= FieldValue(sortBy, b)
    ensures sortOrder != "asc" ==> FieldValue(sortBy, a) >= FieldValue(sortBy, b)
  {
  }

  /** No match is out of reach: every stored post that satisfies the filter
      is the first post of the page that starts at its position. */
  lemma EveryMatchOnSomePage(users: seq<User>, posts: seq<Post>, caller: Option<Id>, q: FeedQuery, p: Post)
    requires RenderPost(users, posts, caller, q).Success?
    requires p in posts && Matches(BuildFilter(users, caller, q).value, p)
    ensures exists k: nat :: var r := RenderPost(users, posts, caller, q.(skip := k));
      r.Success? && r.value.posts != [] && r.value.posts[0] == p
  {
    var f := BuildFilter(users, caller, q).value;
    var sorted := Ordered(posts, f, q);
    assert p in multiset(sorted);
    var k := FirstIndexOf(sorted, p);
    var q' := q.(skip := k);
    FilterIgnoresSkip(users, caller, q, k);
    assert Ordered(posts, f, q') == sorted;
    RenderedPage(users, posts, caller, q');
    SliceHead(sorted, k, q.limit);
  }

  /** The filter does not depend on the page requested. */
  lemma FilterIgnoresSkip(users: seq<User>, caller: Option<Id>, q: FeedQuery, k: nat)
    ensures BuildFilter(users, caller, q.(skip := k)) == BuildFilter(users, caller, q)
  {
    assert BaseFilter(q.(skip := k)) == BaseFilter(q);
  }

  /** A rendered page is the requested slice of the ordered matches. */
  lemma RenderedPage(users: seq<User>, posts: seq<Post>, caller: Option<Id>, q: FeedQuery)
    requires BuildFilter(users, caller, q).Success?
    ensures RenderPost(users, posts, caller, q).Success?
    ensures RenderPost(users, posts, caller, q).value.posts
         == Slice(Ordered(posts, BuildFilter(users, caller, q).value, q), q.skip, q.limit)
  {
  }

  /** A page that starts inside the sequence starts with the element at
      its offset. */
  lemma SliceHead<T>(s: seq<T>, skip: nat, limit: nat)
    requires skip < |s|
    ensures Slice(s, skip, limit) != [] && Slice(s, skip, limit)[0] == s[skip]
  {
    var page := Slice(s, skip, limit);
    assert page <= s[skip..];
  }

  /** The following feed shows posts by the caller or by users the caller
      follows and no one else, whatever `author` says; among those, a post is
      excluded only by the tag and search conditions. */
  lemma FollowingFeedAuthors(users: seq<User>, posts: seq<Post>, caller: Id, q: FeedQuery, p: Post)
    requires q.feedType == Some("following")
    requires RenderPost(users, posts, Some(caller), q).Success?
    ensures UserById(users, caller).Some?
    ensures p in RenderPost(users, posts, Some(caller), q).value.posts ==>
      p.author == caller || p.author in UserById(users, caller).value.following
    ensures var f := BuildFilter(users, Some(caller), q).value;
      p in posts && (p.author == caller || p.author in UserById(users, caller).value.following) ==>
        (p in Matching(posts, f) <==> Matches(BaseFilter(q).(authors := AnyAuthor), p))
  {
    var f := BuildFilter(users, Some(caller), q).value;
    var me := UserById(users, caller).value;
    assert f.authors == AuthorIn(me.following + [caller]);
    RenderedPage(users, posts, Some(caller), q);
    var sorted := Ordered(posts, f, q);
    var page := Slice(sorted, q.skip, q.limit);
    if p in page {
      assert p in multiset(Matching(posts, f));
    }
  }

  /** An empty tag pattern (a stray comma, say) matches every post that has
      at least one tag, and a post with no tags matches no pattern. */
  lemma EmptyPatternMatchesTagged(pats: seq<string>, p: Post)
    ensures p.tags == [] ==> !TagsMatch(pats, p)
    ensures "" in pats && p.tags != [] ==> TagsMatch(pats, p)
  {
    if "" in pats && p.tags != [] {
      var t := p.tags[0];
      assert Lower("") == "";
      ContainsAt(Lower(t), Lower(""), 0);
      assert ContainsIgnoreCase(t, "");
    }
  }
}
