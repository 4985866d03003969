/** The home page of the client: the relative-time label of a post, the
    rewrite of storage URLs to the server's media route, the hashtags a new
    post is sent with, the query string of the feed request, and the page
    state that the like, follow and tag buttons update. Requests to the
    server are parameters: whether a call succeeded, and what an upload
    answered. */
module Home {
  import opened Wrappers
  import opened Seqs
  import opened Text
  import opened Schema
  import opened SocialGraph
  import opened Feed

  // ----------------------------------------------------------- time ago

  /** The bucket a post's age falls in; `OnDate` is rendered with the
      browser's locale date. */
  datatype Ago = JustNow | Minutes(n: nat) | Hours(n: nat) | Days(n: nat) | OnDate

  /** `Math.floor((now - postDate) / 1000)`: whole seconds, rounded down
      (Dafny's `/` by a positive divisor rounds down, negative operands
      included). */
  function ElapsedSeconds(nowMs: int, postMs: int): (d: int)
    ensures d * 1000 <= nowMs - postMs < d * 1000 + 1000
  {
    (nowMs - postMs) / 1000
  }

  /** `getTimeAgo` (and its verbatim copy `getTimeAgo_helper`): a future
      date or one under a minute old is "just now"; otherwise the whole
      number of minutes, hours or days elapsed, below a week; then the
      date. */
  function Bucket(seconds: int): (a: Ago)
    ensures a == JustNow <==> seconds < 60
    ensures a.Minutes? <==> 60 <= seconds < 3600
    ensures a.Hours? <==> 3600 <= seconds < 86400
    ensures a.Days? <==> 86400 <= seconds < 604800
    ensures a == OnDate <==> seconds >= 604800
    ensures a.Minutes? ==> 1 <= a.n <= 59 && a.n * 60 <= seconds < (a.n + 1) * 60
    ensures a.Hours? ==> 1 <= a.n <= 23 && a.n * 3600 <= seconds < (a.n + 1) * 3600
    ensures a.Days? ==> 1 <= a.n <= 6 && a.n * 86400 <= seconds < (a.n + 1) * 86400
  {
    if seconds < 60 then JustNow
    else if seconds < 3600 then Minutes(seconds / 60)
    else if seconds < 86400 then Hours(seconds / 3600)
    else if seconds < 604800 then Days(seconds / 86400)
    else OnDate
  }

  /** The text shown: `Just now`, `${n}m`, `${n}h`, `${n}d` or the locale
      date. */
  function Label(a: Ago, localeDate: string): string {
    match a
    case JustNow => "Just now"
    case Minutes(n) => NatToString(n) + "m"
    case Hours(n) => NatToString(n) + "h"
    case Days(n) => NatToString(n) + "d"
    case OnDate => localeDate
  }

  function TimeAgo(nowMs: int, postMs: int, localeDate: string): string {
    Label(Bucket(ElapsedSeconds(nowMs, postMs)), localeDate)
  }

  /** A counted label names its unit in its last character and the number
      of whole units elapsed in the digits before it. */
  lemma TimeAgoReadsBack(nowMs: int, postMs: int, localeDate: string)
    requires 60 <= ElapsedSeconds(nowMs, postMs) < 604800
    ensures var s := ElapsedSeconds(nowMs, postMs);
      var r := TimeAgo(nowMs, postMs, localeDate);
      && |r| >= 2
      && (forall i :: 0 <= i < |r| - 1 ==> '0' <= r[i] <= '9')
      && r[|r| - 1] == (if s < 3600 then 'm' else if s < 86400 then 'h' else 'd')
      && DigitsValue(r[..|r| - 1]) == (if s < 3600 then s / 60 else if s < 86400 then s / 3600 else s / 86400)
  {
    var a := Bucket(ElapsedSeconds(nowMs, postMs));
    var digits := NatToString(a.n);
    DigitsValueOfNatToString(a.n);
    var r := TimeAgo(nowMs, postMs, localeDate);
    assert r[..|r| - 1] == digits;
  }

  // ----------------------------------------------------------- image URLs

  /** The server route that streams stored media. */
  const MediaRoute: string := "/api/v1/media/file/"

  /** The server the client talks to. */
  const ServerOrigin: string := "http://localhost:3000"

  /** The server URL a storage object named `name` is served from, minus
      the name. */
  const MediaBase: string := ServerOrigin + MediaRoute + "media/"

  /** A URL pointing straight at the object storage. */
  predicate IsStorageUrl(url: string) {
    Contains(url, "r2.cloudflarestorage.com") || Contains(url, "r2.dev")
  }

  /** `convertImageUrl`: a missing or empty URL gives `null`; a URL already
      on the media route is kept; a storage URL is redirected to the media
      route with its last path segment; any other URL is kept. */
  function ConvertImageUrl(url: Option<string>): (r: Option<string>)
    ensures r.None? <==> url.None? || url.value == ""
    ensures r.Some? && !(IsStorageUrl(url.value) && !Contains(url.value, MediaRoute)) ==> r == url
    ensures r.Some? && IsStorageUrl(url.value) && !Contains(url.value, MediaRoute) ==>
      r.value == MediaBase + LastPiece(url.value, '/') && '/' !in LastPiece(url.value, '/')
  {
    if url.None? || url.value == "" then None
    else if Contains(url.value, MediaRoute) then url
    else if IsStorageUrl(url.value) then Some(MediaBase + LastPiece(url.value, '/'))
    else url
  }

  /** Every URL built on the media base is on the media route. */
  lemma MediaBaseOnRoute(name: string)
    ensures Contains(MediaBase + name, MediaRoute)
  {
    var s := MediaBase + name;
    assert s[|ServerOrigin|..] == MediaRoute + ("media/" + name);
    ContainsAt(s, MediaRoute, |ServerOrigin|);
  }

  /** Converting twice is converting once: a redirected URL is on the media
      route, so it is kept the second time. */
  lemma ConvertIdempotent(url: Option<string>)
    ensures ConvertImageUrl(ConvertImageUrl(url)) == ConvertImageUrl(url)
  {
    var r := ConvertImageUrl(url);
    if r.Some? && r != url {
      MediaBaseOnRoute(LastPiece(url.value, '/'));
    }
  }

  /** A redirected URL names the same object: it ends with the storage
      URL's last segment. */
  lemma ConvertKeepsFileName(url: string)
    requires url != "" && IsStorageUrl(url) && !Contains(url, MediaRoute)
    ensures var r := ConvertImageUrl(Some(url)).value;
      var name := LastPiece(url, '/');
      && |name| <= |r| && r[|r| - |name|..] == name
      && |name| <= |url| && url[|url| - |name|..] == name
  {
    LastPieceIsSuffix(url, '/');
    var name := LastPiece(url, '/');
    var r := ConvertImageUrl(Some(url)).value;
    assert r == MediaBase + name;
    assert r[|MediaBase|..] == name;
  }

  // ------------------------------------------------------------- hashtags

  /** The longest prefix of `s` made of `\w` characters. */
  function WordRun(s: string): (w: string)
    ensures w <= s
    ensures forall i :: 0 <= i < |w| ==> IsWordChar(w[i])
    ensures |w| < |s| ==> !IsWordChar(s[|w|])
  {
    if s != [] && IsWordChar(s[0]) then [s[0]] + WordRun(s[1..]) else []
  }

  /** `content.match(/#[\w]+/g)` with each match's `#` removed: the scan
      tries every position from the left, and after a match resumes where
      the match ended. */
  function ContentHashtags(s: string): seq<string>
    decreases |s|
  {
    if |s| < 2 then []
    else if s[0] == '#' && IsWordChar(s[1]) then
      var w := WordRun(s[1..]);
      [w] + ContentHashtags(s[1 + |w|..])
    else ContentHashtags(s[1..])
  }

  /** `s` has a `#` at `i` followed by the whole `\w` run `t`, which is not
      empty. */
  predicate TagAt(s: string, t: string, i: int) {
    && t != [] && (forall j :: 0 <= j < |t| ==> IsWordChar(t[j]))
    && 0 <= i && i + 1 + |t| <= |s| && s[i] == '#' && s[i + 1..i + 1 + |t|] == t
    && (i + 1 + |t| == |s| || !IsWordChar(s[i + 1 + |t|]))
  }

  lemma TagAtShift(s: string, k: nat, t: string, i: int)
    requires k <= |s| && TagAt(s[k..], t, i)
    ensures TagAt(s, t, k + i)
  {
    assert s[k..][i + 1..i + 1 + |t|] == s[k + i + 1..k + i + 1 + |t|];
  }

  /** Each extracted tag is a whole `\w` run that follows a `#` in the
      content. */
  lemma {:induction false} ContentHashtagsSound(s: string)
    ensures forall t :: t in ContentHashtags(s) ==> exists i :: TagAt(s, t, i)
    decreases |s|
  {
    if |s| >= 2 {
      var tagHere := s[0] == '#' && IsWordChar(s[1]);
      var k := if tagHere then 1 + |WordRun(s[1..])| else 1;
      var rest := s[k..];
      ContentHashtagsSound(rest);
      forall t | t in ContentHashtags(rest) ensures exists i :: TagAt(s, t, i) {
        var i :| TagAt(rest, t, i);
        TagAtShift(s, k, t, i);
      }
      if tagHere {
        var w := WordRun(s[1..]);
        assert s[1..1 + |w|] == w;
        assert TagAt(s, w, 0);
      }
    }
  }

  /** Tags separated by white space are found independently: a space ends
      any run, so the scan of `a` is not disturbed by what follows. */
  lemma {:induction false} ContentHashtagsAcrossSpace(a: string, b: string)
    ensures ContentHashtags(a + " " + b) == ContentHashtags(a) + ContentHashtags(b)
    decreases |a|, 1
  {
    var s := a + " " + b;
    if a == [] {
      assert s[0] == ' ' && s[1..] == b;
    } else if |a| >= 2 && a[0] == '#' && IsWordChar(a[1]) {
      AcrossSpaceAtTag(a, b);
    } else {
      AcrossSpaceSkip(a, b);
    }
  }

  /** The case where `a` starts with a tag: the tag's run ends inside `a`
      or at the space. */
  lemma {:induction false} AcrossSpaceAtTag(a: string, b: string)
    requires |a| >= 2 && a[0] == '#' && IsWordChar(a[1])
    ensures ContentHashtags(a + " " + b) == ContentHashtags(a) + ContentHashtags(b)
    decreases |a|, 0
  {
    var w := WordRun(a[1..]);
    var a' := a[1 + |w|..];
    TagStepBeforeSpace(a, b);
    TagStep(a);
    ContentHashtagsAcrossSpace(a', b);
  }

  /** At a tag of `a`, the scan of `a + " " + b` reads the same tag and
      goes on at the same place. */
  lemma TagStepBeforeSpace(a: string, b: string)
    requires |a| >= 2 && a[0] == '#' && IsWordChar(a[1])
    ensures var w := WordRun(a[1..]);
      ContentHashtags(a + " " + b) == [w] + ContentHashtags(a[1 + |w|..] + " " + b)
  {
    var s := a + " " + b;
    var w := WordRun(a[1..]);
    assert s[0] == a[0] && s[1] == a[1];
    assert s[1..] == a[1..] + (" " + b);
    WordRunStops(a[1..], " " + b);
    assert s[1 + |w|..] == a[1 + |w|..] + " " + b;
    TagStep(s);
  }

  /** The case where the scan moves past the first character of `a`. */
  lemma {:induction false} AcrossSpaceSkip(a: string, b: string)
    requires a != [] && !(|a| >= 2 && a[0] == '#' && IsWordChar(a[1]))
    ensures ContentHashtags(a + " " + b) == ContentHashtags(a) + ContentHashtags(b)
    decreases |a|, 0
  {
    var s := a + " " + b;
    assert s[0] == a[0] && s[1..] == a[1..] + " " + b;
    assert s[1] == if |a| == 1 then ' ' else a[1];
    assert ContentHashtags(a) == ContentHashtags(a[1..]);
    ContentHashtagsAcrossSpace(a[1..], b);
  }

  /** The scan at a `#` followed by a word character. */
  lemma TagStep(s: string)
    requires |s| >= 2 && s[0] == '#' && IsWordChar(s[1])
    ensures var w := WordRun(s[1..]); ContentHashtags(s) == [w] + ContentHashtags(s[1 + |w|..])
  {
  }

  /** A run is not extended by text that starts with a non-word
      character. */
  lemma {:induction false} WordRunStops(x: string, y: string)
    requires y != [] && !IsWordChar(y[0])
    ensures WordRun(x + y) == WordRun(x)
    decreases |x|
  {
    if x == [] {
      assert x + y == y;
    } else {
      assert (x + y)[1..] == x[1..] + y;
      WordRunStops(x[1..], y);
    }
  }

  /** `[...new Set([...extractedTags, ...manualTags])]`. */
  function PostTags(content: string, manual: seq<string>): (r: seq<string>)
    ensures Distinct(r)
    ensures forall t :: t in r <==> t in ContentHashtags(content) || t in manual
  {
    Dedup(ContentHashtags(content) + manual)
  }

  /** The content's tags come first, each once, in order of first
      occurrence; every manual tag is included. */
  lemma ContentTagsFirst(content: string, manual: seq<string>)
    ensures Dedup(ContentHashtags(content)) <= PostTags(content, manual)
    ensures forall t :: t in manual ==> t in PostTags(content, manual)
  {
    DedupPrefix(ContentHashtags(content), manual);
  }

  // ---------------------------------------------------------- feed query

  /** The query parameters of the feed request; `None` is a parameter not
      sent. */
  datatype FetchParams = FetchParams(
    search: Option<string>,
    limit: nat,
    sortBy: Option<string>,
    sortOrder: Option<string>,
    feedType: Option<string>)

  /** `fetchPosts`: a search sends the text and the limit, otherwise the
      limit and an explicit newest-first order; `feedType` is sent only for
      the following feed. */
  function FetchParamsFor(search: string, feedType: string): (p: FetchParams)
    ensures p.limit == 50
    ensures search != "" ==> p.search == Some(search) && p.sortBy.None? && p.sortOrder.None?
    ensures search == "" ==> p.search.None? && p.sortBy == Some("createdAt") && p.sortOrder == Some("desc")
    ensures p.feedType.Some? <==> feedType == "following"
    ensures p.feedType.Some? ==> p.feedType.value == "following"
  {
    var base := if search != "" then FetchParams(Some(search), 50, None, None, None)
                else FetchParams(None, 50, Some("createdAt"), Some("desc"), None);
    if feedType == "following" then base.(feedType := Some("following")) else base
  }

  /** The listing's reading of these parameters: what is not sent takes the
      listing's default. */
  function AsQuery(p: FetchParams): (q: FeedQuery)
    ensures q.author.None? && q.tags.None? && q.skip == 0
    ensures q.search == p.search && q.limit == p.limit && q.feedType == p.feedType
    ensures q.sortBy == p.sortBy.GetOr(DefaultQuery().sortBy)
    ensures q.sortOrder == p.sortOrder.GetOr(DefaultQuery().sortOrder)
  {
    FeedQuery(None, None, p.search, p.limit, 0,
              p.sortBy.GetOr(DefaultQuery().sortBy), p.sortOrder.GetOr(DefaultQuery().sortOrder), p.feedType)
  }

  /** Both branches of the request get the first page of at most 50 posts,
      newest first: the search branch leaves the order out, and the
      listing's default is the same order. The request fails exactly for a
      following feed without a known caller. */
  lemma FetchedFeedNewestFirst(users: seq<User>, posts: seq<Post>, caller: Option<Id>,
                               search: string, feedType: string, i: nat, j: nat)
    ensures var r := RenderPost(users, posts, caller, AsQuery(FetchParamsFor(search, feedType)));
      && (r.Failure? <==> feedType == "following" && (caller.None? || caller.value !in Keys(users, UserKey)))
      && (r.Success? ==> |r.value.posts| <= 50 && r.value.page == Some(1))
      && (r.Success? && i < j < |r.value.posts| ==> r.value.posts[i].createdAt >= r.value.posts[j].createdAt)
  {
    var q := AsQuery(FetchParamsFor(search, feedType));
    assert q.sortBy == "createdAt" && q.sortOrder == "desc";
    var r := RenderPost(users, posts, caller, q);
    if r.Success? && i < j < |r.value.posts| {
      PageOrdered(users, posts, caller, q, i, j);
    }
  }

  // ----------------------------------------------------------- page state

  /** The body sent to create a post: `imageUrl` only when an upload gave
      one. */
  datatype PostData = PostData(content: string, tags: seq<string>, imageUrl: Option<string>)

  /** The body `handleCreatePost` sends, if any. Nothing is sent when the
      content is blank and no image is chosen, or when the image upload
      fails. Otherwise the body has the content, the content's tags and the
      manual tags, and the uploaded URL when the upload answered a
      non-empty one. */
  function PostRequest(content: string, manual: seq<string>, image: Option<string>,
                       uploadOk: bool, uploadedUrl: Option<string>): (r: Option<PostData>)
    ensures r.Some? <==> (Trim(content) != "" || image.Some?) && (image.None? || uploadOk)
    ensures r.Some? ==>
      && r.value.content == content
      && r.value.tags == PostTags(content, manual)
      && (r.value.imageUrl.Some? <==> image.Some? && uploadedUrl.Some? && uploadedUrl.value != "")
      && (r.value.imageUrl.Some? ==> r.value.imageUrl == uploadedUrl)
  {
    if Trim(content) == "" && image.None? then None
    else if image.Some? && !uploadOk then None
    else
      var url := if image.Some? && uploadedUrl.Some? && uploadedUrl.value != "" then uploadedUrl else None;
      Some(PostData(content, PostTags(content, manual), url))
  }

  /** A post's like count after the like button: an unlike never goes below
      zero. */
  function Adjusted(n: int, wasLiked: bool): (m: int)
    ensures wasLiked ==> m >= 0 && (n >= 1 ==> m == n - 1)
    ensures !wasLiked ==> m == n + 1
  {
    if wasLiked then (if n - 1 > 0 then n - 1 else 0) else n + 1
  }

  /** `posts.map(...)`: the posts with id `id` get their adjusted count, the
      others are kept. */
  function AdjustLikes(posts: seq<Post>, id: Id, wasLiked: bool): (r: seq<Post>)
    ensures |r| == |posts|
    ensures forall i :: 0 <= i < |posts| && posts[i].id != id ==> r[i] == posts[i]
    ensures forall i :: 0 <= i < |posts| && posts[i].id == id ==>
      r[i] == posts[i].(likesCount := Adjusted(posts[i].likesCount, wasLiked))
  {
    seq(|posts|, i requires 0 <= i < |posts| =>
      if posts[i].id == id then posts[i].(likesCount := Adjusted(posts[i].likesCount, wasLiked)) else posts[i])
  }

  /** Liking and then unliking a post restores the list shown, as long as
      no count shown was negative. */
  lemma LikeThenUnlike(posts: seq<Post>, id: Id)
    requires forall i :: 0 <= i < |posts| && posts[i].id == id ==> posts[i].likesCount >= 0
    ensures AdjustLikes(AdjustLikes(posts, id, false), id, true) == posts
  {
    var r := AdjustLikes(AdjustLikes(posts, id, false), id, true);
    assert forall i :: 0 <= i < |posts| ==> r[i] == posts[i];
  }

  /** Unliking and then liking restores the list shown when every count of
      that post was positive; a zero count comes back as one. */
  lemma UnlikeThenLike(posts: seq<Post>, id: Id)
    ensures var r := AdjustLikes(AdjustLikes(posts, id, true), id, false);
      && |r| == |posts|
      && forall i :: 0 <= i < |posts| ==>
        (posts[i].id == id && posts[i].likesCount <= 0 ==> r[i].likesCount == 1)
        && (posts[i].id != id || posts[i].likesCount >= 1 ==> r[i] == posts[i])
  {
  }

  /** A tag as the tag input adds it. */
  predicate TrimmedTag(t: string) {
    t != "" && Trim(t) == t
  }

  /** The manual tag list the tag input maintains: trimmed, non-empty tags,
      each listed once. */
  ghost predicate CleanTags(tags: seq<string>) {
    Distinct(tags) && forall t :: t in tags ==> TrimmedTag(t)
  }

  /** Appending a trimmed tag that is not listed yet keeps the list
      well-formed. */
  lemma AppendTagKeepsList(tags: seq<string>, raw: string)
    requires CleanTags(tags)
    requires Trim(raw) != "" && Trim(raw) !in tags
    ensures CleanTags(tags + [Trim(raw)])
  {
    TrimIdempotent(raw);
    AppendDistinct(tags, Trim(raw));
  }

  /** Dropping a tag keeps the list well-formed. */
  lemma RemoveTagKeepsList(tags: seq<string>, tag: string)
    requires CleanTags(tags)
    ensures CleanTags(Without(tags, tag))
  {
    WithoutDistinct(tags, tag);
  }

  /** The page's state. */
  class HomePage {
    var posts: seq<Post>
    var likedPosts: set<Id>
    var following: set<Id>
    var manualTags: seq<string>
    var tagInput: string
    var newPostContent: string
    var selectedImage: Option<string>
    var imagePreview: Option<string>

    /** The manual tags are trimmed, non-empty and listed once each. */
    ghost predicate Valid()
      reads this
    {
      CleanTags(manualTags)
    }

    constructor()
      ensures Valid()
      ensures posts == [] && likedPosts == {} && following == {} && manualTags == []
      ensures tagInput == "" && newPostContent == "" && selectedImage.None? && imagePreview.None?
    {
      posts, likedPosts, following, manualTags := [], {}, {}, [];
      tagInput, newPostContent, selectedImage, imagePreview := "", "", None, None;
    }

    /** `handleAddTag`: the trimmed input is appended, and the input
        cleared, only when it is non-empty and not listed yet. */
    method AddTag()
      requires Valid()
      modifies this
      ensures Valid()
      ensures var t := Trim(old(tagInput));
        if t != "" && t !in old(manualTags) then manualTags == old(manualTags) + [t] && tagInput == ""
        else manualTags == old(manualTags) && tagInput == old(tagInput)
      ensures posts == old(posts) && likedPosts == old(likedPosts) && following == old(following)
      ensures newPostContent == old(newPostContent)
      ensures selectedImage == old(selectedImage) && imagePreview == old(imagePreview)
    {
      var t := Trim(tagInput);
      if t != "" && t !in manualTags {
        AppendTagKeepsList(manualTags, tagInput);
        manualTags := manualTags + [t];
        tagInput := "";
      }
    }

    /** `handleRemoveTag`: every tag equal to `tag` is dropped. */
    method RemoveTag(tag: string)
      requires Valid()
      modifies this
      ensures Valid()
      ensures manualTags == Without(old(manualTags), tag)
      ensures tagInput == old(tagInput) && newPostContent == old(newPostContent)
      ensures posts == old(posts) && likedPosts == old(likedPosts) && following == old(following)
      ensures selectedImage == old(selectedImage) && imagePreview == old(imagePreview)
    {
      RemoveTagKeepsList(manualTags, tag);
      manualTags := Without(manualTags, tag);
    }

    /** `handleLike`: after a successful request the post's id leaves or
        joins the liked set and its shown count moves by one; a failed
        request changes nothing. */
    method ToggleLike(postId: Id, requestOk: bool)
      modifies this
      ensures !requestOk ==> posts == old(posts) && likedPosts == old(likedPosts)
      ensures requestOk ==> var wasLiked := postId in old(likedPosts);
        && likedPosts == (if wasLiked then old(likedPosts) - {postId} else old(likedPosts) + {postId})
        && posts == AdjustLikes(old(posts), postId, wasLiked)
      ensures following == old(following) && manualTags == old(manualTags) && tagInput == old(tagInput)
      ensures newPostContent == old(newPostContent)
      ensures selectedImage == old(selectedImage) && imagePreview == old(imagePreview)
    {
      if requestOk {
        var wasLiked := postId in likedPosts;
        if wasLiked {
          likedPosts := likedPosts - {postId};
        } else {
          likedPosts := likedPosts + {postId};
        }
        posts := AdjustLikes(posts, postId, wasLiked);
      }
    }

    /** `handleFollow`: after a successful request the user leaves or joins
        the followed set; a failed request changes nothing. */
    method ToggleFollow(userId: Id, requestOk: bool)
      modifies this
      ensures requestOk && userId in old(following) ==> following == old(following) - {userId}
      ensures requestOk && userId !in old(following) ==> following == old(following) + {userId}
      ensures !requestOk ==> following == old(following)
      ensures posts == old(posts) && likedPosts == old(likedPosts) && manualTags == old(manualTags)
      ensures tagInput == old(tagInput) && newPostContent == old(newPostContent)
      ensures selectedImage == old(selectedImage) && imagePreview == old(imagePreview)
    {
      if requestOk {
        if userId in following {
          following := following - {userId};
        } else {
          following := following + {userId};
        }
      }
    }

    /** `handleRemoveImage`: the file and its preview are both cleared. */
    method RemoveImage()
      modifies this
      ensures selectedImage.None? && imagePreview.None?
      ensures posts == old(posts) && likedPosts == old(likedPosts) && following == old(following)
      ensures manualTags == old(manualTags) && tagInput == old(tagInput) && newPostContent == old(newPostContent)
    {
      selectedImage, imagePreview := None, None;
    }

    /** `handleCreatePost`: the body of `PostRequest` is sent; when the
        creation succeeds the form is cleared, and otherwise it is kept. */
    method CreatePost(uploadOk: bool, uploadedUrl: Option<string>, createOk: bool) returns (sent: Option<PostData>)
      requires Valid()
      modifies this
      ensures Valid()
      ensures sent == PostRequest(old(newPostContent), old(manualTags), old(selectedImage), uploadOk, uploadedUrl)
      ensures sent.Some? && createOk ==>
        newPostContent == "" && manualTags == [] && tagInput == "" && selectedImage.None? && imagePreview.None?
      ensures sent.None? || !createOk ==>
        manualTags == old(manualTags) && newPostContent == old(newPostContent)
        && tagInput == old(tagInput) && selectedImage == old(selectedImage) && imagePreview == old(imagePreview)
      ensures posts == old(posts) && likedPosts == old(likedPosts) && following == old(following)
    {
      sent := PostRequest(newPostContent, manualTags, selectedImage, uploadOk, uploadedUrl);
      if sent.Some? && createOk {
        newPostContent, manualTags, tagInput := "", [], "";
        selectedImage, imagePreview := None, None;
      }
    }
  }
}
