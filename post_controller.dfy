/** The post handlers that write to the database (create, update, delete,
    comment, like, unlike) as methods on the store, and the two read-only
    lookups by id. Each write handler answers with a status and leaves the
    store valid; on every error path it changes nothing. */
module PostController {
  import opened Wrappers
  import opened Seqs
  import opened Sorting
  import opened Schema
  import opened Engagement
  import opened Db

  /** The body of a create or update request; `None` is a field the client
      did not send. */
  datatype PostFields = PostFields(
    title: Option<string>,
    content: Option<string>,
    tags: Option<seq<string>>,
    imageUrl: Option<string>)

  /** The create schema: an optional non-empty title and a required
      non-empty content. */
  predicate CreateFieldsValid(f: PostFields) {
    && (f.title.None? || |f.title.value| >= 1)
    && f.content.Some? && |f.content.value| >= 1
  }

  /** The update schema: every field optional, title and content non-empty
      when sent, and `imageUrl` a well-formed URL when sent. */
  predicate UpdateFieldsValid(f: PostFields, isUrl: string -> bool) {
    && (f.title.None? || |f.title.value| >= 1)
    && (f.content.None? || |f.content.value| >= 1)
    && (f.imageUrl.None? || isUrl(f.imageUrl.value))
  }

  /** The post after an update: each field that was sent replaces the stored
      one, `updatedAt` becomes the time of the update, and nothing else
      changes. */
  function Patched(p: Post, f: PostFields, now: int): (q: Post)
    ensures q.id == p.id && q.author == p.author && q.media == p.media
    ensures q.likesCount == p.likesCount && q.createdAt == p.createdAt
    ensures f.title.Some? ==> q.title == f.title
    ensures f.title.None? ==> q.title == p.title
    ensures f.content.Some? ==> q.content == f.content.value
    ensures f.content.None? ==> q.content == p.content
    ensures f.tags.Some? ==> q.tags == f.tags.value
    ensures f.tags.None? ==> q.tags == p.tags
    ensures q.updatedAt == now
  {
    p.(title := if f.title.Some? then f.title else p.title,
       content := f.content.GetOr(p.content),
       tags := f.tags.GetOr(p.tags),
       updatedAt := now)
  }

  /** `createPost`: 400 when the body fails the schema; otherwise 201 and a
      new post with a fresh id, written by the caller, with the schema's
      defaults. */
  method CreatePost(db: Store, caller: Id, f: PostFields, now: int) returns (status: Status, post: Option<Post>)
    requires db.Valid()
    modifies db
    ensures db.Valid()
    ensures !CreateFieldsValid(f) ==> status == BadRequest && post.None? && unchanged(db)
    ensures CreateFieldsValid(f) ==>
      && status == Created
      && post == Some(CreatedPost(old(db.nextId), caller, f.title, f.content.value, f.tags, now))
      && post.value.id !in Keys(old(db.posts), PostKey)
      && db.posts == old(db.posts) + [post.value]
      && db.nextId == old(db.nextId) + 1
    ensures db.users == old(db.users) && db.comments == old(db.comments) && db.likes == old(db.likes)
  {
    if !CreateFieldsValid(f) {
      return BadRequest, None;
    }
    var p := CreatedPost(db.nextId, caller, f.title, f.content.value, f.tags, now);
    AddPostKeepsStore(db.users, db.posts, db.comments, db.likes, db.nextId, p);
    db.Save(db.users, db.posts + [p], db.comments, db.likes, db.nextId + 1);
    status, post := Created, Some(p);
  }

  /** `updatePost`: validation first (400), then the lookup (404), then the
      ownership check (403); on success the sent fields overwrite the stored
      ones and `updatedAt` is set. */
  method UpdatePost(db: Store, caller: Id, postId: Id, f: PostFields, isUrl: string -> bool, now: int)
    returns (status: Status)
    requires db.Valid()
    modifies db
    ensures db.Valid()
    ensures !UpdateFieldsValid(f, isUrl) ==> status == BadRequest
    ensures UpdateFieldsValid(f, isUrl) && postId !in Keys(old(db.posts), PostKey) ==> status == NotFound
    ensures var p := PostById(old(db.posts), postId);
      UpdateFieldsValid(f, isUrl) && p.Some? && p.value.author != caller ==> status == Forbidden
    ensures var p := PostById(old(db.posts), postId);
      UpdateFieldsValid(f, isUrl) && p.Some? && p.value.author == caller ==>
        && status == Ok
        && db.posts == ReplacePost(old(db.posts), postId, Patched(p.value, f, now))
    ensures status != Ok ==> unchanged(db)
    ensures db.users == old(db.users) && db.comments == old(db.comments) && db.likes == old(db.likes)
    ensures db.nextId == old(db.nextId)
  {
    if !UpdateFieldsValid(f, isUrl) {
      return BadRequest;
    }
    var p := PostById(db.posts, postId);
    if p.None? {
      return NotFound;
    }
    if p.value.author != caller {
      return Forbidden;
    }
    var q := Patched(p.value, f, now);
    forall i | 0 <= i < |db.posts| && db.posts[i].id == postId
      ensures db.posts[i].likesCount == q.likesCount
    {
      PostAt(db.posts, postId, i);
    }
    ReplacePostKeepsStore(db.users, db.posts, db.comments, db.likes, db.nextId, postId, q);
    db.Save(db.users, ReplacePost(db.posts, postId, q), db.comments, db.likes, db.nextId);
    status := Ok;
  }

  /** `deletePost`: 404 or 403 change nothing; the author's delete removes
      the post, every comment on it and every like of it, and nothing
      else. */
  method DeletePost(db: Store, caller: Id, postId: Id) returns (status: Status)
    requires db.Valid()
    modifies db
    ensures db.Valid()
    ensures postId !in Keys(old(db.posts), PostKey) ==> status == NotFound
    ensures var p := PostById(old(db.posts), postId);
      p.Some? && p.value.author != caller ==> status == Forbidden
    ensures var p := PostById(old(db.posts), postId);
      p.Some? && p.value.author == caller ==>
        && status == Ok
        && db.posts == RemovePost(old(db.posts), postId)
        && db.comments == CommentsNotOn(old(db.comments), postId)
        && db.likes == LikesNotOn(old(db.likes), postId)
    ensures status != Ok ==> unchanged(db)
    ensures db.users == old(db.users) && db.nextId == old(db.nextId)
  {
    var p := PostById(db.posts, postId);
    if p.None? {
      return NotFound;
    }
    if p.value.author != caller {
      return Forbidden;
    }
    DeletePostKeepsStore(db.users, db.posts, db.comments, db.likes, db.nextId, postId);
    db.Save(db.users, RemovePost(db.posts, postId), CommentsNotOn(db.comments, postId), LikesNotOn(db.likes, postId),
            db.nextId);
    status := Ok;
  }

  /** `addComment`: 400 for a missing or empty content, then 404 for a
      missing post; otherwise 201 and one new comment by the caller. */
  method AddComment(db: Store, caller: Id, postId: Id, content: Option<string>, now: int)
    returns (status: Status, comment: Option<Comment>)
    requires db.Valid()
    modifies db
    ensures db.Valid()
    ensures content.None? || content.value == [] ==> status == BadRequest
    ensures content.Some? && content.value != [] && postId !in Keys(old(db.posts), PostKey) ==> status == NotFound
    ensures content.Some? && content.value != [] && postId in Keys(old(db.posts), PostKey) ==>
      && status == Created
      && comment == Some(Comment(old(db.nextId), content.value, postId, caller, now))
      && db.comments == old(db.comments) + [comment.value]
      && db.nextId == old(db.nextId) + 1
    ensures status != Created ==> comment.None? && unchanged(db)
    ensures db.users == old(db.users) && db.posts == old(db.posts) && db.likes == old(db.likes)
  {
    if content.None? || content.value == [] {
      return BadRequest, None;
    }
    if PostById(db.posts, postId).None? {
      return NotFound, None;
    }
    var c := Comment(db.nextId, content.value, postId, caller, now);
    AddCommentKeepsStore(db.users, db.posts, db.comments, db.likes, db.nextId, c);
    db.Save(db.users, db.posts, db.comments + [c], db.likes, db.nextId + 1);
    status, comment := Created, Some(c);
  }

  /** `likePost`: 404 for a missing post and 400 for a repeated like, both
      changing nothing; otherwise the like row is added, the post's
      `likesCount` is set to its live count, which is one more than
      before, and that count is returned. */
  method LikePost(db: Store, caller: Id, postId: Id) returns (status: Status, likesCount: nat)
    requires db.Valid()
    modifies db
    ensures db.Valid()
    ensures postId !in Keys(old(db.posts), PostKey) ==> status == NotFound
    ensures postId in Keys(old(db.posts), PostKey) && Like(postId, caller) in old(db.likes) ==> status == BadRequest
    ensures postId in Keys(old(db.posts), PostKey) && Like(postId, caller) !in old(db.likes) ==>
      && status == Ok
      && db.likes == old(db.likes) + [Like(postId, caller)]
      && likesCount == CountLikes(db.likes, postId) == CountLikes(old(db.likes), postId) + 1
      && db.posts == SetLikesCount(old(db.posts), postId, likesCount)
    ensures status != Ok ==> unchanged(db)
    ensures db.users == old(db.users) && db.comments == old(db.comments) && db.nextId == old(db.nextId)
  {
    if PostById(db.posts, postId).None? {
      return NotFound, 0;
    }
    if Like(postId, caller) in db.likes {
      return BadRequest, 0;
    }
    LikeKeepsStore(db.users, db.posts, db.comments, db.likes, db.nextId, postId, caller);
    var likes := db.likes + [Like(postId, caller)];
    likesCount := CountLikes(likes, postId);
    db.Save(db.users, SetLikesCount(db.posts, postId, likesCount), db.comments, likes, db.nextId);
    status := Ok;
  }

  /** `unlikePost`: 404 for a missing post and 400 when the caller has not
      liked it, both changing nothing; otherwise the like row is deleted, the
      post's `likesCount` is set to its live count, which is one less than
      before, and that count is returned. */
  method UnlikePost(db: Store, caller: Id, postId: Id) returns (status: Status, likesCount: nat)
    requires db.Valid()
    modifies db
    ensures db.Valid()
    ensures postId !in Keys(old(db.posts), PostKey) ==> status == NotFound
    ensures postId in Keys(old(db.posts), PostKey) && Like(postId, caller) !in old(db.likes) ==> status == BadRequest
    ensures postId in Keys(old(db.posts), PostKey) && Like(postId, caller) in old(db.likes) ==>
      && status == Ok
      && db.likes == DeleteFirst(old(db.likes), Like(postId, caller))
      && Like(postId, caller) !in db.likes
      && likesCount == CountLikes(db.likes, postId) == CountLikes(old(db.likes), postId) - 1
      && db.posts == SetLikesCount(old(db.posts), postId, likesCount)
    ensures status != Ok ==> unchanged(db)
    ensures db.users == old(db.users) && db.comments == old(db.comments) && db.nextId == old(db.nextId)
  {
    if PostById(db.posts, postId).None? {
      return NotFound, 0;
    }
    if Like(postId, caller) !in db.likes {
      return BadRequest, 0;
    }
    UnlikeKeepsStore(db.users, db.posts, db.comments, db.likes, db.nextId, postId, caller);
    UnlikeRemovesLike(db.likes, Like(postId, caller));
    var likes := DeleteFirst(db.likes, Like(postId, caller));
    likesCount := CountLikes(likes, postId);
    db.Save(db.users, SetLikesCount(db.posts, postId, likesCount), db.comments, likes, db.nextId);
    status := Ok;
  }

  /** With at most one row per (post, user), deleting the caller's row
      leaves none. */
  lemma UnlikeRemovesLike(likes: seq<Like>, l: Like)
    requires Distinct(likes) && l in likes
    ensures l !in DeleteFirst(likes, l)
  {
    var i := FirstIndexOf(likes, l);
    var r := DeleteFirst(likes, l);
    assert r == likes[..i] + likes[i + 1..];
    forall k | 0 <= k < |r| ensures r[k] != l {
      assert r[k] == likes[if k < i then k else k + 1];
    }
  }

  // --------------------------------------------------------------- reads

  /** `renderbyId`: the stored post with that id, or 404. */
  function RenderById(posts: seq<Post>, postId: Id): (r: Result<Post>)
    ensures r.Success? ==> r.value in posts && r.value.id == postId
    ensures r.Failure? <==> postId !in Keys(posts, PostKey)
    ensures r.Failure? ==> r.status == NotFound
  {
    match PostById(posts, postId)
    case None => Failure(NotFound)
    case Some(p) => Success(p)
  }

  function NegCreatedAt(c: Comment): int { -c.createdAt }

  /** `getComments`: 404 for a missing post; otherwise exactly the comments
      on that post, newest first. */
  function GetComments(posts: seq<Post>, comments: seq<Comment>, postId: Id): (r: Result<seq<Comment>>)
    ensures r.Failure? <==> postId !in Keys(posts, PostKey)
    ensures r.Failure? ==> r.status == NotFound
    ensures r.Success? ==> multiset(r.value) == multiset(CommentsOn(comments, postId))
    ensures r.Success? ==> forall c :: c in r.value ==> c in comments && c.post == postId
    ensures r.Success? ==> forall i, j :: 0 <= i < j < |r.value| ==> r.value[i].createdAt >= r.value[j].createdAt
  {
    if PostById(posts, postId).None? then Failure(NotFound)
    else
      var sorted := SortBy(CommentsOn(comments, postId), NegCreatedAt);
      assert forall c :: c in sorted ==> c in multiset(CommentsOn(comments, postId));
      Success(sorted)
  }
}
