/** Likes, comments and the `likesCount` field kept on each post. The
    invariant of this part of the store is that every post's `likesCount` is
    the number of like rows that reference it; like, unlike, update and the
    cascading delete are stated here on the collections and proved to keep
    it. */
module Engagement {
  import opened Wrappers
  import opened Seqs
  import opened Schema

  /** `postModel.findById(id)`. */
  function PostById(posts: seq<Post>, id: Id): (r: Option<Post>)
    ensures r.Some? ==> r.value in posts && r.value.id == id
    ensures r.None? <==> id !in Keys(posts, PostKey)
  {
    match FindIndex(posts, PostKey, id)
    case None => None
    case Some(i) => Some(posts[i])
  }

  /** With unique ids, the post found for `id` is the one stored at any index
      holding `id`. */
  lemma PostAt(posts: seq<Post>, id: Id, i: nat)
    requires KeysDistinct(posts, PostKey)
    requires i < |posts| && posts[i].id == id
    ensures PostById(posts, id) == Some(posts[i])
  {
    var k := FindIndex(posts, PostKey, id);
    if k.value != i {
      assert PostKey(posts[k.value]) == PostKey(posts[i]);
    }
  }

  /** `commentModel.find({ post: p })`, in collection order. */
  function CommentsOn(comments: seq<Comment>, p: Id): (r: seq<Comment>)
    ensures forall c :: c in r <==> c in comments && c.post == p
  {
    Filter(comments, (c: Comment) => c.post == p)
  }

  // ------------------------------------------------------------ counting

  /** The like rows a query selects: `{ post: p }`, and its complement. */
  function LikeOn(p: Id): Like -> bool {
    (l: Like) => l.post == p
  }

  function LikeNotOn(p: Id): Like -> bool {
    (l: Like) => l.post != p
  }

  /** The posts and comments a cascading delete of post `p` keeps. */
  function OtherPost(p: Id): Post -> bool {
    (q: Post) => q.id != p
  }

  function CommentNotOn(p: Id): Comment -> bool {
    (c: Comment) => c.post != p
  }

  /** `likeModel.find({ post: p })`, in collection order. */
  function LikesOn(likes: seq<Like>, p: Id): (r: seq<Like>)
    ensures forall l :: l in r <==> l in likes && l.post == p
  {
    Filter(likes, LikeOn(p))
  }

  /** `likeModel.countDocuments({ post: p })`. */
  function CountLikes(likes: seq<Like>, p: Id): (n: nat)
    ensures n <= |likes|
    ensures n == 0 <==> forall l :: l in likes ==> l.post != p
  {
    var r := LikesOn(likes, p);
    assert r != [] ==> r[0] in r;
    |r|
  }

  /** Adding one like row raises the count of its own post by one and
      leaves every other post's count alone. */
  lemma CountAppend(likes: seq<Like>, l: Like, p: Id)
    ensures CountLikes(likes + [l], p) == CountLikes(likes, p) + (if l.post == p then 1 else 0)
  {
    FilterAppend(likes, [l], LikeOn(p));
  }

  /** Deleting one like row lowers the count of its own post by one and
      leaves every other post's count alone. */
  lemma CountDeleteFirst(likes: seq<Like>, l: Like, p: Id)
    requires l in likes
    ensures CountLikes(DeleteFirst(likes, l), p) == CountLikes(likes, p) - (if l.post == p then 1 else 0)
  {
    FilterDeleteFirst(likes, l, LikeOn(p));
  }

  // -------------------------------------------------------------- writes

  /** `post.likesCount = n; post.save()` for the post whose id is `p`. */
  function SetLikesCount(posts: seq<Post>, p: Id, n: int): (r: seq<Post>)
    ensures |r| == |posts|
    ensures forall i :: 0 <= i < |posts| && posts[i].id == p ==> r[i] == posts[i].(likesCount := n)
    ensures forall i :: 0 <= i < |posts| && posts[i].id != p ==> r[i] == posts[i]
  {
    seq(|posts|, i requires 0 <= i < |posts| =>
      if posts[i].id == p then posts[i].(likesCount := n) else posts[i])
  }

  /** `postModel.findByIdAndDelete(p)`. */
  function RemovePost(posts: seq<Post>, p: Id): (r: seq<Post>)
    ensures forall q :: q in r <==> q in posts && q.id != p
  {
    Filter(posts, OtherPost(p))
  }

  /** `commentModel.deleteMany({ post: p })`. */
  function CommentsNotOn(comments: seq<Comment>, p: Id): (r: seq<Comment>)
    ensures forall c :: c in r <==> c in comments && c.post != p
  {
    Filter(comments, CommentNotOn(p))
  }

  /** `likeModel.deleteMany({ post: p })`. */
  function LikesNotOn(likes: seq<Like>, p: Id): (r: seq<Like>)
    ensures forall l :: l in r <==> l in likes && l.post != p
  {
    Filter(likes, LikeNotOn(p))
  }

  /** Deleting the likes of one post does not change any other post's
      count. */
  lemma CountLikesNotOn(likes: seq<Like>, p: Id, q: Id)
    requires p != q
    ensures CountLikes(LikesNotOn(likes, p), q) == CountLikes(likes, q)
  {
    FilterFilter(likes, LikeNotOn(p), LikeOn(q));
  }

  /** Replacing the post whose id is `p` by `q` (a `post.save()` after
      changing some of its fields). */
  function ReplacePost(posts: seq<Post>, p: Id, q: Post): (r: seq<Post>)
    ensures |r| == |posts|
    ensures forall i :: 0 <= i < |posts| && posts[i].id == p ==> r[i] == q
    ensures forall i :: 0 <= i < |posts| && posts[i].id != p ==> r[i] == posts[i]
  {
    seq(|posts|, i requires 0 <= i < |posts| => if posts[i].id == p then q else posts[i])
  }

  // ----------------------------------------------------------- invariant

  /** Each post's stored `likesCount` equals its live like count. */
  ghost predicate CountsAccurate(posts: seq<Post>, likes: seq<Like>) {
    forall i :: 0 <= i < |posts| ==> posts[i].likesCount == CountLikes(likes, posts[i].id)
  }

  /** The invariant of posts, comments and likes: unique ids, at most one
      like per (post, user), every like and comment references a stored
      post, and the stored counts are accurate. */
  ghost predicate EngagementValid(posts: seq<Post>, comments: seq<Comment>, likes: seq<Like>) {
    && KeysDistinct(posts, PostKey)
    && KeysDistinct(comments, CommentKey)
    && UniqueLikes(likes)
    && (forall l :: l in likes ==> l.post in Keys(posts, PostKey))
    && (forall c :: c in comments ==> c.post in Keys(posts, PostKey))
    && CountsAccurate(posts, likes)
  }

  /** With ids unique, setting the count of post `p` to its live count after
      a change that only touched likes of `p` makes the counts accurate. */
  lemma RecountAccurate(posts: seq<Post>, likes: seq<Like>, likes': seq<Like>, p: Id)
    requires CountsAccurate(posts, likes)
    requires forall q :: q != p ==> CountLikes(likes', q) == CountLikes(likes, q)
    ensures CountsAccurate(SetLikesCount(posts, p, CountLikes(likes', p)), likes')
  {
    var r := SetLikesCount(posts, p, CountLikes(likes', p));
    forall i | 0 <= i < |r| ensures r[i].likesCount == CountLikes(likes', r[i].id) {
      if posts[i].id != p {
        assert r[i] == posts[i];
      }
    }
  }

  lemma SetLikesCountKeys(posts: seq<Post>, p: Id, n: int)
    ensures Keys(SetLikesCount(posts, p, n), PostKey) == Keys(posts, PostKey)
    ensures KeysDistinct(posts, PostKey) ==> KeysDistinct(SetLikesCount(posts, p, n), PostKey)
  {
    var r := SetLikesCount(posts, p, n);
    assert forall i :: 0 <= i < |r| ==> r[i].id == posts[i].id;
    forall k | k in Keys(r, PostKey) ensures k in Keys(posts, PostKey) {
      var i :| 0 <= i < |r| && r[i].id == k;
      assert posts[i].id == k;
    }
  }

  /** A successful like (`likeModel.create` then the recount) keeps the
      invariant and raises the post's count by exactly one. */
  lemma {:induction false} LikeKeepsValid(posts: seq<Post>, comments: seq<Comment>, likes: seq<Like>, p: Id, u: Id)
    requires EngagementValid(posts, comments, likes)
    requires p in Keys(posts, PostKey) && Like(p, u) !in likes
    ensures var likes' := likes + [Like(p, u)];
      && CountLikes(likes', p) == CountLikes(likes, p) + 1
      && EngagementValid(SetLikesCount(posts, p, CountLikes(likes', p)), comments, likes')
  {
    var likes' := likes + [Like(p, u)];
    forall q | q != p ensures CountLikes(likes', q) == CountLikes(likes, q) {
      CountAppend(likes, Like(p, u), q);
    }
    CountAppend(likes, Like(p, u), p);
    RecountAccurate(posts, likes, likes', p);
    SetLikesCountKeys(posts, p, CountLikes(likes', p));
    AppendDistinct(likes, Like(p, u));
  }

  /** A successful unlike (`likeModel.deleteOne` then the recount) keeps the
      invariant and lowers the post's count by exactly one. */
  lemma {:induction false} UnlikeKeepsValid(posts: seq<Post>, comments: seq<Comment>, likes: seq<Like>, p: Id, u: Id)
    requires EngagementValid(posts, comments, likes)
    requires Like(p, u) in likes
    ensures var likes' := DeleteFirst(likes, Like(p, u));
      && CountLikes(likes', p) == CountLikes(likes, p) - 1
      && EngagementValid(SetLikesCount(posts, p, CountLikes(likes', p)), comments, likes')
  {
    var l := Like(p, u);
    var likes' := DeleteFirst(likes, l);
    forall q | q != p ensures CountLikes(likes', q) == CountLikes(likes, q) {
      CountDeleteFirst(likes, l, q);
    }
    CountDeleteFirst(likes, l, p);
    RecountAccurate(posts, likes, likes', p);
    SetLikesCountKeys(posts, p, CountLikes(likes', p));
    DeleteFirstSubset(likes, l);
  }

  /** Liking and then unliking a post as the same user restores both the
      like rows and every post, count included. */
  lemma LikeUnlikeRoundTrip(posts: seq<Post>, likes: seq<Like>, p: Id, u: Id)
    requires CountsAccurate(posts, likes)
    requires Like(p, u) !in likes
    ensures var likes' := likes + [Like(p, u)];
      var posts' := SetLikesCount(posts, p, CountLikes(likes', p));
      && DeleteFirst(likes', Like(p, u)) == likes
      && SetLikesCount(posts', p, CountLikes(DeleteFirst(likes', Like(p, u)), p)) == posts
  {
    DeleteFirstAppended(likes, Like(p, u));
  }

  /** Deleting post `p` with its comments and likes keeps the invariant. */
  lemma {:induction false} DeleteKeepsValid(posts: seq<Post>, comments: seq<Comment>, likes: seq<Like>, p: Id)
    requires EngagementValid(posts, comments, likes)
    ensures EngagementValid(RemovePost(posts, p), CommentsNotOn(comments, p), LikesNotOn(likes, p))
    ensures Keys(RemovePost(posts, p), PostKey) <= Keys(posts, PostKey)
    ensures Keys(CommentsNotOn(comments, p), CommentKey) <= Keys(comments, CommentKey)
  {
    var posts' := RemovePost(posts, p);
    var comments' := CommentsNotOn(comments, p);
    var likes' := LikesNotOn(likes, p);
    FilterKeysDistinct(posts, OtherPost(p), PostKey);
    FilterKeysDistinct(comments, CommentNotOn(p), CommentKey);
    FilterDistinct(likes, LikeNotOn(p));
    forall k | k in Keys(posts, PostKey) && k != p ensures k in Keys(posts', PostKey) {
      var i :| 0 <= i < |posts| && posts[i].id == k;
      assert posts[i] in posts';
    }
    forall k | k in Keys(posts', PostKey) ensures k in Keys(posts, PostKey) {
      var i :| 0 <= i < |posts'| && posts'[i].id == k;
      assert posts'[i] in posts;
    }
    forall k | k in Keys(comments', CommentKey) ensures k in Keys(comments, CommentKey) {
      var i :| 0 <= i < |comments'| && comments'[i].id == k;
      assert comments'[i] in comments;
    }
    forall i | 0 <= i < |posts'| ensures posts'[i].likesCount == CountLikes(likes', posts'[i].id) {
      assert posts'[i] in posts;
      CountLikesNotOn(likes, p, posts'[i].id);
    }
  }

  /** Saving a changed post whose id and `likesCount` stay the same keeps the
      invariant. */
  lemma ReplaceKeepsValid(posts: seq<Post>, comments: seq<Comment>, likes: seq<Like>, p: Id, q: Post)
    requires EngagementValid(posts, comments, likes)
    requires q.id == p
    requires forall i :: 0 <= i < |posts| && posts[i].id == p ==> posts[i].likesCount == q.likesCount
    ensures EngagementValid(ReplacePost(posts, p, q), comments, likes)
  {
    var r := ReplacePost(posts, p, q);
    forall i | 0 <= i < |r| ensures r[i].id == posts[i].id && r[i].likesCount == posts[i].likesCount {
      if posts[i].id == p {
        assert r[i] == q;
      }
    }
    SameIdsSameKeys(posts, r);
    assert CountsAccurate(r, likes);
  }

  /** Rewriting posts in place without changing any id keeps the key set
      and its uniqueness. */
  lemma SameIdsSameKeys(posts: seq<Post>, r: seq<Post>)
    requires |r| == |posts|
    requires forall i :: 0 <= i < |r| ==> r[i].id == posts[i].id
    ensures Keys(r, PostKey) == Keys(posts, PostKey)
    ensures KeysDistinct(posts, PostKey) ==> KeysDistinct(r, PostKey)
  {
    forall k | k in Keys(r, PostKey) ensures k in Keys(posts, PostKey) {
      var i :| 0 <= i < |r| && r[i].id == k;
      assert posts[i].id == k;
    }
    forall k | k in Keys(posts, PostKey) ensures k in Keys(r, PostKey) {
      var i :| 0 <= i < |posts| && posts[i].id == k;
      assert r[i].id == k;
    }
  }

  /** Storing a new post with a fresh id and no likes keeps the invariant. */
  lemma {:induction false} AddPostKeepsValid(posts: seq<Post>, comments: seq<Comment>, likes: seq<Like>, p: Post)
    requires EngagementValid(posts, comments, likes)
    requires p.id !in Keys(posts, PostKey) && p.likesCount == 0
    ensures EngagementValid(posts + [p], comments, likes)
  {
    var r := posts + [p];
    forall k | k in Keys(posts, PostKey) ensures k in Keys(r, PostKey) {
      var i :| 0 <= i < |posts| && posts[i].id == k;
      assert r[i].id == k;
    }
    forall i, j | 0 <= i < j < |r| ensures PostKey(r[i]) != PostKey(r[j]) {
      if j == |posts| { assert posts[i].id in Keys(posts, PostKey); }
    }
    forall i | 0 <= i < |r| ensures r[i].likesCount == CountLikes(likes, r[i].id) {
      if i < |posts| {
        assert r[i] == posts[i];
      } else {
        assert forall l :: l in likes ==> l.post != p.id;
      }
    }
  }

  /** Storing a comment with a fresh id on a stored post keeps the
      invariant. */
  lemma {:induction false} AddCommentKeepsValid(posts: seq<Post>, comments: seq<Comment>, likes: seq<Like>, c: Comment)
    requires EngagementValid(posts, comments, likes)
    requires c.id !in Keys(comments, CommentKey) && c.post in Keys(posts, PostKey)
    ensures EngagementValid(posts, comments + [c], likes)
  {
    var r := comments + [c];
    forall i, j | 0 <= i < j < |r| ensures CommentKey(r[i]) != CommentKey(r[j]) {
      if j == |comments| { assert comments[i].id in Keys(comments, CommentKey); }
    }
  }
}
