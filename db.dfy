/** The database: the four collections of the schema held by one object.
    Every controller reads and writes it; `nextId` stands for the generator
    of fresh `ObjectId`s. The lemmas below state, on the collections, that
    each kind of write keeps the store's invariant. */
module Db {
  import opened Seqs
  import opened Schema
  import opened SocialGraph
  import opened Engagement

  /** Every key in `ks` is below `n`, so `n` is a fresh id. */
  ghost predicate Below(ks: set<Id>, n: nat) {
    forall k :: k in ks ==> k < n
  }

  /** The store's invariant: the follow graph is valid, emails are unique,
      the engagement invariant holds and fresh ids are really fresh. */
  ghost predicate StoreValid(users: seq<User>, posts: seq<Post>, comments: seq<Comment>, likes: seq<Like>, nextId: nat) {
    && GraphValid(users)
    && UniqueEmails(users)
    && EngagementValid(posts, comments, likes)
    && Below(Keys(users, UserKey), nextId)
    && Below(Keys(posts, PostKey), nextId)
    && Below(Keys(comments, CommentKey), nextId)
  }

  class Store {
    var users: seq<User>
    var posts: seq<Post>
    var comments: seq<Comment>
    var likes: seq<Like>
    var nextId: nat

    ghost predicate Valid()
      reads this
    {
      StoreValid(users, posts, comments, likes, nextId)
    }

    /** An empty database. */
    constructor()
      ensures Valid()
      ensures users == [] && posts == [] && comments == [] && likes == []
    {
      users, posts, comments, likes := [], [], [], [];
      nextId := 0;
    }

    /** Writes a handler's updated documents back (its `save`, `create` or
        `delete` calls). The handler shows the new contents keep the
        invariant, with one of the lemmas below. */
    method Save(users': seq<User>, posts': seq<Post>, comments': seq<Comment>, likes': seq<Like>, nextId': nat)
      requires StoreValid(users', posts', comments', likes', nextId')
      modifies this
      ensures Valid()
      ensures users == users' && posts == posts' && comments == comments' && likes == likes'
      ensures nextId == nextId'
    {
      users, posts, comments, likes, nextId := users', posts', comments', likes', nextId';
    }
  }

  // ---------------------------------------------------- writes keep Valid

  lemma AddPostKeepsStore(users: seq<User>, posts: seq<Post>, comments: seq<Comment>, likes: seq<Like>, n: nat, p: Post)
    requires StoreValid(users, posts, comments, likes, n)
    requires p.id == n && p.likesCount == 0
    ensures StoreValid(users, posts + [p], comments, likes, n + 1)
  {
    AddPostKeepsValid(posts, comments, likes, p);
    KeysAppend(posts, p, PostKey);
  }

  lemma ReplacePostKeepsStore(users: seq<User>, posts: seq<Post>, comments: seq<Comment>, likes: seq<Like>, n: nat, id: Id, q: Post)
    requires StoreValid(users, posts, comments, likes, n)
    requires q.id == id
    requires forall i :: 0 <= i < |posts| && posts[i].id == id ==> posts[i].likesCount == q.likesCount
    ensures StoreValid(users, ReplacePost(posts, id, q), comments, likes, n)
  {
    ReplaceKeepsValid(posts, comments, likes, id, q);
  }

  lemma DeletePostKeepsStore(users: seq<User>, posts: seq<Post>, comments: seq<Comment>, likes: seq<Like>, n: nat, id: Id)
    requires StoreValid(users, posts, comments, likes, n)
    ensures StoreValid(users, RemovePost(posts, id), CommentsNotOn(comments, id), LikesNotOn(likes, id), n)
  {
    DeleteKeepsValid(posts, comments, likes, id);
  }

  lemma AddCommentKeepsStore(users: seq<User>, posts: seq<Post>, comments: seq<Comment>, likes: seq<Like>, n: nat, c: Comment)
    requires StoreValid(users, posts, comments, likes, n)
    requires c.id == n && c.post in Keys(posts, PostKey)
    ensures StoreValid(users, posts, comments + [c], likes, n + 1)
  {
    AddCommentKeepsValid(posts, comments, likes, c);
    KeysAppend(comments, c, CommentKey);
  }

  lemma LikeKeepsStore(users: seq<User>, posts: seq<Post>, comments: seq<Comment>, likes: seq<Like>, n: nat, p: Id, u: Id)
    requires StoreValid(users, posts, comments, likes, n)
    requires p in Keys(posts, PostKey) && Like(p, u) !in likes
    ensures var likes' := likes + [Like(p, u)];
      && CountLikes(likes', p) == CountLikes(likes, p) + 1
      && StoreValid(users, SetLikesCount(posts, p, CountLikes(likes', p)), comments, likes', n)
  {
    LikeKeepsValid(posts, comments, likes, p, u);
    SetLikesCountKeys(posts, p, CountLikes(likes + [Like(p, u)], p));
  }

  lemma UnlikeKeepsStore(users: seq<User>, posts: seq<Post>, comments: seq<Comment>, likes: seq<Like>, n: nat, p: Id, u: Id)
    requires StoreValid(users, posts, comments, likes, n)
    requires Like(p, u) in likes
    ensures var likes' := DeleteFirst(likes, Like(p, u));
      && CountLikes(likes', p) == CountLikes(likes, p) - 1
      && StoreValid(users, SetLikesCount(posts, p, CountLikes(likes', p)), comments, likes', n)
  {
    UnlikeKeepsValid(posts, comments, likes, p, u);
    SetLikesCountKeys(posts, p, CountLikes(DeleteFirst(likes, Like(p, u)), p));
  }
  lemma FollowKeepsStore(users: seq<User>, posts: seq<Post>, comments: seq<Comment>, likes: seq<Like>, n: nat, c: Id, t: Id)
    requires StoreValid(users, posts, comments, likes, n)
    requires c != t && c in Keys(users, UserKey) && t in Keys(users, UserKey)
    requires !Follows(users, c, t)
    ensures StoreValid(Follow(users, c, t), posts, comments, likes, n)
  {
    FollowPreservesGraph(users, c, t);
    FollowKeys(users, c, t);
    FollowKeepsEmails(users, c, t);
  }

  lemma UnfollowKeepsStore(users: seq<User>, posts: seq<Post>, comments: seq<Comment>, likes: seq<Like>, n: nat, c: Id, t: Id)
    requires StoreValid(users, posts, comments, likes, n)
    requires c != t
    ensures StoreValid(Unfollow(users, c, t), posts, comments, likes, n)
  {
    UnfollowPreservesGraph(users, c, t);
    UnfollowKeys(users, c, t);
    UnfollowKeepsEmails(users, c, t);
  }

  lemma AddUserKeepsStore(users: seq<User>, posts: seq<Post>, comments: seq<Comment>, likes: seq<Like>, n: nat, u: User)
    requires StoreValid(users, posts, comments, likes, n)
    requires u.id == n && u.following == [] && u.followers == []
    requires u.email !in Keys(users, EmailKey)
    ensures StoreValid(users + [u], posts, comments, likes, n + 1)
  {
    assert u.id !in Keys(users, UserKey);
    AddUserKeepsGraph(users, u);
    AddUserKeepsEmails(users, u);
    KeysAppend(users, u, UserKey);
  }
}
