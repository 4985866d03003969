/** The four collections' record shapes: users, posts, comments and likes.
    A reference (`ObjectId` with `ref`) is an `Id`; every reference the
    schema marks `required` is a plain field that cannot be absent. */
module Schema {
  import opened Wrappers
  import opened Seqs

  type Id = nat

  /** A stored password: the output of the hash function, never the
      plaintext. */
  type Hash = string

  datatype User = User(
    id: Id,
    name: string,
    email: string,
    password: Hash,
    following: seq<Id>,  // users this user follows
    followers: seq<Id>)  // users following this user

  datatype MediaKind = Image | Video

  datatype Media = Media(kind: MediaKind, url: string, publicId: string)

  datatype Post = Post(
    id: Id,
    author: Id,
    title: Option<string>,
    content: string,
    tags: seq<string>,
    media: seq<Media>,
    likesCount: int,
    createdAt: int,
    updatedAt: int)

  datatype Comment = Comment(id: Id, content: string, post: Id, user: Id, createdAt: int)

  datatype Like = Like(post: Id, user: Id)

  function UserKey(u: User): Id { u.id }
  function EmailKey(u: User): string { u.email }
  function PostKey(p: Post): Id { p.id }
  function CommentKey(c: Comment): Id { c.id }

  /** The unique index on `email`. */
  ghost predicate UniqueEmails(users: seq<User>) {
    KeysDistinct(users, EmailKey)
  }

  /** The compound unique index on (post, user): one like per user per post. */
  ghost predicate UniqueLikes(likes: seq<Like>) {
    Distinct(likes)
  }

  predicate ValidMedia(m: Media) {
    m.url != "" && m.publicId != ""
  }

  /** Mongoose's validation of one `media` entry given as raw strings: the
      type must be one of the enum values, and `url` and `publicId` are
      required (an empty string fails `required`). */
  function CastMedia(kind: string, url: string, publicId: string): (r: Option<Media>)
    ensures r.Some? <==> (kind == "image" || kind == "video") && url != "" && publicId != ""
    ensures r.Some? ==> ValidMedia(r.value)
    ensures r.Some? ==> r.value.url == url && r.value.publicId == publicId
    ensures r.Some? ==> (r.value.kind == Image <==> kind == "image")
  {
    if url == "" || publicId == "" then None
    else if kind == "image" then Some(Media(Image, url, publicId))
    else if kind == "video" then Some(Media(Video, url, publicId))
    else None
  }

  /** A post as `postModel.create` stores it, with the schema's defaults:
      no likes, no media, an empty tag list unless tags are supplied, and
      both timestamps at the creation time. */
  function CreatedPost(id: Id, author: Id, title: Option<string>, content: string,
                   tags: Option<seq<string>>, now: int): (p: Post)
    ensures p.id == id && p.author == author && p.title == title && p.content == content
    ensures p.likesCount == 0 && p.media == []
    ensures tags.None? ==> p.tags == []
    ensures tags.Some? ==> p.tags == tags.value
    ensures p.createdAt == now && p.updatedAt == now
  {
    Post(id, author, title, content, tags.GetOr([]), [], 0, now, now)
  }
}
