# Linkup server and client core, modelled in Dafny

Linkup is a small social network: an Express/Mongoose REST server and a React
client. This project models the parts of it that hold logic:

- **Engagement** (`server/controllers/postController.js`). Like and unlike are
  guarded by an existence check and a duplicate check. After each one, the
  post's `likesCount` is recomputed from the live count of like rows. Update
  and delete are gated on the author, and delete cascades to the post's
  comments and likes. Comments are added and listed.
- **Feed query and trending hashtags** (same file). `renderPost` builds a
  conjunctive filter (author, tags, search, following feed), sorts, skips and
  limits, and reports `total`, `count`, `hasMore` and `page`.
  `getTrendingHashtags` is the unwind / group / sort / limit aggregation.
- **Follow graph** (`server/controllers/userController.js`). Follow and
  unfollow update two arrays on two user documents. Followers, following,
  search, suggestions and the current-user summary are read-only queries.
- **Accounts** (`server/routes/auth.js`). Signup validation, email
  uniqueness, and the signin outcomes.
- **Record shapes** (`server/schema.js`). Users, posts, comments and likes,
  with their defaults and unique indexes.
- **Client helpers** (`client/src/pages/Home.jsx`, `client/src/pages/NewPost.jsx`).
  The relative-time label, the storage-URL rewrite, hashtag extraction, the
  manual tag list, the optimistic like count, the feed request parameters, the
  comma-separated hashtag parser and the composer's submit guard.

## Layout

One module per concern, each in its own file:

- `wrappers.dfy` (module `Wrappers`): `Option`, the HTTP `Status` codes, `Result`.
- `seqs.dfy` (module `Seqs`): filter, take, slice, find by key, first-occurrence de-duplication.
- `sorting.dfy` (module `Sorting`): sorting on an integer key (a query's `.sort`).
- `text.dfy` (module `Text`): `includes`, ASCII case folding, `trim`, `split`/`join`, `\w`, decimal rendering.
- `schema.dfy` (module `Schema`): the four record types, media validation, a new post's defaults.
- `social_graph.dfy` (module `SocialGraph`): follow and unfollow on the user collection, the mirror invariant.
- `engagement.dfy` (module `Engagement`): like counting, the cascade delete, the `likesCount` invariant.
- `db.dfy` (module `Db`): the `Store` class holding the four collections, and its invariant.
- `post_controller.dfy` (module `PostController`): create, update, delete, comment, like and unlike as methods on the store.
- `feed.dfy` (module `Feed`): `renderPost`.
- `trending.dfy` (module `Trending`): `getTrendingHashtags`.
- `user_controller.dfy` (module `UserController`): follow and unfollow handlers, and the user queries.
- `auth.dfy` (module `Auth`): signup and signin.
- `home.dfy` (module `Home`): home page helpers and the `HomePage` state class.
- `new_post.dfy` (module `NewPost`): hashtag parser and the `NewPostForm` state class.

The database is the `Db.Store` class. Its fields are the four collections as
sequences, plus a counter that stands for `ObjectId` generation. Every write
handler is a method that takes the store, the caller's id and the request
fields. It returns a `Status` (200, 201, 400, 401, 403, 404, 409 or 500) and
leaves the store satisfying `Store.Valid()`. That invariant says:

- the follow graph is mirrored (A is in B's `followers` exactly when B is in
  A's `following`), has no repeats, has no self-entries, and lists only stored
  users;
- emails are unique;
- at most one like exists per (post, user) pair;
- every like and comment references a stored post;
- every post's `likesCount` equals its live like count.

Read-only handlers are functions of the collections that return a `Result`.
The password hash, the comparison, the token signer, the email and URL syntax
checks, the clock and the locale date string are parameters.

Where the code does something other than its messages or the usual REST
conventions suggest, the model follows the code:

- A duplicate like and a duplicate follow answer 400, not a separate
  "conflict" code.
- A following feed for a caller whose user document is missing answers 404.
- An unknown `sortBy` field is not replaced by the creation time. MongoDB
  sorts on the named field, and a field no post has leaves all keys equal.
- `limit` and `skip` are not clamped.
- `followUser` and `unfollowUser` dereference the caller's document without a
  check, so a missing caller document answers 500.

## Model

| member | source | states |
|---|---|---|
| `Schema.CastMedia` | server/schema.js:27-41 | a media entry is accepted exactly when its type is `image` or `video` and its `url` and `publicId` are non-empty, and the accepted entry keeps those values |
| `Schema.CreatedPost` | server/schema.js:15-45 | a new post has `likesCount` 0, no media, the supplied tags or `[]` when none are given, the given author, and both timestamps set to the creation time |
| `Engagement.CountLikes` | server/controllers/postController.js:368 | the live like count of a post is at most the number of like rows, and it is 0 exactly when no row references that post |
| `Engagement.CommentsOn` | server/controllers/postController.js:322-324 | the comments of a post are exactly the stored comments referencing it |
| `Engagement.LikesOn` | server/controllers/postController.js:368 | the likes of a post are exactly the stored like rows referencing it |
| `Engagement.SetLikesCount` | server/controllers/postController.js:368-370 | the post with that id gets the new `likesCount` with every other field kept, and every other post is unchanged |
| `Engagement.RemovePost` | server/controllers/postController.js:247 | the remaining posts are exactly the stored posts with another id |
| `Engagement.CommentsNotOn` | server/controllers/postController.js:250 | the remaining comments are exactly those on other posts |
| `Engagement.LikesNotOn` | server/controllers/postController.js:251 | the remaining likes are exactly those of other posts |
| `Engagement.ReplacePost` | server/controllers/postController.js:206 | the post with that id is replaced by the saved one and every other post is unchanged |
| `Engagement.RecountAccurate` | server/controllers/postController.js:368-370 | when the like rows change only for one post, recounting that post restores every post's `likesCount` to its live count |
| `Engagement.CountAppend` | server/controllers/postController.js:362-368 | adding a like row raises its own post's count by one and leaves every other post's count unchanged |
| `Engagement.CountDeleteFirst` | server/controllers/postController.js:407-410 | deleting a like row lowers its own post's count by one and leaves every other post's count unchanged |
| `Engagement.LikeKeepsValid` | server/controllers/postController.js:362-370 | a like that passed the guards raises the post's count by exactly one and keeps the engagement invariant: unique likes, no orphan rows, every `likesCount` equal to its live count |
| `Engagement.UnlikeKeepsValid` | server/controllers/postController.js:407-412 | an unlike of an existing like lowers the count by exactly one and keeps the engagement invariant |
| `Engagement.LikeUnlikeRoundTrip` | server/controllers/postController.js:362-412 | a like followed by an unlike from the same user restores the like rows and every post, `likesCount` included |
| `Engagement.CountLikesNotOn` | server/controllers/postController.js:251 | deleting one post's likes leaves every other post's like count unchanged |
| `Engagement.DeleteKeepsValid` | server/controllers/postController.js:247-251 | removing a post together with its comments and likes keeps the engagement invariant, so no orphan engagement row remains |
| `Engagement.ReplaceKeepsValid` | server/controllers/postController.js:199-206 | saving a changed post with the same id and `likesCount` keeps the engagement invariant |
| `Engagement.AddPostKeepsValid` | server/controllers/postController.js:31-37 | storing a new post with a fresh id and no likes keeps the engagement invariant |
| `Engagement.AddCommentKeepsValid` | server/controllers/postController.js:282-286 | storing a comment with a fresh id on a stored post keeps the engagement invariant |
| `Db.Store.constructor` | server/schema.js:1-90 | an empty database satisfies the store invariant |
| `Db.Store.Save` | server/controllers/postController.js:370 | writing back collections that satisfy the invariant makes them the store's new contents |
| `Db.LikeKeepsStore` | server/controllers/postController.js:362-370 | a like that passed the guards keeps the whole store invariant |
| `Db.UnlikeKeepsStore` | server/controllers/postController.js:407-412 | an unlike of an existing like keeps the whole store invariant |
| `Db.DeletePostKeepsStore` | server/controllers/postController.js:247-251 | the cascading delete keeps the whole store invariant |
| `Db.AddPostKeepsStore` | server/controllers/postController.js:31-37 | storing a new post keeps the whole store invariant |
| `Db.ReplacePostKeepsStore` | server/controllers/postController.js:199-206 | saving an updated post keeps the whole store invariant |
| `Db.AddCommentKeepsStore` | server/controllers/postController.js:282-286 | storing a new comment keeps the whole store invariant |
| `Db.FollowKeepsStore` | server/controllers/userController.js:27-32 | a follow that passed the guards keeps the whole store invariant |
| `Db.UnfollowKeepsStore` | server/controllers/userController.js:70-75 | an unfollow keeps the whole store invariant |
| `Db.AddUserKeepsStore` | server/routes/auth.js:40-44 | registering a user with a fresh id, a free email and empty arrays keeps the whole store invariant |
| `PostController.Patched` | server/controllers/postController.js:199-204 | each field that was sent replaces the stored one, each field that was not sent is kept, `updatedAt` becomes the update time, and the id, author, media, `likesCount` and `createdAt` are unchanged |
| `PostController.CreatePost` | server/controllers/postController.js:24-58 | a body failing the schema answers 400 and changes nothing; otherwise 201, and exactly one new post by the caller with a fresh id and the schema's defaults is appended |
| `PostController.UpdatePost` | server/controllers/postController.js:175-224 | validation comes first (400), then the lookup (404), then the author check (403), and none of these change anything; the author's update replaces only that post, with the sent fields applied |
| `PostController.DeletePost` | server/controllers/postController.js:227-262 | 404 for a missing post and 403 for a non-author, both changing nothing; the author's delete removes the post, every comment on it and every like of it, and leaves the users unchanged |
| `PostController.AddComment` | server/controllers/postController.js:265-307 | a missing or empty content answers 400 and a missing post answers 404, both changing nothing; otherwise 201 and exactly one comment by the caller on that post is appended |
| `PostController.LikePost` | server/controllers/postController.js:340-382 | 404 for a missing post and 400 for an existing (post, user) like, both changing nothing; otherwise exactly that like is added, the post's `likesCount` is set to its live count (one more than before), that count is returned, and no other post changes |
| `PostController.UnlikePost` | server/controllers/postController.js:385-424 | 404 for a missing post and 400 when the caller has not liked it, both changing nothing; otherwise the caller's like is gone, `likesCount` is set to the live count (one less than before) and returned, and no other post changes |
| `PostController.UnlikeRemovesLike` | server/controllers/postController.js:407 | with at most one like per (post, user), `deleteOne` leaves no like of the caller on the post |
| `PostController.RenderById` | server/controllers/postController.js:149-172 | answers the stored post with that id, or 404 exactly when there is none |
| `PostController.GetComments` | server/controllers/postController.js:310-337 | 404 exactly for a missing post; otherwise a rearrangement of exactly the comments on that post, newest first |
| `Feed.DefaultQuery` | server/controllers/postController.js:64-73 | a query with no parameters uses limit 20, skip 0, and `createdAt` in descending order |
| `Feed.TagPatterns` | server/controllers/postController.js:84-86 | one trimmed pattern per comma-separated piece of a string parameter, or per item of a repeated parameter |
| `Feed.BaseFilter` | server/controllers/postController.js:78-95 | the author condition is active exactly when `author` is sent, the tag condition exactly when `tags` is non-empty, and the search condition exactly when `search` is non-empty |
| `Feed.BuildFilter` | server/controllers/postController.js:97-112 | a following feed fails with 401 without a caller and 404 for a caller without a document; otherwise its author condition is the caller's `following` plus the caller, overriding `author` |
| `Feed.Direction` | server/controllers/postController.js:116 | the sort is ascending exactly when `sortOrder` is `asc`, and descending for any other value |
| `Feed.Matching` | server/controllers/postController.js:119 | the matches are exactly the stored posts that satisfy every active condition |
| `Feed.Ordered` | server/controllers/postController.js:119-121 | the matches are rearranged into the requested order on the sort field |
| `Feed.Paginate` | server/controllers/postController.js:122-137 | the page is the slice after `skip` of at most `limit` posts; `total` is the number of matches before paging; `count` is the page length; `hasMore` holds exactly when skip + limit < total; and `page` is skip / limit + 1 |
| `Feed.RenderPost` | server/controllers/postController.js:61-146 | fails exactly for a following feed without a known caller; otherwise returns only stored posts satisfying the filter, with `total` counting every match, `count` the page length and at most a positive `limit`, and `hasMore` and `page` as above |
| `Feed.PagesTile` | server/controllers/postController.js:122-123 | consecutive pages of the same size neither overlap nor leave a gap |
| `Feed.HasMoreMeansUnseen` | server/controllers/postController.js:132 | with a positive limit, `hasMore` holds exactly when some match lies beyond the returned page |
| `Feed.PageOrdered` | server/controllers/postController.js:114-121 | the page is non-increasing in the sort field for a descending sort, and non-decreasing for `asc` |
| `Feed.EveryMatchOnSomePage` | server/controllers/postController.js:119-126 | every stored post that satisfies the filter is the first post of some page |
| `Feed.FollowingFeedAuthors` | server/controllers/postController.js:98-112 | the following feed shows only posts by the caller or by users the caller follows; among those, only the tag and search conditions exclude a post |
| `Feed.EmptyPatternMatchesTagged` | server/controllers/postController.js:86 | an empty tag pattern matches every post with at least one tag, and a post with no tags matches no pattern |
| `Trending.Unwind` | server/controllers/postController.js:433-435 | the unwound list holds exactly the tags of the posts' tag lists |
| `Trending.UnwindAppend` | server/controllers/postController.js:433-435 | each post contributes every occurrence of its tags, repeats within one post included |
| `Trending.Group` | server/controllers/postController.js:436-441 | one row per distinct tag, with that tag's number of occurrences, and no row twice |
| `Trending.TrendingLimit` | server/controllers/postController.js:429 | a missing, unparsable or zero limit becomes 10, a positive one is kept, and a negative one fails with 500 |
| `Trending.Ranked` | server/controllers/postController.js:442-444 | the groups are rearranged with counts non-increasing |
| `Trending.RankedRows` | server/controllers/postController.js:432-444 | the ranking lists each distinct tag once, with its number of occurrences, and counts are non-increasing |
| `Trending.TrendingHashtags` | server/controllers/postController.js:427-467 | fails with 500 exactly for a negative limit; otherwise returns the first min(`limit`, number of distinct tags) rows of the ranking, each tag once, counts non-increasing and equal to the tag's number of occurrences |
| `Trending.OmittedNotMoreFrequent` | server/controllers/postController.js:442-447 | a tag that occurs but is not listed occurs no more often than any listed tag |
| `Trending.AllTagsWhenFew` | server/controllers/postController.js:445-447 | with no more distinct tags than the limit, every tag is listed |
| `SocialGraph.UserById` | server/controllers/userController.js:15 | the lookup finds a stored user with that id, or reports none exactly when the id is not stored |
| `SocialGraph.Follow` | server/controllers/userController.js:27-32 | the caller's `following` gains the target at the end, the target's `followers` gains the caller at the end, and no other document or field changes |
| `SocialGraph.Unfollow` | server/controllers/userController.js:70-75 | every occurrence of the target leaves the caller's `following`, every occurrence of the caller leaves the target's `followers`, and nothing else changes |
| `SocialGraph.FollowsIffFollower` | server/controllers/userController.js:22-32 | with the mirror invariant, A follows B exactly when B's document lists A as a follower |
| `SocialGraph.FollowMirrored` | server/controllers/userController.js:27-32 | appending a new edge on both sides keeps the two sides in agreement |
| `SocialGraph.FollowPreservesGraph` | server/controllers/userController.js:10-32 | a follow that passed the guards keeps the graph mirrored, free of repeats and self-entries, and listing only stored users |
| `SocialGraph.UnfollowMirrored` | server/controllers/userController.js:70-75 | removing the edge on both sides keeps the two sides in agreement |
| `SocialGraph.UnfollowPreservesGraph` | server/controllers/userController.js:53-75 | an unfollow keeps the graph valid |
| `SocialGraph.FollowUnfollowRoundTrip` | server/controllers/userController.js:27-32 | a follow followed by an unfollow restores every user document exactly, including the order of both arrays |
| `SocialGraph.AddUserKeepsGraph` | server/routes/auth.js:40-44 | registering a user with a fresh id and empty arrays keeps the graph valid |
| `SocialGraph.FollowKeepsEmails` | server/schema.js:6 | a follow keeps emails unique |
| `SocialGraph.UnfollowKeepsEmails` | server/schema.js:6 | an unfollow keeps emails unique |
| `SocialGraph.AddUserKeepsEmails` | server/schema.js:6 | appending a user whose email is not taken keeps emails unique |
| `UserController.FollowUser` | server/controllers/userController.js:4-45 | 400 for a self-follow, 404 for a missing target, 500 for a missing caller document, and 400 when already following, none changing anything; otherwise `Follow` is applied, only the users change, and the two new array lengths are returned |
| `UserController.FollowCallerDoc` | server/controllers/userController.js:27-28 | after a follow, the caller's document read back by id has `following` grown by the target at the end |
| `UserController.FollowTargetDoc` | server/controllers/userController.js:30-32 | after a follow, the target's document read back by id has `followers` grown by the caller at the end |
| `UserController.FollowCounts` | server/controllers/userController.js:27-37 | after a follow, the caller's `following` read back by id has grown by the target, and the target's `followers` has grown by the caller |
| `UserController.UnfollowUser` | server/controllers/userController.js:48-88 | 400 for self, 404 for a missing target, 500 for a missing caller document, and 400 when not following, none changing anything; otherwise `Unfollow` is applied, each array shrinks by exactly one, and the new lengths are returned |
| `UserController.UnfollowCallerDoc` | server/controllers/userController.js:70-79 | after an unfollow, the caller's `following` has lost exactly the one entry for the target, and the caller no longer follows the target |
| `UserController.UnfollowTargetDoc` | server/controllers/userController.js:74-80 | after an unfollow, the target's `followers` has lost exactly the one entry for the caller |
| `UserController.Populate` | server/controllers/userController.js:95-97 | populating an id array gives the public profiles (id, name, email) of stored users it lists, never more entries than ids; when every id is stored, entry i is the profile of the i-th id, in the array's order |
| `UserController.GetFollowers` | server/controllers/userController.js:91-114 | 404 exactly for a missing user; otherwise the populated `followers` array |
| `UserController.GetFollowing` | server/controllers/userController.js:117-140 | 404 exactly for a missing user; otherwise the populated `following` array |
| `UserController.FollowersAreFollowing` | server/controllers/userController.js:91-114 | in a valid graph, the followers listed for B are exactly the users that follow B (every listed user follows B, and every user following B is listed), and their number is the stored array's length |
| `UserController.FollowingAreFollowed` | server/controllers/userController.js:117-140 | in a valid graph, the users listed as A's following are exactly the users A follows (both directions), and their number is the stored array's length |
| `UserController.SearchUsers` | server/controllers/userController.js:143-171 | 400 exactly for a missing query or one under two characters once trimmed; otherwise at most 20 profiles, the first matching users in collection order |
| `UserController.SearchUsersSound` | server/controllers/userController.js:151-158 | every returned user matches the name or the email, and when fewer than 20 are returned, every matching user is among them |
| `UserController.GetSuggestedUsers` | server/controllers/userController.js:174-205 | 404 exactly for a caller without a document; otherwise the first 10 users in collection order that are neither the caller nor followed by the caller |
| `UserController.GetCurrentUser` | server/controllers/userController.js:208-235 | 404 exactly for a missing user; otherwise the stored name and email, with `following` and `followers` reported as the arrays' lengths |
| `UserController.FollowRaisesCounts` | server/controllers/userController.js:27-38 | after a follow, the caller's reported `following` count and the target's reported `followers` count have each grown by one |
| `Auth.UserByEmail` | server/routes/auth.js:29 | the lookup finds a stored user with that email, or reports none exactly when the email is not stored |
| `Auth.Signup` | server/routes/auth.js:22-61 | an empty name, a malformed email or a password shorter than 6 answers 400, and a taken email answers 409, both changing nothing; otherwise 201 and exactly one user is appended, with the given name and email, the hash of the password, and no follows |
| `Auth.Signin` | server/routes/auth.js:63-107 | 400 for a malformed email or an empty password, 404 for an unknown email, 401 when the comparison with the stored hash fails, and otherwise a token signed over that user's id |
| `Auth.SigninAfterSignup` | server/routes/auth.js:37-93 | when the comparison accepts a password against its own hash, signing in with the email and password of a successful signup succeeds with that user's token |
| `Auth.SignupTakesEmail` | server/routes/auth.js:29-44 | after a successful signup the email is taken, so a second signup with it answers 409 |
| `Home.ElapsedSeconds` | client/src/pages/Home.jsx:45 | the difference in whole seconds, rounded down, negative differences included |
| `Home.Bucket` | client/src/pages/Home.jsx:42-52 | under 60 s (a future date included) is "just now"; below an hour, a day and a week it is the whole number of minutes (1..59), hours (1..23) or days (1..6) elapsed; and from a week on it is the date |
| `Home.TimeAgoReadsBack` | client/src/pages/Home.jsx:1143-1153 | a counted label is the decimal number of whole units elapsed followed by `m`, `h` or `d` for its unit |
| `Home.ConvertImageUrl` | client/src/pages/Home.jsx:96-113 | a missing or empty URL gives null; a URL on the media route or not on the object storage is kept; a storage URL becomes the server's media route followed by its last `/`-segment |
| `Home.ConvertIdempotent` | client/src/pages/Home.jsx:100-110 | converting twice gives the same result as converting once |
| `Home.ConvertKeepsFileName` | client/src/pages/Home.jsx:105-109 | a redirected URL ends with the same file name as the storage URL |
| `Home.ContentHashtagsSound` | client/src/pages/Home.jsx:340-341 | each extracted tag is a non-empty whole run of `[A-Za-z0-9_]` that follows a `#` in the content, with the `#` removed |
| `Home.ContentHashtagsAcrossSpace` | client/src/pages/Home.jsx:340 | tags separated by white space are found independently and in order |
| `Home.PostTags` | client/src/pages/Home.jsx:342 | the combined tag list has no repeats and holds exactly the content tags and the manual tags |
| `Home.ContentTagsFirst` | client/src/pages/Home.jsx:342 | the content tags come first, in first-occurrence order, and every manual tag is included |
| `Home.FetchParamsFor` | client/src/pages/Home.jsx:173-181 | a search sends the text with limit 50; otherwise the request sends limit 50 with `createdAt` descending; `feedType` is sent only for the following feed |
| `Home.FetchedFeedNewestFirst` | client/src/pages/Home.jsx:170-183 | either request gets the first page of at most 50 posts, newest first, and fails exactly for a following feed without a known caller |
| `Home.PostRequest` | client/src/pages/Home.jsx:323-350 | nothing is sent when the content is blank and no image is chosen, or when the upload fails; otherwise the body has the content, the combined tags, and `imageUrl` exactly when the upload answered a non-empty URL |
| `Home.Adjusted` | client/src/pages/Home.jsx:286-294 | an unlike lowers a positive count by one and never goes below zero; a like raises the count by one |
| `Home.AdjustLikes` | client/src/pages/Home.jsx:284-296 | only posts whose id matches get the adjusted count; every other post is kept |
| `Home.LikeThenUnlike` | client/src/pages/Home.jsx:273-297 | a like followed by an unlike restores the list shown, when no count shown was negative |
| `Home.UnlikeThenLike` | client/src/pages/Home.jsx:273-297 | an unlike followed by a like restores the list when the count was positive, and turns a zero count into one |
| `Home.AppendTagKeepsList` | client/src/pages/Home.jsx:372-376 | appending a trimmed tag that is not yet listed keeps the manual list trimmed, non-empty and free of repeats |
| `Home.RemoveTagKeepsList` | client/src/pages/Home.jsx:379-381 | dropping a tag keeps the manual list well-formed |
| `Home.HomePage.AddTag` | client/src/pages/Home.jsx:372-377 | the trimmed input is appended, and the input cleared, only when it is non-empty and not yet listed; otherwise nothing changes |
| `Home.HomePage.RemoveTag` | client/src/pages/Home.jsx:379-381 | every tag equal to the removed one leaves the list, and nothing else changes |
| `Home.HomePage.ToggleLike` | client/src/pages/Home.jsx:273-301 | after a successful request the post's id leaves or joins the liked set and its shown count is adjusted; a failed request changes nothing |
| `Home.HomePage.ToggleFollow` | client/src/pages/Home.jsx:219-238 | after a successful request the user leaves or joins the followed set; a failed request changes nothing |
| `Home.HomePage.RemoveImage` | client/src/pages/Home.jsx:315-321 | both the selected image and its preview are cleared, and nothing else changes |
| `Home.HomePage.CreatePost` | client/src/pages/Home.jsx:323-370 | the body of `PostRequest` is sent; after a successful creation the form is cleared, and otherwise it is kept |
| `NewPost.CleanTagRemovesFirstHash` | client/src/pages/NewPost.jsx:60 | a trimmed piece loses only its first `#`, wherever it is, and is kept whole when it has none |
| `NewPost.ParseHashtags` | client/src/pages/NewPost.jsx:60 | no parsed tag is empty, and there are at most as many as comma-separated pieces |
| `NewPost.ParsedAreCleanPieces` | client/src/pages/NewPost.jsx:60 | the parsed tags are exactly the non-empty cleaned pieces |
| `NewPost.ParseHashtagsConcat` | client/src/pages/NewPost.jsx:60 | the parse keeps the input's order: two fields joined by a comma parse to the first field's tags followed by the second's |
| `NewPost.ParseSingleField` | client/src/pages/NewPost.jsx:60 | a field without commas gives at most one tag, its own cleaned text |
| `NewPost.BuildPostData` | client/src/pages/NewPost.jsx:53-61 | the body has the content and the media URL, and has `hashtags` exactly when the trimmed field is non-empty, holding the parsed tags |
| `NewPost.BlankFieldSendsNoTags` | client/src/pages/NewPost.jsx:59 | a blank hashtag field sends no `hashtags` |
| `NewPost.CommaFieldSendsEmptyList` | client/src/pages/NewPost.jsx:59-60 | a field holding only a comma is not blank, so it sends an empty `hashtags` list |
| `NewPost.FailureMessage` | client/src/pages/NewPost.jsx:67 | the message shown is the server's non-empty error, or else a fixed non-empty text |
| `NewPost.NewPostForm.Disabled` | client/src/pages/NewPost.jsx:165 | submit is disabled exactly while loading or when the trimmed content is empty |
| `NewPost.NewPostForm.RemoveMedia` | client/src/pages/NewPost.jsx:29-32 | both the media file and its preview are cleared, and nothing else changes |
| `NewPost.NewPostForm.Submit` | client/src/pages/NewPost.jsx:34-71 | a failed upload posts nothing; otherwise the body of `BuildPostData` is posted; the page goes home exactly when that succeeds, any failure shows its message, and the form ends not loading with its fields kept |

## Left out

- MongoDB and Express mechanics. Each handler is one atomic step on
  in-memory collections. The two saves of follow and unfollow, and the
  create-then-count of like and unlike, are not transactional in the source.
  Races and crash-midway states are outside a sequential model.
- `ObjectId`s are natural numbers. A fresh id comes from a counter on the
  store, and comparing an id with its string form is plain equality.
- The regular expressions built from user input (tags, search, user search)
  are modelled as case-insensitive substring matching with ASCII case
  folding. Metacharacters and Unicode case folding are not modelled.
- Feed.RenderPost: returns the stored posts without populating `author`
  with its name and email.
- Feed.RenderPost: a `sortBy` that names a string field (`title`,
  `content`) or an array field (`tags`, `media`) is treated like an unknown
  field, so all keys are equal. MongoDB would order string fields as
  strings, and array fields by their smallest element (ascending) or their
  largest (descending).
- Feed.RenderPost: the order among posts with equal sort keys is the one
  this model's sort gives. MongoDB leaves it unspecified, and the source
  sets no secondary key.
- Feed.RenderPost: `limit` and `skip` are taken as non-negative integers.
  Negative values and what `parseInt` does with non-numeric text are not
  modelled. A limit of 0 is MongoDB's "no limit", and `page` is then absent,
  because the source's division does not give a number.
- Trending.TrendingHashtags: the order among tags with equal counts is the
  one this model's sort gives. The source leaves it unspecified.
- `imageUrl` on posts. `createPost` and `updatePost` write it, but the post
  schema declares no such field, so whether it is stored depends on Mongoose
  strict mode. The model accepts and validates it, and does not store it.
- The `createdAt` of users and likes is not modelled. Nothing in the core
  reads them.
- bcrypt, jsonwebtoken and the zod email and URL checks are parameters
  (`hash`, `compare`, `sign`, `isEmail`, `isUrl`), not implementations.
- The clock and the locale are parameters: `Date.now()` becomes a `now`
  argument, and `toLocaleDateString` becomes the `localeDate` string shown
  in the last bucket of the relative time.
- Route wiring. The trending, suggestion, search and current-user handlers
  are modelled as controllers, whether or not a route exposes them. `GET
  /posts` is mounted without the authentication middleware
  (server/routes/post.js:20), so as wired no caller id reaches `renderPost`
  and the following feed always answers 401. The model keeps the caller as
  a parameter (`caller: Option<Id>` of Feed.RenderPost), and the 401 case
  is its `None`; Home.FetchedFeedNewestFirst covers both cases.
- Media upload, object storage, the media proxy, rate limiting and process
  bootstrap are wrappers around libraries, with no logic to model.
- The legacy root-level copies of the controller, schema and routes are
  broken and superseded by the `server/` files, and are not part of this
  model.
- Auth.Signup: string lengths are counted in characters (Unicode scalar
  values), where JavaScript's `.length` counts UTF-16 code units. A
  password of three characters outside the Basic Multilingual Plane is 6
  code units long and passes zod's `min(6)` (server/routes/auth.js:14), but
  the model rejects it with 400.
- UserController.SearchUsers: the same unit difference for the two-character
  minimum (server/controllers/userController.js:147). A single character
  outside the Basic Multilingual Plane passes the source's check, but the
  model answers 400.
- Client pages other than Home and NewPost are not part of this model. Nor
  are the components, the auth context or the API wrappers. They are
  rendering, mock data or transport.
- Home.HomePage.CreatePost: the feed and trending refresh after a post, the
  `posting` flag and the alert on failure are not modelled.
- Home.HomePage.ToggleFollow: the refresh of suggestions and of the
  current-user summary after a follow is not modelled.
- Reading a chosen file into a preview (`FileReader`), search on the home
  page, and navigation are not modelled; navigation is a boolean result.
- NewPost sends `hashtags` and `media`, which the server's create schema
  does not accept. The parser is modelled on its own.
