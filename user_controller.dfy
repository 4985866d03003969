/** The user handlers: follow and unfollow as methods on the store, and the
    read-only queries (followers, following, search, suggestions, current
    user) as functions of the user collection. */
module UserController {
  import opened Wrappers
  import opened Seqs
  import opened Text
  import opened Schema
  import opened SocialGraph
  import opened Db

  /** The fields a query selects or populates: `_id`, `name`, `email`. */
  datatype Profile = Profile(id: Id, name: string, email: string)

  function ProfileOf(u: User): (p: Profile)
    ensures p.id == u.id && p.name == u.name && p.email == u.email
  {
    Profile(u.id, u.name, u.email)
  }

  function Profiles(us: seq<User>): (r: seq<Profile>)
    ensures |r| == |us|
    ensures forall i :: 0 <= i < |us| ==> r[i] == ProfileOf(us[i])
  {
    seq(|us|, i requires 0 <= i < |us| => ProfileOf(us[i]))
  }

  // -------------------------------------------------------------- follow

  /** `followUser`: 400 for a self-follow, 404 for a missing target, 500 when
      the caller's own document is missing (the handler dereferences it), 400
      when already following; none of these change anything. Otherwise the
      two arrays grow by one entry each and their new lengths are
      returned. */
  method FollowUser(db: Store, caller: Id, target: Id) returns (status: Status, following: nat, followers: nat)
    requires db.Valid()
    modifies db
    ensures db.Valid()
    ensures target == caller ==> status == BadRequest
    ensures target != caller && target !in Keys(old(db.users), UserKey) ==> status == NotFound
    ensures target != caller && target in Keys(old(db.users), UserKey) && caller !in Keys(old(db.users), UserKey) ==>
      status == InternalError
    ensures target != caller && target in Keys(old(db.users), UserKey) && Follows(old(db.users), caller, target) ==>
      status == BadRequest
    ensures (target != caller && target in Keys(old(db.users), UserKey) && caller in Keys(old(db.users), UserKey)
             && !Follows(old(db.users), caller, target)) ==>
      && status == Ok
      && db.users == Follow(old(db.users), caller, target)
      && Follows(db.users, caller, target)
      && UserById(db.users, caller).Some? && UserById(db.users, target).Some?
      && following == |UserById(db.users, caller).value.following| == |UserById(old(db.users), caller).value.following| + 1
      && followers == |UserById(db.users, target).value.followers| == |UserById(old(db.users), target).value.followers| + 1
    ensures status != Ok ==> unchanged(db)
    ensures db.posts == old(db.posts) && db.comments == old(db.comments) && db.likes == old(db.likes)
    ensures db.nextId == old(db.nextId)
  {
    if target == caller {
      return BadRequest, 0, 0;
    }
    var t := UserById(db.users, target);
    if t.None? {
      return NotFound, 0, 0;
    }
    var c := UserById(db.users, caller);
    if c.None? {
      return InternalError, 0, 0;
    }
    if target in c.value.following {
      return BadRequest, 0, 0;
    }
    var users := Follow(db.users, caller, target);
    FollowKeepsStore(db.users, db.posts, db.comments, db.likes, db.nextId, caller, target);
    FollowCounts(db.users, caller, target);
    assert Follows(users, caller, target);
    assert |UserById(users, caller).value.following| == |c.value.following| + 1;
    assert |UserById(users, target).value.followers| == |t.value.followers| + 1;
    db.Save(users, db.posts, db.comments, db.likes, db.nextId);
    status, following, followers := Ok, |c.value.following| + 1, |t.value.followers| + 1;
  }

  /** What a follow does to the caller's document, read back by id. */
  lemma FollowCallerDoc(users: seq<User>, caller: Id, target: Id)
    requires KeysDistinct(users, UserKey) && caller != target
    requires caller in Keys(users, UserKey)
    ensures var r := Follow(users, caller, target);
      && UserById(r, caller).Some?
      && UserById(r, caller).value.following == UserById(users, caller).value.following + [target]
  {
    var r := Follow(users, caller, target);
    var ci := FindIndex(users, UserKey, caller).value;
    assert KeysDistinct(r, UserKey) by { FollowKeys(users, caller, target); }
    assert r[ci].following == users[ci].following + [target];
    UserAt(users, caller, ci);
    UserAt(r, caller, ci);
  }

  /** What a follow does to the target's document, read back by id. */
  lemma FollowTargetDoc(users: seq<User>, caller: Id, target: Id)
    requires KeysDistinct(users, UserKey) && caller != target
    requires target in Keys(users, UserKey)
    ensures var r := Follow(users, caller, target);
      && UserById(r, target).Some?
      && UserById(r, target).value.followers == UserById(users, target).value.followers + [caller]
  {
    var r := Follow(users, caller, target);
    var ti := FindIndex(users, UserKey, target).value;
    assert KeysDistinct(r, UserKey) by { FollowKeys(users, caller, target); }
    assert r[ti].followers == users[ti].followers + [caller];
    UserAt(users, target, ti);
    UserAt(r, target, ti);
  }

  /** What a follow does to the two documents, read back by id. */
  lemma FollowCounts(users: seq<User>, caller: Id, target: Id)
    requires KeysDistinct(users, UserKey) && caller != target
    requires caller in Keys(users, UserKey) && target in Keys(users, UserKey)
    ensures var r := Follow(users, caller, target);
      && UserById(r, caller).Some? && UserById(r, target).Some?
      && UserById(r, caller).value.following == UserById(users, caller).value.following + [target]
      && UserById(r, target).value.followers == UserById(users, target).value.followers + [caller]
      && Follows(r, caller, target)
  {
    FollowCallerDoc(users, caller, target);
    FollowTargetDoc(users, caller, target);
  }

  /** `unfollowUser`: 400 for self, 404 for a missing target, 500 when the
      caller's document is missing, 400 when not following; none of these
      change anything. Otherwise every occurrence of each id leaves the other
      side's array and the new lengths are returned. */
  method UnfollowUser(db: Store, caller: Id, target: Id) returns (status: Status, following: nat, followers: nat)
    requires db.Valid()
    modifies db
    ensures db.Valid()
    ensures target == caller ==> status == BadRequest
    ensures target != caller && target !in Keys(old(db.users), UserKey) ==> status == NotFound
    ensures target != caller && target in Keys(old(db.users), UserKey) && caller !in Keys(old(db.users), UserKey) ==>
      status == InternalError
    ensures (target != caller && target in Keys(old(db.users), UserKey) && caller in Keys(old(db.users), UserKey)
             && !Follows(old(db.users), caller, target)) ==>
      status == BadRequest
    ensures target != caller && target in Keys(old(db.users), UserKey) && Follows(old(db.users), caller, target) ==>
      && status == Ok
      && db.users == Unfollow(old(db.users), caller, target)
      && !Follows(db.users, caller, target)
      && UserById(db.users, caller).Some? && UserById(db.users, target).Some?
      && following == |UserById(db.users, caller).value.following| == |UserById(old(db.users), caller).value.following| - 1
      && followers == |UserById(db.users, target).value.followers| == |UserById(old(db.users), target).value.followers| - 1
    ensures status != Ok ==> unchanged(db)
    ensures db.posts == old(db.posts) && db.comments == old(db.comments) && db.likes == old(db.likes)
    ensures db.nextId == old(db.nextId)
  {
    if target == caller {
      return BadRequest, 0, 0;
    }
    var t := UserById(db.users, target);
    if t.None? {
      return NotFound, 0, 0;
    }
    var c := UserById(db.users, caller);
    if c.None? {
      return InternalError, 0, 0;
    }
    if target !in c.value.following {
      return BadRequest, 0, 0;
    }
    var users := Unfollow(db.users, caller, target);
    UnfollowKeepsStore(db.users, db.posts, db.comments, db.likes, db.nextId, caller, target);
    UnfollowCallerDoc(db.users, caller, target);
    UnfollowTargetDoc(db.users, caller, target);
    following := |Without(c.value.following, target)|;
    followers := |Without(t.value.followers, caller)|;
    assert following == |UserById(users, caller).value.following| == |c.value.following| - 1;
    assert followers == |UserById(users, target).value.followers| == |t.value.followers| - 1;
    db.Save(users, db.posts, db.comments, db.likes, db.nextId);
    status := Ok;
  }

  /** What an unfollow does to the caller's document, read back by id:
      `following` loses exactly the one entry `target`. */
  lemma UnfollowCallerDoc(users: seq<User>, caller: Id, target: Id)
    requires GraphValid(users) && caller != target
    requires Follows(users, caller, target)
    ensures var r := Unfollow(users, caller, target);
      && UserById(r, caller).Some?
      && UserById(r, caller).value.following == Without(UserById(users, caller).value.following, target)
      && |UserById(r, caller).value.following| == |UserById(users, caller).value.following| - 1
      && !Follows(r, caller, target)
  {
    var r := Unfollow(users, caller, target);
    var ci := FindIndex(users, UserKey, caller).value;
    assert KeysDistinct(r, UserKey) by { UnfollowKeys(users, caller, target); }
    assert r[ci].following == Without(users[ci].following, target);
    UserAt(users, caller, ci);
    UserAt(r, caller, ci);
    WithoutOne(users[ci].following, target);
  }

  /** What an unfollow does to the target's document, read back by id:
      `followers` loses exactly the one entry `caller`. */
  lemma UnfollowTargetDoc(users: seq<User>, caller: Id, target: Id)
    requires GraphValid(users) && caller != target
    requires target in Keys(users, UserKey) && Follows(users, caller, target)
    ensures var r := Unfollow(users, caller, target);
      && UserById(r, target).Some?
      && UserById(r, target).value.followers == Without(UserById(users, target).value.followers, caller)
      && |UserById(r, target).value.followers| == |UserById(users, target).value.followers| - 1
  {
    var r := Unfollow(users, caller, target);
    var ti := FindIndex(users, UserKey, target).value;
    assert KeysDistinct(r, UserKey) by { UnfollowKeys(users, caller, target); }
    assert r[ti].followers == Without(users[ti].followers, caller);
    UserAt(users, target, ti);
    UserAt(r, target, ti);
    FollowsIffFollower(users, caller, target, ti);
    WithoutOne(users[ti].followers, caller);
  }

  // --------------------------------------------------------------- reads

  /** `.populate(...)` of an id array: the profile of each listed id that
      has a stored document, in the array's order. */
  function Populate(users: seq<User>, ids: seq<Id>): (r: seq<Profile>)
    ensures |r| <= |ids|
    ensures (forall x :: x in ids ==> x in Keys(users, UserKey)) ==> |r| == |ids|
    ensures (forall x :: x in ids ==> x in Keys(users, UserKey)) ==>
      forall i :: 0 <= i < |ids| ==> UserById(users, ids[i]).Some? && r[i] == ProfileOf(UserById(users, ids[i]).value)
    ensures forall p :: p in r ==> p.id in ids && exists u :: u in users && p == ProfileOf(u)
  {
    if ids == [] then []
    else
      var rest := Populate(users, ids[1..]);
      match UserById(users, ids[0])
      case None => rest
      case Some(u) => [ProfileOf(u)] + rest
  }

  /** `getFollowers`: 404 for a missing user; otherwise the populated
      `followers` array. */
  function GetFollowers(users: seq<User>, id: Id): (r: Result<seq<Profile>>)
    ensures r.Failure? <==> id !in Keys(users, UserKey)
    ensures r.Failure? ==> r.status == NotFound
    ensures r.Success? ==> r.value == Populate(users, UserById(users, id).value.followers)
  {
    match UserById(users, id)
    case None => Failure(NotFound)
    case Some(u) => Success(Populate(users, u.followers))
  }

  /** `getFollowing`: 404 for a missing user; otherwise the populated
      `following` array. */
  function GetFollowing(users: seq<User>, id: Id): (r: Result<seq<Profile>>)
    ensures r.Failure? <==> id !in Keys(users, UserKey)
    ensures r.Failure? ==> r.status == NotFound
    ensures r.Success? ==> r.value == Populate(users, UserById(users, id).value.following)
  {
    match UserById(users, id)
    case None => Failure(NotFound)
    case Some(u) => Success(Populate(users, u.following))
  }

  /** In a valid graph the followers listed for `b` are exactly the users
      that follow `b`: every listed user follows `b` and every user that
      follows `b` is listed. The count is the stored array's length. */
  lemma {:induction false} FollowersAreFollowing(users: seq<User>, b: Id)
    requires GraphValid(users) && b in Keys(users, UserKey)
    ensures GetFollowers(users, b).Success?
    ensures |GetFollowers(users, b).value| == |UserById(users, b).value.followers|
    ensures forall p :: p in GetFollowers(users, b).value ==> Follows(users, p.id, b)
    ensures forall a :: Follows(users, a, b) ==> exists p :: p in GetFollowers(users, b).value && p.id == a
  {
    var bi :| 0 <= bi < |users| && users[bi].id == b;
    UserAt(users, b, bi);
    var listed := GetFollowers(users, b).value;
    forall p | p in listed ensures Follows(users, p.id, b) {
      FollowsIffFollower(users, p.id, b, bi);
    }
    forall a | Follows(users, a, b) ensures exists p :: p in listed && p.id == a {
      FollowsIffFollower(users, a, b, bi);
      var k :| 0 <= k < |users[bi].followers| && users[bi].followers[k] == a;
      assert listed[k].id == a;
    }
  }

  /** The same for the users `a` follows. */
  lemma {:induction false} FollowingAreFollowed(users: seq<User>, a: Id)
    requires GraphValid(users) && a in Keys(users, UserKey)
    ensures GetFollowing(users, a).Success?
    ensures |GetFollowing(users, a).value| == |UserById(users, a).value.following|
    ensures forall p :: p in GetFollowing(users, a).value ==> Follows(users, a, p.id)
    ensures forall b :: Follows(users, a, b) ==> exists p :: p in GetFollowing(users, a).value && p.id == b
  {
    var ai :| 0 <= ai < |users| && users[ai].id == a;
    UserAt(users, a, ai);
    var listed := GetFollowing(users, a).value;
    forall b | Follows(users, a, b) ensures exists p :: p in listed && p.id == b {
      var k :| 0 <= k < |users[ai].following| && users[ai].following[k] == b;
      assert listed[k].id == b;
    }
  }

  /** The regular expression `q` with flag `i` matches the name or the
      email. */
  predicate MatchesQuery(u: User, q: string) {
    ContainsIgnoreCase(u.name, q) || ContainsIgnoreCase(u.email, q)
  }

  /** The users whose name or email matches `q`, in collection order. */
  function Hits(users: seq<User>, q: string): (r: seq<User>)
    ensures forall u :: u in r <==> u in users && MatchesQuery(u, q)
  {
    Filter(users, (u: User) => MatchesQuery(u, q))
  }

  /** `searchUsers`: 400 for a missing query or one under two characters
      once trimmed; otherwise the first 20 users, in collection order, whose
      name or email matches the untrimmed query. */
  function SearchUsers(users: seq<User>, q: Option<string>): (r: Result<seq<Profile>>)
    ensures r.Failure? <==> q.None? || |Trim(q.value)| < 2
    ensures r.Failure? ==> r.status == BadRequest
    ensures r.Success? ==> |r.value| <= 20
    ensures r.Success? ==> r.value == Profiles(Take(Hits(users, q.value), 20))
  {
    if q.None? || |Trim(q.value)| < 2 then Failure(BadRequest)
    else Success(Profiles(Take(Hits(users, q.value), 20)))
  }

  /** Every user that search returns matches the query, and when fewer than
      20 come back, every matching user is among them. */
  lemma SearchUsersSound(users: seq<User>, q: string)
    requires |Trim(q)| >= 2
    ensures forall p :: p in SearchUsers(users, Some(q)).value ==>
      exists u :: u in users && MatchesQuery(u, q) && p == ProfileOf(u)
    ensures |SearchUsers(users, Some(q)).value| < 20 ==>
      forall u :: u in users && MatchesQuery(u, q) ==> ProfileOf(u) in SearchUsers(users, Some(q)).value
  {
    var hits := Hits(users, q);
    assert SearchUsers(users, Some(q)).value == Profiles(Take(hits, 20));
    ProfilesOfFirst(hits, 20);
  }

  /** The profiles of the first `n` users are profiles of those users, and
      when fewer than `n` come back, every user's profile is among them. */
  lemma ProfilesOfFirst(us: seq<User>, n: nat)
    ensures forall p :: p in Profiles(Take(us, n)) ==> exists u :: u in us && p == ProfileOf(u)
    ensures |Profiles(Take(us, n))| < n ==> forall u :: u in us ==> ProfileOf(u) in Profiles(Take(us, n))
  {
    var first := Take(us, n);
    var r := Profiles(first);
    forall p | p in r ensures exists u :: u in us && p == ProfileOf(u) {
      var i :| 0 <= i < |r| && r[i] == p;
      assert first[i] in us;
    }
    if |r| < n {
      assert first == us;
      forall u | u in us ensures ProfileOf(u) in r {
        var i :| 0 <= i < |us| && us[i] == u;
        assert r[i] == ProfileOf(u);
      }
    }
  }

  /** Whom the caller may be suggested: anyone but the caller and the users
      the caller already follows. */
  predicate Suggestible(u: User, caller: Id, following: seq<Id>) {
    u.id != caller && u.id !in following
  }

  /** `getSuggestedUsers`: 404 when the caller's document is missing;
      otherwise the first 10 users, in collection order, that the caller is
      not and does not follow. */
  function GetSuggestedUsers(users: seq<User>, caller: Id): (r: Result<seq<Profile>>)
    ensures r.Failure? <==> caller !in Keys(users, UserKey)
    ensures r.Failure? ==> r.status == NotFound
    ensures r.Success? ==> |r.value| <= 10
    ensures r.Success? ==> forall p :: p in r.value ==> p.id != caller && !Follows(users, caller, p.id)
    ensures r.Success? ==>
      var eligible := Filter(users, (u: User) => Suggestible(u, caller, UserById(users, caller).value.following));
      r.value == Profiles(Take(eligible, 10))
  {
    match UserById(users, caller)
    case None => Failure(NotFound)
    case Some(me) =>
      var eligible := Filter(users, (u: User) => Suggestible(u, caller, me.following));
      var r := Profiles(Take(eligible, 10));
      assert forall p :: p in r ==> p.id != caller && p.id !in me.following by {
        forall p | p in r ensures p.id != caller && p.id !in me.following {
          var i :| 0 <= i < |r| && r[i] == p;
          assert Take(eligible, 10)[i] in eligible;
        }
      }
      Success(r)
  }

  /** The profile `getCurrentUser` reports: the two arrays as lengths. */
  datatype CurrentUser = CurrentUser(id: Id, name: string, email: string, following: nat, followers: nat)

  function GetCurrentUser(users: seq<User>, caller: Id): (r: Result<CurrentUser>)
    ensures r.Failure? <==> caller !in Keys(users, UserKey)
    ensures r.Failure? ==> r.status == NotFound
    ensures r.Success? ==> exists u :: (u in users && u.id == caller
      && r.value == CurrentUser(u.id, u.name, u.email, |u.following|, |u.followers|))
  {
    match UserById(users, caller)
    case None => Failure(NotFound)
    case Some(u) => Success(CurrentUser(u.id, u.name, u.email, |u.following|, |u.followers|))
  }

  /** After a successful follow the caller's reported `following` count and
      the target's `followers` count have each grown by one. */
  lemma FollowRaisesCounts(users: seq<User>, caller: Id, target: Id)
    requires KeysDistinct(users, UserKey) && caller != target
    requires caller in Keys(users, UserKey) && target in Keys(users, UserKey)
    ensures var r := Follow(users, caller, target);
      && GetCurrentUser(r, caller).Success? && GetCurrentUser(users, caller).Success?
      && GetCurrentUser(r, caller).value.following == GetCurrentUser(users, caller).value.following + 1
      && GetCurrentUser(r, target).value.followers == GetCurrentUser(users, target).value.followers + 1
  {
    FollowCounts(users, caller, target);
  }
}
