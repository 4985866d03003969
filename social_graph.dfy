/** The follow relation, stored twice: as `following` on the follower's
    document and as `followers` on the followed user's document. This module
    gives the two writes of follow and unfollow as functions on the user
    collection and proves what they preserve. */
module SocialGraph {
  import opened Wrappers
  import opened Seqs
  import opened Schema

  /** `userModel.findById(id)`. */
  function UserById(users: seq<User>, id: Id): (r: Option<User>)
    ensures r.Some? ==> r.value in users && r.value.id == id
    ensures r.None? <==> id !in Keys(users, UserKey)
  {
    match FindIndex(users, UserKey, id)
    case None => None
    case Some(i) => Some(users[i])
  }

  /** `a`'s document lists `b` in its `following` array. */
  predicate Follows(users: seq<User>, a: Id, b: Id) {
    var u := UserById(users, a);
    u.Some? && b in u.value.following
  }

  /** Every follow is recorded on both sides. */
  ghost predicate Mirrored(users: seq<User>) {
    forall i, j :: 0 <= i < |users| && 0 <= j < |users| ==>
      (users[i].id in users[j].followers <==> users[j].id in users[i].following)
  }

  /** The invariant of the follow graph: one document per id, both sides
      agree, no array holds an id twice or its owner's own id, and every
      listed id is a stored user. */
  ghost predicate GraphValid(users: seq<User>) {
    && KeysDistinct(users, UserKey)
    && Mirrored(users)
    && (forall i :: 0 <= i < |users| ==> Distinct(users[i].following) && Distinct(users[i].followers))
    && (forall i :: 0 <= i < |users| ==> users[i].id !in users[i].following && users[i].id !in users[i].followers)
    && (forall i, x :: 0 <= i < |users| && x in users[i].following ==> x in Keys(users, UserKey))
    && (forall i, x :: 0 <= i < |users| && x in users[i].followers ==> x in Keys(users, UserKey))
  }

  /** First write of a follow: `caller.following.push(target)`, saved. */
  function AddFollowing(users: seq<User>, caller: Id, target: Id): (r: seq<User>)
    ensures |r| == |users|
    ensures forall i :: 0 <= i < |users| ==> r[i].id == users[i].id
  {
    seq(|users|, i requires 0 <= i < |users| =>
      if users[i].id == caller then users[i].(following := users[i].following + [target]) else users[i])
  }

  /** Second write of a follow: `target.followers.push(caller)`, saved. */
  function AddFollower(users: seq<User>, target: Id, caller: Id): (r: seq<User>)
    ensures |r| == |users|
    ensures forall i :: 0 <= i < |users| ==> r[i].id == users[i].id
  {
    seq(|users|, i requires 0 <= i < |users| =>
      if users[i].id == target then users[i].(followers := users[i].followers + [caller]) else users[i])
  }

  /** First write of an unfollow: `caller.following` filtered of `target`. */
  function DropFollowing(users: seq<User>, caller: Id, target: Id): (r: seq<User>)
    ensures |r| == |users|
    ensures forall i :: 0 <= i < |users| ==> r[i].id == users[i].id
  {
    seq(|users|, i requires 0 <= i < |users| =>
      if users[i].id == caller then users[i].(following := Without(users[i].following, target)) else users[i])
  }

  /** Second write of an unfollow: `target.followers` filtered of `caller`. */
  function DropFollower(users: seq<User>, target: Id, caller: Id): (r: seq<User>)
    ensures |r| == |users|
    ensures forall i :: 0 <= i < |users| ==> r[i].id == users[i].id
  {
    seq(|users|, i requires 0 <= i < |users| =>
      if users[i].id == target then users[i].(followers := Without(users[i].followers, caller)) else users[i])
  }

  /** The user collection after a follow. Only the two documents involved
      change: the caller gains `target` at the end of `following`, the target
      gains `caller` at the end of `followers`. */
  function Follow(users: seq<User>, caller: Id, target: Id): (r: seq<User>)
    requires caller != target
    ensures |r| == |users|
    ensures forall i :: 0 <= i < |users| ==>
      (r[i].id == users[i].id && r[i].name == users[i].name
       && r[i].email == users[i].email && r[i].password == users[i].password)
    ensures forall i :: 0 <= i < |users| && users[i].id != caller && users[i].id != target ==> r[i] == users[i]
    ensures forall i :: 0 <= i < |users| && users[i].id == caller ==>
      r[i].following == users[i].following + [target] && r[i].followers == users[i].followers
    ensures forall i :: 0 <= i < |users| && users[i].id == target ==>
      r[i].followers == users[i].followers + [caller] && r[i].following == users[i].following
  {
    AddFollower(AddFollowing(users, caller, target), target, caller)
  }

  /** The user collection after an unfollow: every `target` leaves the
      caller's `following`, every `caller` leaves the target's `followers`,
      and no other document changes. */
  function Unfollow(users: seq<User>, caller: Id, target: Id): (r: seq<User>)
    requires caller != target
    ensures |r| == |users|
    ensures forall i :: 0 <= i < |users| ==>
      (r[i].id == users[i].id && r[i].name == users[i].name
       && r[i].email == users[i].email && r[i].password == users[i].password)
    ensures forall i :: 0 <= i < |users| && users[i].id != caller && users[i].id != target ==> r[i] == users[i]
    ensures forall i :: 0 <= i < |users| && users[i].id == caller ==>
      r[i].following == Without(users[i].following, target) && r[i].followers == users[i].followers
    ensures forall i :: 0 <= i < |users| && users[i].id == target ==>
      r[i].followers == Without(users[i].followers, caller) && r[i].following == users[i].following
  {
    DropFollower(DropFollowing(users, caller, target), target, caller)
  }

  lemma UserAt(users: seq<User>, id: Id, i: nat)
    requires KeysDistinct(users, UserKey)
    requires i < |users| && users[i].id == id
    ensures UserById(users, id) == Some(users[i])
  {
    var k := FindIndex(users, UserKey, id);
    if k.value != i {
      assert UserKey(users[k.value]) == UserKey(users[i]);
    }
  }

  /** With the mirror invariant, `a` follows `b` exactly when `b`'s
      document lists `a` as a follower. */
  lemma {:induction false} FollowsIffFollower(users: seq<User>, a: Id, b: Id, j: nat)
    requires GraphValid(users)
    requires j < |users| && users[j].id == b
    ensures Follows(users, a, b) <==> a in users[j].followers
  {
    if a in users[j].followers {
      assert a in Keys(users, UserKey);
      var i :| 0 <= i < |users| && users[i].id == a;
      UserAt(users, a, i);
    }
  }

  /** Appending the new edge on both sides keeps the two sides in
      agreement, given that neither side recorded it before. */
  lemma FollowMirrored(users: seq<User>, caller: Id, target: Id)
    requires Mirrored(users)
    requires caller != target
    requires forall i :: 0 <= i < |users| && users[i].id == caller ==> target !in users[i].following
    requires forall i :: 0 <= i < |users| && users[i].id == target ==> caller !in users[i].followers
    ensures Mirrored(Follow(users, caller, target))
  {
    var r := Follow(users, caller, target);
    forall i, j | 0 <= i < |r| && 0 <= j < |r|
      ensures r[i].id in r[j].followers <==> r[j].id in r[i].following
    {
      assert users[i].id in users[j].followers <==> users[j].id in users[i].following;
      if users[j].id == target {
        assert r[j].followers == users[j].followers + [caller];
      }
      if users[i].id == caller {
        assert r[i].following == users[i].following + [target];
      }
    }
  }

  /** Neither write of a follow changes the set of ids or their
      uniqueness. */
  lemma FollowKeys(users: seq<User>, caller: Id, target: Id)
    requires KeysDistinct(users, UserKey)
    requires caller != target
    ensures Keys(Follow(users, caller, target), UserKey) == Keys(users, UserKey)
    ensures KeysDistinct(Follow(users, caller, target), UserKey)
  {
    var r := Follow(users, caller, target);
    forall k | k in Keys(r, UserKey) ensures k in Keys(users, UserKey) {
      var i :| 0 <= i < |r| && r[i].id == k;
      assert users[i].id == k;
    }
  }

  /** After a follow that was not recorded before, no array holds an id
      twice or its owner's id. */
  lemma FollowArrays(users: seq<User>, caller: Id, target: Id)
    requires caller != target
    requires forall i :: 0 <= i < |users| ==> Distinct(users[i].following) && Distinct(users[i].followers)
    requires forall i :: 0 <= i < |users| ==> users[i].id !in users[i].following && users[i].id !in users[i].followers
    requires forall i :: 0 <= i < |users| && users[i].id == caller ==> target !in users[i].following
    requires forall i :: 0 <= i < |users| && users[i].id == target ==> caller !in users[i].followers
    ensures var r := Follow(users, caller, target);
      forall i :: 0 <= i < |r| ==> Distinct(r[i].following) && Distinct(r[i].followers)
    ensures var r := Follow(users, caller, target);
      forall i :: 0 <= i < |r| ==> r[i].id !in r[i].following && r[i].id !in r[i].followers
  {
    var r := Follow(users, caller, target);
    forall i | 0 <= i < |r|
      ensures Distinct(r[i].following) && Distinct(r[i].followers)
      ensures r[i].id !in r[i].following && r[i].id !in r[i].followers
    {
      assert Distinct(users[i].following) && Distinct(users[i].followers);
    }
  }

  /** A follow between two stored users only lists stored users. */
  lemma FollowRefs(users: seq<User>, caller: Id, target: Id, ids: set<Id>)
    requires caller != target && caller in ids && target in ids
    requires forall i, x :: 0 <= i < |users| && x in users[i].following ==> x in ids
    requires forall i, x :: 0 <= i < |users| && x in users[i].followers ==> x in ids
    ensures var r := Follow(users, caller, target);
      forall i, x :: 0 <= i < |r| && x in r[i].following ==> x in ids
    ensures var r := Follow(users, caller, target);
      forall i, x :: 0 <= i < |r| && x in r[i].followers ==> x in ids
  {
    var r := Follow(users, caller, target);
    forall i, x | 0 <= i < |r| && x in r[i].following ensures x in ids {
      if x != target { assert x in users[i].following; }
    }
    forall i, x | 0 <= i < |r| && x in r[i].followers ensures x in ids {
      if x != caller { assert x in users[i].followers; }
    }
  }

  /** When `caller` does not follow `target`, neither side of the edge is
      recorded on any document with those ids. */
  lemma NotFollowingYet(users: seq<User>, caller: Id, target: Id)
    requires GraphValid(users)
    requires target in Keys(users, UserKey)
    requires !Follows(users, caller, target)
    ensures forall i :: 0 <= i < |users| && users[i].id == caller ==> target !in users[i].following
    ensures forall i :: 0 <= i < |users| && users[i].id == target ==> caller !in users[i].followers
  {
    var tj :| 0 <= tj < |users| && users[tj].id == target;
    FollowsIffFollower(users, caller, target, tj);
    forall i | 0 <= i < |users| && users[i].id == caller
      ensures target !in users[i].following
    {
      UserAt(users, caller, i);
    }
    forall i | 0 <= i < |users| && users[i].id == target
      ensures caller !in users[i].followers
    {
      assert i == tj;
    }
  }

  /** A follow that passed the handler's guards keeps the graph valid. */
  lemma {:induction false} FollowPreservesGraph(users: seq<User>, caller: Id, target: Id)
    requires GraphValid(users)
    requires caller != target
    requires caller in Keys(users, UserKey) && target in Keys(users, UserKey)
    requires !Follows(users, caller, target)
    ensures GraphValid(Follow(users, caller, target))
  {
    var r := Follow(users, caller, target);
    var ids := Keys(users, UserKey);
    NotFollowingYet(users, caller, target);
    FollowKeys(users, caller, target);
    assert KeysDistinct(r, UserKey);
    FollowMirrored(users, caller, target);
    assert Mirrored(r);
    FollowArrays(users, caller, target);
    FollowRefs(users, caller, target, ids);
    assert Keys(r, UserKey) == ids;
  }

  /** Neither write of an unfollow changes the set of ids or their
      uniqueness. */
  lemma UnfollowKeys(users: seq<User>, caller: Id, target: Id)
    requires KeysDistinct(users, UserKey)
    requires caller != target
    ensures Keys(Unfollow(users, caller, target), UserKey) == Keys(users, UserKey)
    ensures KeysDistinct(Unfollow(users, caller, target), UserKey)
  {
    var r := Unfollow(users, caller, target);
    forall k | k in Keys(r, UserKey) ensures k in Keys(users, UserKey) {
      var i :| 0 <= i < |r| && r[i].id == k;
      assert users[i].id == k;
    }
  }

  /** Removing the edge on both sides keeps the two sides in agreement. */
  lemma UnfollowMirrored(users: seq<User>, caller: Id, target: Id)
    requires Mirrored(users)
    requires caller != target
    ensures Mirrored(Unfollow(users, caller, target))
  {
    var r := Unfollow(users, caller, target);
    forall i, j | 0 <= i < |r| && 0 <= j < |r|
      ensures r[i].id in r[j].followers <==> r[j].id in r[i].following
    {
      assert users[i].id in users[j].followers <==> users[j].id in users[i].following;
    }
  }

  /** Filtering an array keeps it free of repeats and of its owner's id. */
  lemma UnfollowArrays(users: seq<User>, caller: Id, target: Id)
    requires caller != target
    requires forall i :: 0 <= i < |users| ==> Distinct(users[i].following) && Distinct(users[i].followers)
    requires forall i :: 0 <= i < |users| ==> users[i].id !in users[i].following && users[i].id !in users[i].followers
    ensures var r := Unfollow(users, caller, target);
      forall i :: 0 <= i < |r| ==> Distinct(r[i].following) && Distinct(r[i].followers)
    ensures var r := Unfollow(users, caller, target);
      forall i :: 0 <= i < |r| ==> r[i].id !in r[i].following && r[i].id !in r[i].followers
  {
    var r := Unfollow(users, caller, target);
    forall i | 0 <= i < |r|
      ensures Distinct(r[i].following) && Distinct(r[i].followers)
      ensures r[i].id !in r[i].following && r[i].id !in r[i].followers
    {
      WithoutDistinct(users[i].following, target);
      WithoutDistinct(users[i].followers, caller);
    }
  }

  /** An unfollow only removes ids, so every listed id is still stored. */
  lemma UnfollowRefs(users: seq<User>, caller: Id, target: Id, ids: set<Id>)
    requires caller != target
    requires forall i, x :: 0 <= i < |users| && x in users[i].following ==> x in ids
    requires forall i, x :: 0 <= i < |users| && x in users[i].followers ==> x in ids
    ensures var r := Unfollow(users, caller, target);
      forall i, x :: 0 <= i < |r| && x in r[i].following ==> x in ids
    ensures var r := Unfollow(users, caller, target);
      forall i, x :: 0 <= i < |r| && x in r[i].followers ==> x in ids
  {
    var r := Unfollow(users, caller, target);
    forall i, x | 0 <= i < |r| && x in r[i].following ensures x in ids {
      assert x in users[i].following;
    }
    forall i, x | 0 <= i < |r| && x in r[i].followers ensures x in ids {
      assert x in users[i].followers;
    }
  }

  /** An unfollow keeps the graph valid, whether or not the edge existed. */
  lemma {:induction false} UnfollowPreservesGraph(users: seq<User>, caller: Id, target: Id)
    requires GraphValid(users)
    requires caller != target
    ensures GraphValid(Unfollow(users, caller, target))
  {
    UnfollowKeys(users, caller, target);
    UnfollowMirrored(users, caller, target);
    UnfollowArrays(users, caller, target);
    UnfollowRefs(users, caller, target, Keys(users, UserKey));
  }

  /** Following a user and then unfollowing them restores every document
      exactly, including the order of both arrays. */
  lemma {:induction false} FollowUnfollowRoundTrip(users: seq<User>, caller: Id, target: Id)
    requires GraphValid(users)
    requires caller != target
    requires target in Keys(users, UserKey)
    requires !Follows(users, caller, target)
    ensures Unfollow(Follow(users, caller, target), caller, target) == users
  {
    var r := Unfollow(Follow(users, caller, target), caller, target);
    NotFollowingYet(users, caller, target);
    forall i | 0 <= i < |users| ensures r[i] == users[i] {
      RoundTripAt(users, caller, target, i);
    }
  }

  /** One document through a follow and then an unfollow: an array that
      did not hold the id before gets it back without it. */
  lemma RoundTripAt(users: seq<User>, caller: Id, target: Id, i: nat)
    requires caller != target && i < |users|
    requires users[i].id == caller ==> target !in users[i].following
    requires users[i].id == target ==> caller !in users[i].followers
    ensures Unfollow(Follow(users, caller, target), caller, target)[i] == users[i]
  {
    if users[i].id == caller {
      WithoutAppended(users[i].following, target);
    } else if users[i].id == target {
      WithoutAppended(users[i].followers, caller);
    }
  }
  /** Appending a user with a fresh id adds exactly that id. */
  lemma AddUserKeys(users: seq<User>, u: User)
    requires KeysDistinct(users, UserKey)
    requires u.id !in Keys(users, UserKey)
    ensures Keys(users + [u], UserKey) == Keys(users, UserKey) + {u.id}
    ensures KeysDistinct(users + [u], UserKey)
  {
    var r := users + [u];
    forall k | k in Keys(r, UserKey) ensures k in Keys(users, UserKey) + {u.id} {
      var i :| 0 <= i < |r| && r[i].id == k;
      if i < |users| { assert users[i].id == k; }
    }
    forall k | k in Keys(users, UserKey) ensures k in Keys(r, UserKey) {
      var i :| 0 <= i < |users| && users[i].id == k;
      assert r[i].id == k;
    }
    assert r[|users|].id == u.id;
    forall i, j | 0 <= i < j < |r| ensures UserKey(r[i]) != UserKey(r[j]) {
      if j == |users| { assert users[i].id in Keys(users, UserKey); }
    }
  }

  /** A user that follows nobody and whom nobody lists keeps the two sides
      in agreement. */
  lemma AddUserMirrored(users: seq<User>, u: User)
    requires Mirrored(users)
    requires u.following == [] && u.followers == []
    requires forall i :: 0 <= i < |users| ==> u.id !in users[i].following && u.id !in users[i].followers
    ensures Mirrored(users + [u])
  {
    var r := users + [u];
    forall i, j | 0 <= i < |r| && 0 <= j < |r|
      ensures r[i].id in r[j].followers <==> r[j].id in r[i].following
    {
      if i < |users| && j < |users| {
        assert users[i].id in users[j].followers <==> users[j].id in users[i].following;
      }
    }
  }

  /** Registering a user with a fresh id and empty arrays keeps the graph
      valid. */
  lemma {:induction false} AddUserKeepsGraph(users: seq<User>, u: User)
    requires GraphValid(users)
    requires u.id !in Keys(users, UserKey)
    requires u.following == [] && u.followers == []
    ensures GraphValid(users + [u])
  {
    AddUserKeys(users, u);
    var r := users + [u];
    forall i | 0 <= i < |users| ensures u.id !in users[i].following && u.id !in users[i].followers {
    }
    AddUserMirrored(users, u);
    forall i | 0 <= i < |r|
      ensures Distinct(r[i].following) && Distinct(r[i].followers)
      ensures r[i].id !in r[i].following && r[i].id !in r[i].followers
    {
      if i < |users| {
        assert r[i] == users[i];
      }
    }
    forall i, x | 0 <= i < |r| && (x in r[i].following || x in r[i].followers)
      ensures x in Keys(r, UserKey)
    {
      assert i < |users| && r[i] == users[i];
    }
  }
  /** A write that keeps every document's email keeps emails unique. */
  lemma SameEmailsUnique(users: seq<User>, r: seq<User>)
    requires UniqueEmails(users)
    requires |r| == |users| && forall i :: 0 <= i < |users| ==> r[i].email == users[i].email
    ensures UniqueEmails(r)
  {
    forall i, j | 0 <= i < j < |r| ensures EmailKey(r[i]) != EmailKey(r[j]) {
      assert EmailKey(users[i]) != EmailKey(users[j]);
    }
  }
  lemma FollowKeepsEmails(users: seq<User>, caller: Id, target: Id)
    requires UniqueEmails(users) && caller != target
    ensures UniqueEmails(Follow(users, caller, target))
  {
    SameEmailsUnique(users, Follow(users, caller, target));
  }

  lemma UnfollowKeepsEmails(users: seq<User>, caller: Id, target: Id)
    requires UniqueEmails(users) && caller != target
    ensures UniqueEmails(Unfollow(users, caller, target))
  {
    SameEmailsUnique(users, Unfollow(users, caller, target));
  }
  /** Appending a user whose email is not taken keeps emails unique. */
  lemma AddUserKeepsEmails(users: seq<User>, u: User)
    requires UniqueEmails(users) && u.email !in Keys(users, EmailKey)
    ensures UniqueEmails(users + [u])
  {
    var r := users + [u];
    forall i, j | 0 <= i < j < |r| ensures EmailKey(r[i]) != EmailKey(r[j]) {
      if j == |users| { assert users[i].email in Keys(users, EmailKey); }
    }
  }
}
