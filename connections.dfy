/** Following and unfollowing a user, and the followers and following
    listings. Follow and unfollow load the followee, write the followee's
    `followers` and then the viewer's `following`. */
module Connections {
  import opened Base
  import opened IdList
  import opened Schema
  import opened SocialGraph
  import opened Store
  import opened UserModel
  import opened Response

  /** The users a follow rewrites stay well formed: the lists gain at most
      one id, below the bound, without duplicates. */
  lemma FollowUsersOk(users: map<nat, User>, n: nat, viewer: nat, followee: nat)
    requires forall k | k in users :: users[k].id == k && k < n && UserOk(users[k], n)
    requires viewer in users && followee in users
    ensures var r := SocialGraph.Follow(users, viewer, followee);
      forall k | k in r :: r[k].id == k && UserOk(r[k], n) && r[k].username == users[k].username
  {
    var r := SocialGraph.Follow(users, viewer, followee);
    forall k | k in r ensures r[k].id == k && UserOk(r[k], n) && r[k].username == users[k].username {
      var u, w := users[k], r[k];
      assert w.following == u.following || w.following == AddToSet(u.following, followee);
      assert w.followers == u.followers || w.followers == AddToSet(u.followers, viewer);
      assert w.saved == u.saved && w.id == u.id && w.username == u.username;
      assert w.firstname == u.firstname && w.lastname == u.lastname && w.email == u.email;
    }
  }

  /** The users an unfollow rewrites stay well formed: the lists only lose
      ids. */
  lemma UnfollowUsersOk(users: map<nat, User>, n: nat, viewer: nat, followee: nat)
    requires forall k | k in users :: users[k].id == k && k < n && UserOk(users[k], n)
    requires viewer in users && followee in users
    ensures var r := SocialGraph.Unfollow(users, viewer, followee);
      forall k | k in r :: r[k].id == k && UserOk(r[k], n) && r[k].username == users[k].username
  {
    var r := SocialGraph.Unfollow(users, viewer, followee);
    forall k | k in r ensures r[k].id == k && UserOk(r[k], n) && r[k].username == users[k].username {
      var u, w := users[k], r[k];
      assert w.following == u.following || w.following == Pull(u.following, followee);
      assert w.followers == u.followers || w.followers == Pull(u.followers, viewer);
      assert w.saved == u.saved && w.id == u.id && w.username == u.username;
      assert w.firstname == u.firstname && w.lastname == u.lastname && w.email == u.email;
    }
  }

  /** A completed follow keeps the stored state valid. */
  lemma FollowKeepsValid(users: map<nat, User>, quotes: map<nat, Quote>, n: nat, viewer: nat, followee: nat)
    requires ValidState(users, quotes, n) && viewer in users && followee in users
    ensures ValidState(SocialGraph.Follow(users, viewer, followee), quotes, n)
  {
    FollowPreservesSymmetry(users, viewer, followee);
    FollowUsersOk(users, n, viewer, followee);
    RewriteUsers(users, SocialGraph.Follow(users, viewer, followee), quotes, n);
  }

  /** A completed unfollow keeps the stored state valid. */
  lemma UnfollowKeepsValid(users: map<nat, User>, quotes: map<nat, Quote>, n: nat, viewer: nat, followee: nat)
    requires ValidState(users, quotes, n) && viewer in users && followee in users
    ensures ValidState(SocialGraph.Unfollow(users, viewer, followee), quotes, n)
  {
    UnfollowPreservesSymmetry(users, viewer, followee);
    UnfollowUsersOk(users, n, viewer, followee);
    RewriteUsers(users, SocialGraph.Unfollow(users, viewer, followee), quotes, n);
  }

  /** `POST /follow/:id`: 404 for a missing followee, with nothing written;
      otherwise `followee.addFollower(viewer)` and then `viewer.follow(followee)`. */
  method Follow(db: Db, viewer: UserDoc, followeeId: nat) returns (r: Result<()>)
    requires db.Valid() && viewer.Synced(db)
    modifies db`users, viewer`following
    ensures db.Valid()
    ensures followeeId in old(db.users) ==>
      r == Ok(()) && db.users == SocialGraph.Follow(old(db.users), viewer.id, followeeId)
    ensures followeeId !in old(db.users) ==> r == Err(NotFound) && db.users == old(db.users)
  {
    if followeeId !in db.users {
      return Err(NotFound);
    }
    var followee := new UserDoc.Load(db.users[followeeId]);
    followee.AddFollower(viewer.id, db);
    viewer.Follow(followee.id, db);
    FollowKeepsValid(old(db.users), db.quotes, db.nextId, viewer.id, followeeId);
    return Ok(());
  }

  /** `DELETE /unfollow/:id`: 404 for a missing followee, with nothing
      written; otherwise `followee.removeFollower(viewer)` and then
      `viewer.unfollow(followee)`. */
  method Unfollow(db: Db, viewer: UserDoc, followeeId: nat) returns (r: Result<()>)
    requires db.Valid() && viewer.Synced(db)
    modifies db`users, viewer`following
    ensures db.Valid()
    ensures followeeId in old(db.users) ==>
      r == Ok(()) && db.users == SocialGraph.Unfollow(old(db.users), viewer.id, followeeId)
    ensures followeeId !in old(db.users) ==> r == Err(NotFound) && db.users == old(db.users)
  {
    if followeeId !in db.users {
      return Err(NotFound);
    }
    var followee := new UserDoc.Load(db.users[followeeId]);
    followee.RemoveFollower(viewer.id, db);
    viewer.Unfollow(followee.id, db);
    UnfollowKeepsValid(old(db.users), db.quotes, db.nextId, viewer.id, followeeId);
    return Ok(());
  }

  /** `GET /followers/:id`: the user's `followers`, populated and projected.
      A missing user reaches the error path by reading `_id` of null while
      building the 400 message, so it is an unexpected error. */
  function Followers(users: map<nat, User>, id: nat, viewer: User): (r: Result<seq<UserView>>)
    requires forall k | k in users :: users[k].id == k
    ensures r.Err? <==> id !in users
    ensures r.Err? ==> r.error == Unexpected
    ensures r.Ok? ==> r.value == WrapPopulatedUsers(users, users[id].followers, viewer)
  {
    if id in users then Ok(WrapPopulatedUsers(users, users[id].followers, viewer)) else Err(Unexpected)
  }

  /** `GET /following/:id`: the users the user follows, populated and
      projected; a missing user fails reading `following` of null. */
  function Following(users: map<nat, User>, id: nat, viewer: User): (r: Result<seq<UserView>>)
    requires forall k | k in users :: users[k].id == k
    ensures r.Err? <==> id !in users
    ensures r.Err? ==> r.error == Unexpected
    ensures r.Ok? ==> r.value == WrapPopulatedUsers(users, users[id].following, viewer)
  {
    if id in users then Ok(WrapPopulatedUsers(users, users[id].following, viewer)) else Err(Unexpected)
  }

  /** With two-sided membership, everyone the followers listing shows
      follows the user, and everyone the following listing shows has the
      user among its followers; when no listed id is dangling, the listing
      is the stored list in stored order. */
  lemma ListingsAgreeWithGraph(users: map<nat, User>, quotes: map<nat, Quote>, n: nat, id: nat, viewer: User)
    requires ValidState(users, quotes, n) && id in users
    ensures forall v | v in Followers(users, id, viewer).value :: id in v.following
    ensures forall v | v in Following(users, id, viewer).value :: id in v.followers
    ensures (forall k | k in users[id].followers :: k in users) ==>
      |Followers(users, id, viewer).value| == |users[id].followers| &&
      forall i | 0 <= i < |users[id].followers| :: Followers(users, id, viewer).value[i].id == users[id].followers[i]
  {
    ListedFollowersFollow(users, id, viewer);
    ListedFolloweesList(users, id, viewer);
    FollowersInOrder(users, id, viewer);
  }

  lemma ListedFollowersFollow(users: map<nat, User>, id: nat, viewer: User)
    requires (forall k | k in users :: users[k].id == k) && Symmetric(users) && id in users
    ensures forall v | v in Followers(users, id, viewer).value :: id in v.following
  {
    var fs := Followers(users, id, viewer).value;
    forall v | v in fs ensures id in v.following {
      var i :| 0 <= i < |fs| && fs[i] == v;
      assert v.following == users[v.id].following;
    }
  }

  lemma ListedFolloweesList(users: map<nat, User>, id: nat, viewer: User)
    requires (forall k | k in users :: users[k].id == k) && Symmetric(users) && id in users
    ensures forall v | v in Following(users, id, viewer).value :: id in v.followers
  {
    var gs := Following(users, id, viewer).value;
    forall v | v in gs ensures id in v.followers {
      var i :| 0 <= i < |gs| && gs[i] == v;
      assert v.followers == users[v.id].followers;
    }
  }

  lemma FollowersInOrder(users: map<nat, User>, id: nat, viewer: User)
    requires (forall k | k in users :: users[k].id == k) && id in users
    ensures (forall k | k in users[id].followers :: k in users) ==>
      |Followers(users, id, viewer).value| == |users[id].followers| &&
      forall i | 0 <= i < |users[id].followers| :: Followers(users, id, viewer).value[i].id == users[id].followers[i]
  {
  }
}
