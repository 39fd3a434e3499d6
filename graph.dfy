/** The follow relation as the two user documents hold it: the followee's
    `followers` and the follower's `following`. The route writes the two
    sides one after the other (followee first); these functions give the
    state after each write. */
module SocialGraph {
  import opened IdList
  import opened Schema

  /** Two-sided membership over the stored users: `b` is in `a`'s
      `following` exactly when `a` is in `b`'s `followers`. */
  ghost predicate Symmetric(us: map<nat, User>)
  {
    forall a, b | a in us && b in us :: (b in us[a].following <==> a in us[b].followers)
  }

  /** `u` with only its `following` list replaced. */
  predicate OnlyFollowingChanged(before: User, after: User)
  {
    after == before.(following := after.following)
  }

  /** `u` with only its `followers` list replaced. */
  predicate OnlyFollowersChanged(before: User, after: User)
  {
    after == before.(followers := after.followers)
  }

  /** The first write of a follow: `followee.addFollower(viewer)`. */
  function AddFollower(us: map<nat, User>, followee: nat, viewer: nat): (r: map<nat, User>)
    requires followee in us
    ensures r.Keys == us.Keys
    ensures viewer in r[followee].followers
    ensures OnlyFollowersChanged(us[followee], r[followee])
    ensures forall k | k in us && k != followee :: r[k] == us[k]
  {
    us[followee := us[followee].(followers := AddToSet(us[followee].followers, viewer))]
  }

  /** Both writes of a follow: `followee.addFollower(viewer)`, then
      `viewer.follow(followee)`. Self-follow is not excluded. */
  function Follow(us: map<nat, User>, viewer: nat, followee: nat): (r: map<nat, User>)
    requires viewer in us && followee in us
    ensures r.Keys == us.Keys
    ensures followee in r[viewer].following && viewer in r[followee].followers
    ensures forall k | k in us && k != viewer && k != followee :: r[k] == us[k]
    ensures viewer != followee ==> OnlyFollowingChanged(us[viewer], r[viewer])
    ensures viewer != followee ==> OnlyFollowersChanged(us[followee], r[followee])
    ensures viewer != followee ==>
      && r[viewer].following == AddToSet(us[viewer].following, followee)
      && r[followee].followers == AddToSet(us[followee].followers, viewer)
    ensures viewer == followee ==>
      r[viewer] == us[viewer].(followers := AddToSet(us[viewer].followers, viewer),
                               following := AddToSet(us[viewer].following, viewer))
  {
    var after := AddFollower(us, followee, viewer);
    after[viewer := after[viewer].(following := AddToSet(after[viewer].following, followee))]
  }

  /** The first write of an unfollow: `followee.removeFollower(viewer)`. */
  function RemoveFollower(us: map<nat, User>, followee: nat, viewer: nat): (r: map<nat, User>)
    requires followee in us
    ensures r.Keys == us.Keys
    ensures viewer !in r[followee].followers
    ensures OnlyFollowersChanged(us[followee], r[followee])
    ensures forall k | k in us && k != followee :: r[k] == us[k]
  {
    us[followee := us[followee].(followers := Pull(us[followee].followers, viewer))]
  }

  /** Both writes of an unfollow: `followee.removeFollower(viewer)`, then
      `viewer.unfollow(followee)`. */
  function Unfollow(us: map<nat, User>, viewer: nat, followee: nat): (r: map<nat, User>)
    requires viewer in us && followee in us
    ensures r.Keys == us.Keys
    ensures followee !in r[viewer].following && viewer !in r[followee].followers
    ensures forall k | k in us && k != viewer && k != followee :: r[k] == us[k]
    ensures viewer != followee ==> OnlyFollowingChanged(us[viewer], r[viewer])
    ensures viewer != followee ==> OnlyFollowersChanged(us[followee], r[followee])
    ensures viewer != followee ==>
      && r[viewer].following == Pull(us[viewer].following, followee)
      && r[followee].followers == Pull(us[followee].followers, viewer)
    ensures viewer == followee ==>
      r[viewer] == us[viewer].(followers := Pull(us[viewer].followers, viewer),
                               following := Pull(us[viewer].following, viewer))
  {
    var after := RemoveFollower(us, followee, viewer);
    after[viewer := after[viewer].(following := Pull(after[viewer].following, followee))]
  }

  /** A completed follow keeps the two sides in agreement. */
  lemma FollowPreservesSymmetry(us: map<nat, User>, viewer: nat, followee: nat)
    requires viewer in us && followee in us && Symmetric(us)
    ensures Symmetric(Follow(us, viewer, followee))
  {
    var r := Follow(us, viewer, followee);
    forall a, b | a in r && b in r
      ensures b in r[a].following <==> a in r[b].followers
    {
      assert us[a].following == r[a].following || a == viewer;
      assert us[b].followers == r[b].followers || b == followee;
    }
  }

  /** A completed unfollow keeps the two sides in agreement. */
  lemma UnfollowPreservesSymmetry(us: map<nat, User>, viewer: nat, followee: nat)
    requires viewer in us && followee in us && Symmetric(us)
    ensures Symmetric(Unfollow(us, viewer, followee))
  {
    var r := Unfollow(us, viewer, followee);
    forall a, b | a in r && b in r
      ensures b in r[a].following <==> a in r[b].followers
    {
      assert us[a].following == r[a].following || a == viewer;
      assert us[b].followers == r[b].followers || b == followee;
    }
  }

  /** Between the two writes the relation is one-sided: after only the
      followee's write, a viewer who did not follow the followee is listed
      as a follower while the viewer's `following` still lacks the followee. */
  lemma PartialFollowIsOneSided(us: map<nat, User>, viewer: nat, followee: nat)
    requires viewer in us && followee in us && Symmetric(us)
    requires viewer != followee && followee !in us[viewer].following
    ensures !Symmetric(AddFollower(us, followee, viewer))
  {
    var r := AddFollower(us, followee, viewer);
    assert viewer in r[followee].followers && followee !in r[viewer].following;
  }

  /** Following twice gives the same state as following once. */
  lemma FollowIdempotent(us: map<nat, User>, viewer: nat, followee: nat)
    requires viewer in us && followee in us
    ensures Follow(Follow(us, viewer, followee), viewer, followee) == Follow(us, viewer, followee)
  {
    var once := Follow(us, viewer, followee);
    var twice := Follow(once, viewer, followee);
    forall k | k in us ensures twice[k] == once[k] {
    }
    assert twice.Keys == once.Keys;
  }

  /** Unfollowing undoes a follow of a user the viewer did not follow
      before, given two-sided membership. */
  lemma UnfollowUndoesFollow(us: map<nat, User>, viewer: nat, followee: nat)
    requires viewer in us && followee in us && Symmetric(us)
    requires followee !in us[viewer].following
    ensures Unfollow(Follow(us, viewer, followee), viewer, followee) == us
  {
    assert viewer !in us[followee].followers;
    UndoFreshFollow(us, viewer, followee);
  }

  /** The same, from the two list memberships alone. */
  lemma UndoFreshFollow(us: map<nat, User>, viewer: nat, followee: nat)
    requires viewer in us && followee in us
    requires followee !in us[viewer].following && viewer !in us[followee].followers
    ensures Unfollow(Follow(us, viewer, followee), viewer, followee) == us
  {
    var u, w := us[viewer], us[followee];
    PullUndoesAdd(w.followers, viewer);
    PullUndoesAdd(u.following, followee);
    if viewer == followee {
      UndoSelfFollow(us, viewer);
    } else {
      var w1 := w.(followers := AddToSet(w.followers, viewer));
      var u1 := u.(following := AddToSet(u.following, followee));
      UndoOtherFollow(us, viewer, followee, u1, w1);
    }
  }

  lemma UndoSelfFollow(us: map<nat, User>, v: nat)
    requires v in us
    requires Pull(AddToSet(us[v].followers, v), v) == us[v].followers
    requires Pull(AddToSet(us[v].following, v), v) == us[v].following
    ensures Unfollow(Follow(us, v, v), v, v) == us
  {
    var u := us[v];
    var b := u.(followers := AddToSet(u.followers, v), following := AddToSet(u.following, v));
    var d := b.(followers := Pull(b.followers, v), following := Pull(b.following, v));
    assert d == u;
    SelfFollowIs(us, v);
    SelfUnfollowIs(us[v := b], v);
    PutBack(us, v, b, d);
  }

  /** A self-follow adds the user to both of its own lists at once. */
  lemma SelfFollowIs(us: map<nat, User>, v: nat)
    requires v in us
    ensures Follow(us, v, v) == us[v := us[v].(followers := AddToSet(us[v].followers, v),
                                              following := AddToSet(us[v].following, v))]
  {
    var u := us[v];
    var a := u.(followers := AddToSet(u.followers, v));
    assert AddFollower(us, v, v) == us[v := a];
    Overwrite(us, v, a, a.(following := AddToSet(a.following, v)));
  }

  /** A self-unfollow removes the user from both of its own lists at once. */
  lemma SelfUnfollowIs(us: map<nat, User>, v: nat)
    requires v in us
    ensures Unfollow(us, v, v) == us[v := us[v].(followers := Pull(us[v].followers, v),
                                                following := Pull(us[v].following, v))]
  {
    var u := us[v];
    var a := u.(followers := Pull(u.followers, v));
    assert RemoveFollower(us, v, v) == us[v := a];
    Overwrite(us, v, a, a.(following := Pull(a.following, v)));
  }

  /** The second of two writes to one user is the one that stays. */
  lemma Overwrite(us: map<nat, User>, v: nat, x: User, y: User)
    ensures us[v := x][v := y] == us[v := y]
  {
  }

  /** Writing a user and then writing back its old value restores the map. */
  lemma PutBack(us: map<nat, User>, v: nat, b: User, d: User)
    requires v in us && d == us[v]
    ensures us[v := b][v := d] == us
  {
  }

  lemma UndoOtherFollow(us: map<nat, User>, viewer: nat, followee: nat, u1: User, w1: User)
    requires viewer in us && followee in us && viewer != followee
    requires w1 == us[followee].(followers := AddToSet(us[followee].followers, viewer))
    requires u1 == us[viewer].(following := AddToSet(us[viewer].following, followee))
    requires Pull(w1.followers, viewer) == us[followee].followers
    requires Pull(u1.following, followee) == us[viewer].following
    ensures Unfollow(Follow(us, viewer, followee), viewer, followee) == us
  {
    var f := us[followee := w1][viewer := u1];
    assert Follow(us, viewer, followee) == f;
    var w2 := w1.(followers := Pull(w1.followers, viewer));
    var u2 := u1.(following := Pull(u1.following, followee));
    assert Unfollow(f, viewer, followee) == f[followee := w2][viewer := u2];
    assert w2 == us[followee] && u2 == us[viewer];
    PutBackTwo(us, followee, viewer, w1, u1);
  }

  /** Writing two users and then writing back their old values restores the
      map. */
  lemma PutBackTwo(us: map<nat, User>, a: nat, b: nat, x: User, y: User)
    requires a in us && b in us && a != b
    ensures us[a := x][b := y][a := us[a]][b := us[b]] == us
  {
  }

  /** Self-follow puts the user into both of its own lists. */
  lemma SelfFollow(us: map<nat, User>, u: nat)
    requires u in us
    ensures u in Follow(us, u, u)[u].following && u in Follow(us, u, u)[u].followers
  {
  }
}
