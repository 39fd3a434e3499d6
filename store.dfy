/** The database: the `users` and `quotes` collections keyed by `_id`, and
    the ObjectId generator. ObjectIds grow with creation time, so a counter
    handing out `nextId` gives every new document and embedded comment an id
    larger than all earlier ones. */
module Store {
  import opened Base
  import opened Schema
  import opened SocialGraph

  /** What holds of the stored collections between requests. */
  ghost predicate ValidState(users: map<nat, User>, quotes: map<nat, Quote>, nextId: nat)
  {
    && (forall k | k in users :: users[k].id == k && k < nextId && UserOk(users[k], nextId))
    && (forall k | k in quotes :: quotes[k].id == k && k < nextId && QuoteOk(quotes[k], nextId))
    && UniqueUsernames(users)
    && Symmetric(users)
  }

  /** The accounts plugin keeps usernames unique; registration and profile
      update both check for a clash. */
  ghost predicate UniqueUsernames(users: map<nat, User>)
  {
    forall a, b | a in users && b in users && a != b :: users[a].username != users[b].username
  }

  ghost predicate IdsAreKeys(quotes: map<nat, Quote>)
  {
    forall k | k in quotes :: quotes[k].id == k
  }

  /** The ids of the stored documents kept by `keep`, from `from` up to
      below `bound`, in ascending order. The model takes this as the order of
      a `find` without a sort; ids grow with creation, but MongoDB does not
      promise that its natural order is insertion order. */
  function Ascending<V>(m: map<nat, V>, keep: V -> bool, from: nat, bound: nat): (ids: seq<nat>)
    ensures forall i | 0 <= i < |ids| :: from <= ids[i] < bound
    ensures forall i, j | 0 <= i < j < |ids| :: ids[i] < ids[j]
    ensures forall k :: k in ids <==> from <= k < bound && k in m && keep(m[k])
    decreases bound - from
  {
    if bound <= from then []
    else if from in m && keep(m[from]) then [from] + Ascending(m, keep, from + 1, bound)
    else Ascending(m, keep, from + 1, bound)
  }

  /** `populate(path)` of an id list: the stored documents of the ids that
      still exist, in list order; an id whose document is gone drops out. */
  function Present<V>(m: map<nat, V>, ids: seq<nat>): (r: seq<nat>)
    ensures forall k :: k in r <==> k in ids && k in m
    ensures |r| <= |ids|
    ensures (forall k | k in ids :: k in m) ==> r == ids
  {
    if ids == [] then []
    else if ids[0] in m then [ids[0]] + Present(m, ids[1..])
    else Present(m, ids[1..])
  }

  class Db {
    var users: map<nat, User>
    var quotes: map<nat, Quote>
    var nextId: nat

    ghost predicate Valid()
      reads this
    {
      ValidState(users, quotes, nextId)
    }

    constructor Empty()
      ensures Valid() && users == map[] && quotes == map[] && nextId == 0
    {
      users, quotes, nextId := map[], map[], 0;
    }

    /** `new ObjectId()`: an id no stored document or comment has yet. */
    method NewObjectId() returns (id: nat)
      requires Valid()
      modifies `nextId
      ensures Valid()
      ensures id == old(nextId) && nextId == id + 1
      ensures id !in users && id !in quotes
    {
      id := nextId;
      BoundGrows(users, quotes, nextId);
      nextId := nextId + 1;
    }
  }

  /** Raising the id bound keeps every stored document valid. */
  lemma BoundGrows(users: map<nat, User>, quotes: map<nat, Quote>, n: nat)
    requires ValidState(users, quotes, n)
    ensures ValidState(users, quotes, n + 1)
  {
    forall k | k in quotes ensures QuoteOk(quotes[k], n + 1) {
      var q := quotes[k];
      assert forall i | 0 <= i < |q.comments| :: CommentOk(q.comments[i], n);
    }
  }

  /** Replacing one quote by a valid one with the same id keeps the state
      valid. */
  lemma PutQuote(users: map<nat, User>, quotes: map<nat, Quote>, n: nat, q: Quote)
    requires ValidState(users, quotes, n)
    requires q.id < n && QuoteOk(q, n)
    ensures ValidState(users, quotes[q.id := q], n)
  {
  }

  /** Replacing one user while keeping its username and both follow lists
      keeps the state valid. */
  lemma PutUserSameGraph(users: map<nat, User>, quotes: map<nat, Quote>, n: nat, u: User)
    requires ValidState(users, quotes, n)
    requires u.id in users && UserOk(u, n)
    requires u.username == users[u.id].username
    requires u.following == users[u.id].following && u.followers == users[u.id].followers
    ensures ValidState(users[u.id := u], quotes, n)
  {
    var r := users[u.id := u];
    forall a, b | a in r && b in r
      ensures b in r[a].following <==> a in r[b].followers
    {
      assert r[a].following == users[a].following;
      assert r[b].followers == users[b].followers;
    }
  }

  /** Rewriting users without adding, removing or renaming any keeps the
      state valid when every rewritten user is well formed and the relation
      stays two-sided. */
  lemma RewriteUsers(users: map<nat, User>, r: map<nat, User>, quotes: map<nat, Quote>, n: nat)
    requires ValidState(users, quotes, n)
    requires r.Keys == users.Keys && Symmetric(r)
    requires forall k | k in r :: r[k].id == k && UserOk(r[k], n) && r[k].username == users[k].username
    ensures ValidState(r, quotes, n)
  {
  }

  /** Rewriting one user's names while keeping its follow lists keeps the
      state valid when no other user holds the new username. */
  lemma PutUserRenamed(users: map<nat, User>, quotes: map<nat, Quote>, n: nat, u: User)
    requires ValidState(users, quotes, n)
    requires u.id in users && UserOk(u, n)
    requires forall k | k in users && k != u.id :: users[k].username != u.username
    requires u.following == users[u.id].following && u.followers == users[u.id].followers
    ensures ValidState(users[u.id := u], quotes, n)
  {
    var r := users[u.id := u];
    forall a, b | a in r && b in r
      ensures b in r[a].following <==> a in r[b].followers
    {
      assert r[a].following == users[a].following;
      assert r[b].followers == users[b].followers;
    }
  }

  /** Adding a user with empty follow lists at the id bound, under a
      username nobody holds, keeps the state valid once the bound moves
      past it. */
  lemma AddUser(users: map<nat, User>, quotes: map<nat, Quote>, n: nat, u: User)
    requires ValidState(users, quotes, n)
    requires u.id == n && UserOk(u, n + 1) && u.following == [] && u.followers == []
    requires forall k | k in users :: users[k].username != u.username
    ensures ValidState(users[u.id := u], quotes, n + 1)
  {
    BoundGrows(users, quotes, n);
    var r := users[u.id := u];
    forall a, b | a in r && b in r
      ensures b in r[a].following <==> a in r[b].followers
    {
      if a != u.id && b != u.id {
        assert r[a] == users[a] && r[b] == users[b];
      }
    }
  }

  /** Removing users keeps the state valid: the relation is only required
      between users that still exist. */
  lemma RemoveUsers(users: map<nat, User>, quotes: map<nat, Quote>, n: nat, gone: set<nat>)
    requires ValidState(users, quotes, n)
    ensures ValidState(users - gone, quotes, n)
  {
  }

  /** A method the route does not support: 400, and nothing is written. */
  method Unsupported(db: Db) returns (r: Result<()>)
    ensures r == Err(BadInput)
  {
    r := Err(BadInput);
  }
}
