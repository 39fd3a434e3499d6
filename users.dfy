/** Registration, reading, profile update and deletion of users, the admin
    delete-all and the random suggestions. */
module UserRoutes {
  import opened Base
  import opened IdList
  import opened Schema
  import opened Store
  import opened UserModel
  import opened Response

  /** Some user other than `id` holds the username. */
  predicate Taken(users: map<nat, User>, username: string, id: nat)
  {
    exists k | k in users && k != id :: users[k].username == username
  }

  /** `POST /users` (no login needed): all four fields present and not
      empty, else an error without a status; 409 when the username is held;
      otherwise a new user with the schema defaults under a fresh id. */
  method Register(db: Db, username: Option<string>, firstname: Option<string>, lastname: Option<string>,
                  email: Option<string>) returns (r: Result<()>)
    requires db.Valid()
    modifies db`users, db`nextId
    ensures db.Valid() && db.quotes == old(db.quotes)
    ensures !(Truthy(username) && Truthy(firstname) && Truthy(lastname) && Truthy(email)) ==>
      r == Err(Unexpected) && db.users == old(db.users)
    ensures Truthy(username) && Truthy(firstname) && Truthy(lastname) && Truthy(email) ==>
      && (Taken(old(db.users), username.value, old(db.nextId)) ==> r == Err(Conflict) && db.users == old(db.users))
      && (!Taken(old(db.users), username.value, old(db.nextId)) ==>
            && r == Ok(()) && old(db.nextId) !in old(db.users)
            && db.users == old(db.users)[old(db.nextId) :=
                 NewUser(old(db.nextId), username.value, firstname.value, lastname.value, email.value)])
  {
    if !(Truthy(username) && Truthy(firstname) && Truthy(lastname) && Truthy(email)) {
      return Err(Unexpected);
    }
    if exists k | k in db.users :: db.users[k].username == username.value {
      return Err(Conflict);
    }
    var u := NewUser(db.nextId, username.value, firstname.value, lastname.value, email.value);
    AddUser(db.users, db.quotes, db.nextId, u);
    db.users := db.users[u.id := u];
    db.nextId := db.nextId + 1;
    return Ok(());
  }

  /** `GET /users/:id`: the user projected; 404 for a missing user. */
  function GetUser(users: map<nat, User>, id: nat, viewer: User): (r: Result<UserView>)
    requires forall k | k in users :: users[k].id == k
    ensures id !in users <==> r == Err(NotFound)
    ensures r.Ok? ==> r.value == WrapUser(users[id], viewer) && r.value.id == id
  {
    if id in users then Ok(WrapUser(users[id], viewer)) else Err(NotFound)
  }

  /** `PUT /users/:id`: 403 unless the id is the viewer's own and 404 for a
      missing user; first and last name take the supplied value when it is
      present and not empty. A supplied username held by another user is a
      409 and nothing is saved; keeping one's own username is no clash.
      Otherwise the username too follows the same rule and the user is
      saved and projected for the viewer. */
  method UpdateProfile(db: Db, viewer: User, id: nat, firstname: Option<string>, lastname: Option<string>,
                       username: Option<string>) returns (r: Result<UserView>)
    requires db.Valid()
    modifies db`users
    ensures db.Valid()
    ensures id != viewer.id ==> r == Err(Forbidden) && db.users == old(db.users)
    ensures id == viewer.id && id !in old(db.users) ==> r == Err(NotFound) && db.users == old(db.users)
    ensures id == viewer.id && id in old(db.users) && username.Some? && Taken(old(db.users), username.value, id) ==>
      r == Err(Conflict) && db.users == old(db.users)
    ensures id == viewer.id && id in old(db.users) && !(username.Some? && Taken(old(db.users), username.value, id)) ==>
      var u := old(db.users)[id];
      var v := u.(firstname := OrKeep(firstname, u.firstname), lastname := OrKeep(lastname, u.lastname),
                  username := OrKeep(username, u.username));
      db.users == old(db.users)[id := v] && r == Ok(WrapUser(v, viewer))
  {
    if id != viewer.id {
      return Err(Forbidden);
    }
    if id !in db.users {
      return Err(NotFound);
    }
    var user := new UserDoc.Load(db.users[id]);
    user.firstname := OrKeep(firstname, user.firstname);
    user.lastname := OrKeep(lastname, user.lastname);
    if username.Some? && exists k | k in db.users && k != id :: db.users[k].username == username.value {
      return Err(Conflict);
    }
    user.username := OrKeep(username, user.username);
    PutUserRenamed(db.users, db.quotes, db.nextId, user.Value());
    user.Save(db);
    return Ok(WrapUser(user.Value(), viewer));
  }

  /** After a successful update the usernames are still unique and the
      edited user has the supplied username when one was given. */
  lemma UpdateKeepsNamesUnique(users: map<nat, User>, quotes: map<nat, Quote>, n: nat, id: nat, s: string)
    requires ValidState(users, quotes, n) && id in users && s != "" && !Taken(users, s, id)
    ensures UniqueUsernames(users[id := users[id].(username := s)])
    ensures forall k | k in users && k != id :: users[k].username != s
  {
  }

  /** `DELETE /users/:id`: 403 unless the id is the viewer's own; otherwise
      the user is removed (whether or not it is still there) and returned.
      Other users' lists keep the id. */
  method DeleteSelf(db: Db, viewer: User, id: nat) returns (r: Result<Option<User>>)
    requires db.Valid()
    modifies db`users
    ensures db.Valid()
    ensures id != viewer.id ==> r == Err(Forbidden) && db.users == old(db.users)
    ensures id == viewer.id ==>
      && db.users == old(db.users) - {id}
      && r == Ok(if id in old(db.users) then Some(old(db.users)[id]) else None)
  {
    if id != viewer.id {
      return Err(Forbidden);
    }
    var gone := if id in db.users then Some(db.users[id]) else None;
    RemoveUsers(db.users, db.quotes, db.nextId, {id});
    db.users := db.users - {id};
    return Ok(gone);
  }

  /** `DELETE /users` (admins only): every user is removed; the response
      counts them. */
  method DeleteAllUsers(db: Db, viewer: User) returns (r: Result<nat>)
    requires db.Valid()
    modifies db`users
    ensures db.Valid()
    ensures !viewer.admin ==> r == Err(Forbidden) && db.users == old(db.users)
    ensures viewer.admin ==> r == Ok(|old(db.users)|) && db.users == map[]
  {
    if !viewer.admin {
      return Err(Forbidden);
    }
    var n := |db.users|;
    RemoveUsers(db.users, db.quotes, db.nextId, db.users.Keys);
    db.users := map[];
    return Ok(n);
  }

  /** `$match: {_id: {$nin: excluded}}` then `$sample: {size}`, with the
      random order of the sample given as `draw`: the first `size` distinct
      stored users of the draw that are not excluded. */
  function Draw(users: map<nat, User>, excluded: set<nat>, size: nat, draw: seq<nat>): (r: seq<nat>)
    ensures |r| <= size && NoDup(r)
    ensures forall k | k in r :: k in users && k !in excluded && k in draw
    ensures |r| < size ==> forall k | k in draw && k in users && k !in excluded :: k in r
    decreases |draw|
  {
    if size == 0 || draw == [] then []
    else if draw[0] in users && draw[0] !in excluded then
      var rest := Draw(users, excluded + {draw[0]}, size - 1, draw[1..]);
      NoDupCons(draw[0], rest);
      [draw[0]] + rest
    else Draw(users, excluded, size, draw[1..])
  }

  /** `GET /users/random/:size`: suggestions drawn from everyone but the
      viewer and the users the viewer follows, as stored documents. */
  function Suggestions(users: map<nat, User>, viewer: User, size: nat, draw: seq<nat>): (r: seq<User>)
    requires forall k | k in users :: users[k].id == k
    ensures |r| <= size
    ensures forall i | 0 <= i < |r| :: r[i].id in users && users[r[i].id] == r[i]
    ensures forall i | 0 <= i < |r| :: r[i].id != viewer.id && r[i].id !in viewer.following
    ensures forall i, j | 0 <= i < j < |r| :: r[i].id != r[j].id
  {
    var ids := Draw(users, (set x | x in viewer.following) + {viewer.id}, size, draw);
    assert forall i | 0 <= i < |ids| :: ids[i] in ids;
    seq(|ids|, i requires 0 <= i < |ids| => users[ids[i]])
  }
}
