/** A loaded user document and the methods of the User model that change
    it. Each list method changes its list in place and then calls `save()`;
    Mongoose's save writes back only the paths that changed, so a list
    method rewrites only that list of the stored user. */
module UserModel {
  import opened IdList
  import opened Schema
  import opened Store

  class UserDoc {
    const id: nat
    var username: string
    var firstname: string
    var lastname: string
    var email: string
    var displayImage: string
    var admin: bool
    var following: seq<nat>
    var followers: seq<nat>
    var saved: seq<nat>

    /** The document's fields as a stored value. */
    function Value(): (u: User)
      reads this
      ensures u.id == id && u.following == following && u.followers == followers && u.saved == saved
    {
      User(id, username, firstname, lastname, email, displayImage, admin, following, followers, saved)
    }

    /** The document agrees with what the database holds for its id. */
    ghost predicate Synced(db: Db)
      reads this, db
    {
      id in db.users && db.users[id] == Value()
    }

    /** `findById`: a document holding a stored user. */
    constructor Load(u: User)
      ensures Value() == u
    {
      id := u.id;
      username, firstname, lastname, email := u.username, u.firstname, u.lastname, u.email;
      displayImage, admin := u.displayImage, u.admin;
      following, followers, saved := u.following, u.followers, u.saved;
    }

    /** `follow(id)`: append `x` to `following` iff absent, then save. */
    method Follow(x: nat, db: Db)
      requires id in db.users
      modifies this`following, db`users
      ensures Value().IsFollowing(x)
      ensures following == AddToSet(old(following), x)
      ensures db.users == old(db.users)[id := old(db.users)[id].(following := following)]
    {
      if x !in following {
        following := following + [x];
      }
      db.users := db.users[id := db.users[id].(following := following)];
    }

    /** `unfollow(id)`: remove every `x` from `following`, then save. */
    method Unfollow(x: nat, db: Db)
      requires id in db.users
      modifies this`following, db`users
      ensures !Value().IsFollowing(x)
      ensures following == Pull(old(following), x)
      ensures db.users == old(db.users)[id := old(db.users)[id].(following := following)]
    {
      following := Pull(following, x);
      db.users := db.users[id := db.users[id].(following := following)];
    }

    /** `addFollower(id)`: append `x` to `followers` iff absent, then save. */
    method AddFollower(x: nat, db: Db)
      requires id in db.users
      modifies this`followers, db`users
      ensures x in followers
      ensures followers == AddToSet(old(followers), x)
      ensures db.users == old(db.users)[id := old(db.users)[id].(followers := followers)]
    {
      if x !in followers {
        followers := followers + [x];
      }
      db.users := db.users[id := db.users[id].(followers := followers)];
    }

    /** `removeFollower(id)`: remove every `x` from `followers`, then save. */
    method RemoveFollower(x: nat, db: Db)
      requires id in db.users
      modifies this`followers, db`users
      ensures x !in followers
      ensures followers == Pull(old(followers), x)
      ensures db.users == old(db.users)[id := old(db.users)[id].(followers := followers)]
    {
      followers := Pull(followers, x);
      db.users := db.users[id := db.users[id].(followers := followers)];
    }

    /** `saveQuote(id)`: append `q` to `saved` iff absent, then save. */
    method SaveQuote(q: nat, db: Db)
      requires id in db.users
      modifies this`saved, db`users
      ensures Value().IsSaved(q)
      ensures saved == AddToSet(old(saved), q)
      ensures db.users == old(db.users)[id := old(db.users)[id].(saved := saved)]
    {
      if q !in saved {
        saved := saved + [q];
      }
      db.users := db.users[id := db.users[id].(saved := saved)];
    }

    /** `unsaveQuote(id)`: remove every `q` from `saved`, then save. */
    method UnsaveQuote(q: nat, db: Db)
      requires id in db.users
      modifies this`saved, db`users
      ensures !Value().IsSaved(q)
      ensures saved == Pull(old(saved), q)
      ensures db.users == old(db.users)[id := old(db.users)[id].(saved := saved)]
    {
      saved := Pull(saved, q);
      db.users := db.users[id := db.users[id].(saved := saved)];
    }

    /** `save()` after the route assigned fields of a document that is in
        step with its stored value, where writing the changed paths and
        writing the whole document agree. */
    method Save(db: Db)
      modifies db`users
      ensures db.users == old(db.users)[id := Value()]
    {
      db.users := db.users[id := Value()];
    }
  }
}
