/** The stored documents of the User and Quote collections (values as the
    database holds them) and the pure predicates of their models. Ids stand
    for ObjectIds; comparing `toString()` of two ObjectIds, or calling
    `equals`, is comparing the ids. */
module Schema {
  import opened Base
  import opened IdList

  /** Schema default of `displayImage`. */
  const DefaultDisplayImage: string := "/images/profile/default.png"

  /** Schema default of `emotion`. */
  const DefaultEmotion: string := "neutral"

  datatype User = User(
    id: nat,
    username: string,
    firstname: string,
    lastname: string,
    email: string,
    displayImage: string,
    admin: bool,
    following: seq<nat>,
    followers: seq<nat>,
    saved: seq<nat>)
  {
    /** `isFollowing(id)`: some entry of `following` has the id's string. */
    predicate IsFollowing(x: nat)
    {
      x in following
    }

    /** `isSaved(id)`: some entry of `saved` has the id's string. */
    predicate IsSaved(q: nat)
    {
      q in saved
    }

    /** `isMe(userId)`: `this._id.equals(userId)`. */
    predicate IsMe(x: nat)
    {
      id == x
    }
  }

  datatype Comment = Comment(id: nat, text: string, author: nat, likes: seq<nat>)
  {
    /** `isLiked(userId)`: some entry of `likes` has the user id's string. */
    predicate IsLiked(u: nat)
    {
      u in likes
    }

    /** `isOwned(userId)`: `this.author.equals(userId)`. */
    predicate IsOwned(u: nat)
    {
      author == u
    }
  }

  datatype Quote = Quote(
    id: nat,
    text: string,
    tags: seq<string>,
    emotion: string,
    author: nat,
    likes: seq<nat>,
    comments: seq<Comment>)
  {
    /** `isLiked(userId)`: some entry of `likes` has the user id's string. */
    predicate IsLiked(u: nat)
    {
      u in likes
    }

    /** `isOwned(userId)`: `this.author._id.toString() === userId.toString()`. */
    predicate IsOwned(u: nat)
    {
      author == u
    }
  }

  /** A user document as registration creates it: the four supplied fields and
      the schema defaults for the rest. It is well formed exactly when the
      supplied strings are non-empty, follows and saves nothing, is followed
      by nobody, is not an admin and has the default image. */
  function NewUser(id: nat, username: string, firstname: string, lastname: string, email: string): (u: User)
    ensures forall bound :: UserOk(u, bound) <==> username != "" && firstname != "" && lastname != "" && email != ""
    ensures forall x :: !u.IsFollowing(x) && !u.IsSaved(x) && x !in u.followers
    ensures u.IsMe(id) && !u.admin && u.displayImage == DefaultDisplayImage
  {
    User(id, username, firstname, lastname, email, DefaultDisplayImage, false, [], [], [])
  }

  /** A quote document as `new Quote(body)` creates it: an absent `tags` is an
      empty array, an absent `emotion` takes the schema default, and a new
      quote has no likes and no comments. It is well formed exactly when its
      text is non-empty, and it is owned by its author alone. */
  function NewQuote(id: nat, text: string, tags: Option<seq<string>>, emotion: Option<string>, author: nat): (q: Quote)
    ensures forall bound :: QuoteOk(q, bound) <==> text != ""
    ensures forall u :: !q.IsLiked(u) && (q.IsOwned(u) <==> u == author)
    ensures q.comments == []
    ensures q.tags == (if tags.Some? then tags.value else [])
    ensures q.emotion == (if emotion.Some? then emotion.value else DefaultEmotion)
  {
    Quote(id, text, if tags.Some? then tags.value else [],
          if emotion.Some? then emotion.value else DefaultEmotion, author, [], [])
  }

  /** `isFollowing` after `follow(x)` and after `unfollow(x)`: the answer for
      `x` becomes true, then false, and no other id's answer changes. */
  lemma FollowingQueries(u: User, x: nat, y: nat)
    ensures u.(following := AddToSet(u.following, x)).IsFollowing(y) <==> u.IsFollowing(y) || y == x
    ensures u.(following := Pull(u.following, x)).IsFollowing(y) <==> u.IsFollowing(y) && y != x
  {
  }

  /** `isSaved` after `saveQuote(x)` and after `unsaveQuote(x)`. */
  lemma SavedQueries(u: User, x: nat, y: nat)
    ensures u.(saved := AddToSet(u.saved, x)).IsSaved(y) <==> u.IsSaved(y) || y == x
    ensures u.(saved := Pull(u.saved, x)).IsSaved(y) <==> u.IsSaved(y) && y != x
  {
  }

  /** `isLiked` of a quote and of a comment after `like(x)` and after
      `unlike(x)`. */
  lemma LikedQueries(q: Quote, c: Comment, x: nat, y: nat)
    ensures q.(likes := AddToSet(q.likes, x)).IsLiked(y) <==> q.IsLiked(y) || y == x
    ensures q.(likes := Pull(q.likes, x)).IsLiked(y) <==> q.IsLiked(y) && y != x
    ensures c.(likes := AddToSet(c.likes, x)).IsLiked(y) <==> c.IsLiked(y) || y == x
    ensures c.(likes := Pull(c.likes, x)).IsLiked(y) <==> c.IsLiked(y) && y != x
  {
  }

  /** Ownership and identity are properties of the author and of the id
      alone: likes, text and lists do not change them. The comment test
      (`author.equals(userId)`) and the quote test (`author._id.toString()
      === userId.toString()`) are written differently and both mean this. */
  lemma OwnershipIsAuthorship(u: User, q: Quote, c: Comment, x: nat, ql: seq<nat>, cl: seq<nat>, t: string)
    ensures q.(likes := ql, text := t).IsOwned(x) == q.IsOwned(x) && (q.IsOwned(x) <==> x == q.author)
    ensures c.(likes := cl, text := t).IsOwned(x) == c.IsOwned(x) && (c.IsOwned(x) <==> x == c.author)
    ensures u.(following := ql, followers := cl, saved := ql).IsMe(x) == u.IsMe(x) && (u.IsMe(x) <==> x == u.id)
  {
  }

  /** What the schema's `required` validators demand of a user: non-empty
      `email`, `firstname` and `lastname`; the accounts plugin adds the
      `username`, which registration also demands. Together with the
      set-like lists, the shape every stored user keeps. */
  ghost predicate UserOk(u: User, bound: nat)
  {
    && u.username != "" && u.firstname != "" && u.lastname != "" && u.email != ""
    && NoDup(u.following) && NoDup(u.followers) && NoDup(u.saved)
    && (forall x | x in u.following :: x < bound)
    && (forall x | x in u.followers :: x < bound)
  }

  /** `text` and `author` are required on a comment; its likes are a set. */
  ghost predicate CommentOk(c: Comment, bound: nat)
  {
    c.text != "" && c.id < bound && NoDup(c.likes)
  }

  /** `text` and `author` are required on a quote; its likes are a set and
      its embedded comments have distinct ids. */
  ghost predicate QuoteOk(q: Quote, bound: nat)
  {
    && q.text != ""
    && NoDup(q.likes)
    && (forall i | 0 <= i < |q.comments| :: CommentOk(q.comments[i], bound))
    && (forall i, j | 0 <= i < j < |q.comments| :: q.comments[i].id != q.comments[j].id)
  }
}
