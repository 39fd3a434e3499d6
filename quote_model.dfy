/** A loaded quote document and the methods of the Quote and Comment models
    that change it. A comment is embedded in its quote: its `like` and
    `unlike` change that comment inside the parent's `comments` array and
    save the parent. */
module QuoteModel {
  import opened Base
  import opened IdList
  import opened Schema
  import opened Store

  /** `comments.find(c => c._id.toString() === commentId)`: the position of
      the first comment with the id, if any. */
  function FindComment(cs: seq<Comment>, cid: nat): (r: Option<nat>)
    ensures r.Some? ==> r.value < |cs| && cs[r.value].id == cid
    ensures r.Some? ==> forall j | 0 <= j < r.value :: cs[j].id != cid
    ensures r.None? <==> forall j | 0 <= j < |cs| :: cs[j].id != cid
  {
    if cs == [] then None
    else if cs[0].id == cid then Some(0)
    else match FindComment(cs[1..], cid)
      case None => None
      case Some(k) => Some(k + 1)
  }

  class QuoteDoc {
    const id: nat
    var text: string
    var tags: seq<string>
    var emotion: string
    const author: nat
    var likes: seq<nat>
    var comments: seq<Comment>

    /** The document's fields as a stored value. */
    function Value(): (q: Quote)
      reads this
      ensures q.id == id && q.author == author && q.likes == likes && q.comments == comments
      ensures q.text == text && q.tags == tags && q.emotion == emotion
    {
      Quote(id, text, tags, emotion, author, likes, comments)
    }

    /** `findById`: a document holding a stored quote. */
    constructor Load(q: Quote)
      ensures Value() == q
    {
      id, text, tags, emotion, author := q.id, q.text, q.tags, q.emotion, q.author;
      likes, comments := q.likes, q.comments;
    }

    /** `save()`: the stored quote becomes the document. */
    method Save(db: Db)
      modifies db`quotes
      ensures db.quotes == old(db.quotes)[id := Value()]
    {
      db.quotes := db.quotes[id := Value()];
    }

    /** `like(userId)`: append `u` to `likes` iff absent, then save. */
    method Like(u: nat, db: Db)
      modifies this`likes, db`quotes
      ensures Value().IsLiked(u)
      ensures likes == AddToSet(old(likes), u)
      ensures db.quotes == old(db.quotes)[id := Value()]
    {
      if u !in likes {
        likes := likes + [u];
      }
      Save(db);
    }

    /** `unlike(userId)`: remove every `u` from `likes`, then save. */
    method Unlike(u: nat, db: Db)
      modifies this`likes, db`quotes
      ensures !Value().IsLiked(u)
      ensures likes == Pull(old(likes), u)
      ensures db.quotes == old(db.quotes)[id := Value()]
    {
      likes := Pull(likes, u);
      Save(db);
    }

    /** `comments[k].like(userId, parent)`: append `u` to that comment's
        `likes` iff absent, then save the parent quote. The quote's own
        `likes` and every other comment stay as they were. */
    method LikeComment(k: nat, u: nat, db: Db)
      requires k < |comments|
      modifies this`comments, db`quotes
      ensures |comments| == |old(comments)| && comments[k].IsLiked(u)
      ensures comments[k] == old(comments[k]).(likes := AddToSet(old(comments[k].likes), u))
      ensures forall j | 0 <= j < |comments| && j != k :: comments[j] == old(comments[j])
      ensures db.quotes == old(db.quotes)[id := Value()]
    {
      var c := comments[k];
      if u !in c.likes {
        c := c.(likes := c.likes + [u]);
      }
      comments := comments[k := c];
      Save(db);
    }

    /** `comments[k].unlike(userId, parent)`: remove every `u` from that
        comment's `likes`, then save the parent quote. */
    method UnlikeComment(k: nat, u: nat, db: Db)
      requires k < |comments|
      modifies this`comments, db`quotes
      ensures |comments| == |old(comments)| && !comments[k].IsLiked(u)
      ensures comments[k] == old(comments[k]).(likes := Pull(old(comments[k].likes), u))
      ensures forall j | 0 <= j < |comments| && j != k :: comments[j] == old(comments[j])
      ensures db.quotes == old(db.quotes)[id := Value()]
    {
      comments := comments[k := comments[k].(likes := Pull(comments[k].likes, u))];
      Save(db);
    }
  }
}
