/** Liking and unliking quotes and comments, saving and unsaving quotes,
    and the likes and saved listings. */
module Actions {
  import opened Base
  import opened IdList
  import opened Schema
  import opened Store
  import opened UserModel
  import opened QuoteModel
  import opened Response

  /** The quote with its likes replaced by a list without duplicates is
      still well formed. */
  lemma NewLikesOk(q: Quote, n: nat, likes: seq<nat>)
    requires QuoteOk(q, n) && NoDup(likes)
    ensures QuoteOk(q.(likes := likes), n)
  {
    assert q.(likes := likes).comments == q.comments;
  }

  /** The quote with the likes of its `k`-th comment replaced by a list
      without duplicates is still well formed. */
  lemma NewCommentLikesOk(q: Quote, n: nat, k: nat, likes: seq<nat>)
    requires QuoteOk(q, n) && k < |q.comments| && NoDup(likes)
    ensures QuoteOk(q.(comments := q.comments[k := q.comments[k].(likes := likes)]), n)
  {
    var cs := q.comments[k := q.comments[k].(likes := likes)];
    assert forall i | 0 <= i < |cs| :: cs[i].id == q.comments[i].id && cs[i].text == q.comments[i].text;
    assert forall i | 0 <= i < |cs| && i != k :: cs[i] == q.comments[i];
  }

  /** The quotes after `POST /like/quote/:id` by `viewer`: the viewer is
      added to that quote's likes; a missing quote leaves everything as it was. */
  function AfterLike(quotes: map<nat, Quote>, id: nat, viewer: nat): map<nat, Quote>
  {
    if id in quotes then quotes[id := quotes[id].(likes := AddToSet(quotes[id].likes, viewer))] else quotes
  }

  /** The quotes after `DELETE /like/quote/:id` by `viewer`. */
  function AfterUnlike(quotes: map<nat, Quote>, id: nat, viewer: nat): map<nat, Quote>
  {
    if id in quotes then quotes[id := quotes[id].(likes := Pull(quotes[id].likes, viewer))] else quotes
  }

  /** Liking twice is liking once, unliking twice is unliking once, and an
      unlike undoes the like of a user who had not liked the quote. */
  lemma {:induction false} LikeLaws(quotes: map<nat, Quote>, id: nat, u: nat)
    ensures AfterLike(AfterLike(quotes, id, u), id, u) == AfterLike(quotes, id, u)
    ensures AfterUnlike(AfterUnlike(quotes, id, u), id, u) == AfterUnlike(quotes, id, u)
    ensures id in quotes && u !in quotes[id].likes ==> AfterUnlike(AfterLike(quotes, id, u), id, u) == quotes
  {
    if id in quotes {
      var q := quotes[id];
      AddAndPullIdempotent(q.likes, u);
      var once := q.(likes := AddToSet(q.likes, u));
      Rewrite(quotes, id, once, once);
      var gone := q.(likes := Pull(q.likes, u));
      Rewrite(quotes, id, gone, gone);
      if u !in q.likes {
        PullUndoesAdd(q.likes, u);
        Rewrite(quotes, id, once, q);
      }
    }
  }

  /** Two writes of one quote leave the second. */
  lemma Rewrite(quotes: map<nat, Quote>, id: nat, first: Quote, second: Quote)
    requires id in quotes
    ensures quotes[id := first][id := second] == quotes[id := second]
    ensures second == quotes[id] ==> quotes[id := first][id := second] == quotes
  {
  }

  /** `GET /like/quote/:id`: the users who liked the quote, populated and
      projected; 404 for a missing quote. */
  function QuoteLikes(users: map<nat, User>, quotes: map<nat, Quote>, id: nat, viewer: User): (r: Result<seq<UserView>>)
    requires forall k | k in users :: users[k].id == k
    ensures r.Err? <==> id !in quotes
    ensures r.Err? ==> r.error == NotFound
    ensures r.Ok? ==> r.value == WrapPopulatedUsers(users, quotes[id].likes, viewer)
  {
    if id in quotes then Ok(WrapPopulatedUsers(users, quotes[id].likes, viewer)) else Err(NotFound)
  }

  /** `POST /like/quote/:id`: 404 for a missing quote, with nothing written;
      otherwise `quote.like(viewer)` and the liked quote projected, which
      fails after the save when the populated author is gone. */
  method LikeQuote(db: Db, viewer: User, id: nat) returns (r: Result<QuoteView>)
    requires db.Valid()
    modifies db`quotes
    ensures db.Valid()
    ensures db.quotes == AfterLike(old(db.quotes), id, viewer.id)
    ensures id !in old(db.quotes) ==> r == Err(NotFound)
    ensures id in old(db.quotes) ==>
      var q := db.quotes[id];
      && q == old(db.quotes)[id].(likes := AddToSet(old(db.quotes)[id].likes, viewer.id))
      && r == (if q.author in db.users then Ok(WrapQuote(q, viewer)) else Err(Unexpected))
  {
    if id !in db.quotes {
      return Err(NotFound);
    }
    var quote := new QuoteDoc.Load(db.quotes[id]);
    NewLikesOk(db.quotes[id], db.nextId, AddToSet(quote.likes, viewer.id));
    quote.Like(viewer.id, db);
    if quote.author !in db.users {
      return Err(Unexpected);
    }
    return Ok(WrapQuote(quote.Value(), viewer));
  }

  /** `DELETE /like/quote/:id`: 404 for a missing quote, with nothing
      written; otherwise `quote.unlike(viewer)` and the quote projected. */
  method UnlikeQuote(db: Db, viewer: User, id: nat) returns (r: Result<QuoteView>)
    requires db.Valid()
    modifies db`quotes
    ensures db.Valid()
    ensures db.quotes == AfterUnlike(old(db.quotes), id, viewer.id)
    ensures id !in old(db.quotes) ==> r == Err(NotFound)
    ensures id in old(db.quotes) ==>
      var q := db.quotes[id];
      && q == old(db.quotes)[id].(likes := Pull(old(db.quotes)[id].likes, viewer.id))
      && r == (if q.author in db.users then Ok(WrapQuote(q, viewer)) else Err(Unexpected))
  {
    if id !in db.quotes {
      return Err(NotFound);
    }
    var quote := new QuoteDoc.Load(db.quotes[id]);
    NewLikesOk(db.quotes[id], db.nextId, Pull(quote.likes, viewer.id));
    quote.Unlike(viewer.id, db);
    if quote.author !in db.users {
      return Err(Unexpected);
    }
    return Ok(WrapQuote(quote.Value(), viewer));
  }

  /** `GET /like/quote/:quoteId/comment/:commentId`: the users who liked the
      comment, populated but not projected; 404 for a missing quote or
      comment. */
  function CommentLikes(users: map<nat, User>, quotes: map<nat, Quote>, quoteId: nat, commentId: nat): (r: Result<seq<User>>)
    ensures r.Err? <==> quoteId !in quotes || FindComment(quotes[quoteId].comments, commentId).None?
    ensures r.Err? ==> r.error == NotFound
    ensures r.Ok? ==>
      var c := quotes[quoteId].comments[FindComment(quotes[quoteId].comments, commentId).value];
      var ids := Present(users, c.likes);
      |r.value| == |ids| && forall i | 0 <= i < |ids| :: r.value[i] == users[ids[i]]
  {
    if quoteId !in quotes then Err(NotFound)
    else match FindComment(quotes[quoteId].comments, commentId)
      case None => Err(NotFound)
      case Some(k) =>
        var ids := Present(users, quotes[quoteId].comments[k].likes);
        assert forall i | 0 <= i < |ids| :: ids[i] in ids;
        Ok(seq(|ids|, i requires 0 <= i < |ids| => users[ids[i]]))
  }

  /** `POST /like/quote/:quoteId/comment/:commentId`: 404 for a missing
      quote or comment, with nothing written; otherwise `comment.like` adds
      the viewer to that comment's likes alone and saves the parent quote.
      The populated comment author is then read, so a missing author fails
      after the save. */
  method LikeComment(db: Db, viewer: User, quoteId: nat, commentId: nat) returns (r: Result<CommentView>)
    requires db.Valid()
    modifies db`quotes
    ensures db.Valid()
    ensures quoteId !in old(db.quotes) || FindComment(old(db.quotes)[quoteId].comments, commentId).None? ==>
      r == Err(NotFound) && db.quotes == old(db.quotes)
    ensures quoteId in old(db.quotes) && FindComment(old(db.quotes)[quoteId].comments, commentId).Some? ==>
      var q := old(db.quotes)[quoteId];
      var k := FindComment(q.comments, commentId).value;
      var c := q.comments[k].(likes := AddToSet(q.comments[k].likes, viewer.id));
      && db.quotes == old(db.quotes)[quoteId := q.(comments := q.comments[k := c])]
      && r == (if c.author in db.users then Ok(WrapComment(c, viewer)) else Err(Unexpected))
  {
    if quoteId !in db.quotes {
      return Err(NotFound);
    }
    var quote := new QuoteDoc.Load(db.quotes[quoteId]);
    var found := FindComment(quote.comments, commentId);
    if found.None? {
      return Err(NotFound);
    }
    var k := found.value;
    ghost var q0 := db.quotes[quoteId];
    NewCommentLikesOk(q0, db.nextId, k, AddToSet(quote.comments[k].likes, viewer.id));
    quote.LikeComment(k, viewer.id, db);
    assert quote.comments == q0.comments[k := q0.comments[k].(likes := AddToSet(q0.comments[k].likes, viewer.id))];
    if quote.comments[k].author !in db.users {
      return Err(Unexpected);
    }
    return Ok(WrapComment(quote.comments[k], viewer));
  }

  /** The likes of a comment after `comment.like(req.user, quote)` as
      written. The route passes the whole user document, and `indexOf` on
      the id array compares a document with ids by reference, so the test
      never finds the viewer and `push` stores the viewer's id (cast to its
      `_id`) on every like. The members are those of a set insertion, but
      the list always grows. */
  function CommentLikesAsWritten(likes: seq<nat>, viewer: nat): (r: seq<nat>)
    ensures forall y :: y in r <==> y in likes || y == viewer
    ensures |r| == |likes| + 1
  {
    likes + [viewer]
  }

  /** A repeated comment like as written stores the viewer twice: the likes
      are no longer a set, and the list is longer than the set insertion
      `LikeComment` performs. */
  lemma RepeatCommentLikeDuplicates(likes: seq<nat>, viewer: nat)
    requires viewer in likes
    ensures !NoDup(CommentLikesAsWritten(likes, viewer))
    ensures |CommentLikesAsWritten(likes, viewer)| == |AddToSet(likes, viewer)| + 1
  {
    var i :| 0 <= i < |likes| && likes[i] == viewer;
    var r := CommentLikesAsWritten(likes, viewer);
    assert r[i] == viewer == r[|likes|];
  }

  /** `DELETE /like/quote/:quoteId/comment/:commentId`: 404 for a missing
      quote or comment, with nothing written; otherwise `comment.unlike`
      removes the viewer from that comment's likes alone. Nothing is
      populated, so the projection never fails. */
  method UnlikeComment(db: Db, viewer: User, quoteId: nat, commentId: nat) returns (r: Result<CommentView>)
    requires db.Valid()
    modifies db`quotes
    ensures db.Valid()
    ensures quoteId !in old(db.quotes) || FindComment(old(db.quotes)[quoteId].comments, commentId).None? ==>
      r == Err(NotFound) && db.quotes == old(db.quotes)
    ensures quoteId in old(db.quotes) && FindComment(old(db.quotes)[quoteId].comments, commentId).Some? ==>
      var q := old(db.quotes)[quoteId];
      var k := FindComment(q.comments, commentId).value;
      var c := q.comments[k].(likes := Pull(q.comments[k].likes, viewer.id));
      && db.quotes == old(db.quotes)[quoteId := q.(comments := q.comments[k := c])]
      && r == Ok(WrapComment(c, viewer))
  {
    if quoteId !in db.quotes {
      return Err(NotFound);
    }
    var quote := new QuoteDoc.Load(db.quotes[quoteId]);
    var found := FindComment(quote.comments, commentId);
    if found.None? {
      return Err(NotFound);
    }
    var k := found.value;
    ghost var q0 := db.quotes[quoteId];
    NewCommentLikesOk(q0, db.nextId, k, Pull(quote.comments[k].likes, viewer.id));
    quote.UnlikeComment(k, viewer.id, db);
    assert quote.comments == q0.comments[k := q0.comments[k].(likes := Pull(q0.comments[k].likes, viewer.id))];
    return Ok(WrapComment(quote.comments[k], viewer));
  }

  /** Rewriting only the viewer's `saved` list with a list without
      duplicates keeps the state valid. */
  lemma NewSavedKeepsValid(users: map<nat, User>, quotes: map<nat, Quote>, n: nat, id: nat, saved: seq<nat>)
    requires ValidState(users, quotes, n) && id in users && NoDup(saved)
    ensures ValidState(users[id := users[id].(saved := saved)], quotes, n)
  {
    PutUserSameGraph(users, quotes, n, users[id].(saved := saved));
  }

  /** `POST /save/quotes` as written: `viewer.saveQuote(quoteId)` runs before
      the quote is looked up, so an id with no quote is kept in `saved` and
      the request still fails (projecting the null quote). */
  method SaveQuoteAsWritten(db: Db, viewer: UserDoc, quoteId: nat) returns (r: Result<QuoteView>)
    requires db.Valid() && viewer.Synced(db)
    modifies db`users, viewer`saved
    ensures db.Valid()
    ensures db.users == old(db.users)[viewer.id := old(db.users)[viewer.id].(saved := AddToSet(old(viewer.saved), quoteId))]
    ensures quoteId !in db.quotes ==> r == Err(Unexpected) && quoteId in db.users[viewer.id].saved
    ensures quoteId in db.quotes ==>
      r == (if db.quotes[quoteId].author in db.users then Ok(WrapQuote(db.quotes[quoteId], viewer.Value())) else Err(Unexpected))
  {
    NewSavedKeepsValid(db.users, db.quotes, db.nextId, viewer.id, AddToSet(viewer.saved, quoteId));
    viewer.SaveQuote(quoteId, db);
    if quoteId !in db.quotes || db.quotes[quoteId].author !in db.users {
      return Err(Unexpected);
    }
    return Ok(WrapQuote(db.quotes[quoteId], viewer.Value()));
  }

  /** `POST /save/quotes`, with the existence check the route evidently
      intends: 404 and nothing written for a missing quote; otherwise the id
      is added to `saved` and the quote projected for the updated viewer. */
  method SaveQuote(db: Db, viewer: UserDoc, quoteId: nat) returns (r: Result<QuoteView>)
    requires db.Valid() && viewer.Synced(db)
    modifies db`users, viewer`saved
    ensures db.Valid()
    ensures quoteId !in db.quotes ==> r == Err(NotFound) && db.users == old(db.users)
    ensures quoteId in db.quotes ==>
      && db.users == old(db.users)[viewer.id := old(db.users)[viewer.id].(saved := AddToSet(old(viewer.saved), quoteId))]
      && r == (if db.quotes[quoteId].author in db.users then Ok(WrapQuote(db.quotes[quoteId], viewer.Value())) else Err(Unexpected))
      && (r.Ok? ==> r.value.isSaved)
  {
    if quoteId !in db.quotes {
      return Err(NotFound);
    }
    NewSavedKeepsValid(db.users, db.quotes, db.nextId, viewer.id, AddToSet(viewer.saved, quoteId));
    viewer.SaveQuote(quoteId, db);
    if db.quotes[quoteId].author !in db.users {
      return Err(Unexpected);
    }
    return Ok(WrapQuote(db.quotes[quoteId], viewer.Value()));
  }

  /** `DELETE /save/quotes` (admins only): `saved` becomes empty and the
      saved user document is the response. */
  method ClearSaved(db: Db, viewer: UserDoc) returns (r: Result<User>)
    requires db.Valid() && viewer.Synced(db)
    modifies db`users, viewer`saved
    ensures db.Valid()
    ensures !old(viewer.admin) ==> r == Err(Forbidden) && db.users == old(db.users)
    ensures old(viewer.admin) ==>
      && db.users == old(db.users)[viewer.id := old(db.users)[viewer.id].(saved := [])]
      && r == Ok(db.users[viewer.id]) && r.value.saved == []
  {
    if !viewer.admin {
      return Err(Forbidden);
    }
    NewSavedKeepsValid(db.users, db.quotes, db.nextId, viewer.id, []);
    viewer.saved := [];
    viewer.Save(db);
    return Ok(viewer.Value());
  }

  /** `DELETE /save/quotes/:quoteId`: the id leaves `saved`; the quote is
      then looked up without populating, so only a missing quote fails. */
  method UnsaveQuote(db: Db, viewer: UserDoc, quoteId: nat) returns (r: Result<QuoteView>)
    requires db.Valid() && viewer.Synced(db)
    modifies db`users, viewer`saved
    ensures db.Valid()
    ensures db.users == old(db.users)[viewer.id := old(db.users)[viewer.id].(saved := Pull(old(viewer.saved), quoteId))]
    ensures r == (if quoteId in db.quotes then Ok(WrapQuote(db.quotes[quoteId], viewer.Value())) else Err(Unexpected))
    ensures r.Ok? ==> !r.value.isSaved
  {
    NewSavedKeepsValid(db.users, db.quotes, db.nextId, viewer.id, Pull(viewer.saved, quoteId));
    viewer.UnsaveQuote(quoteId, db);
    if quoteId !in db.quotes {
      return Err(Unexpected);
    }
    return Ok(WrapQuote(db.quotes[quoteId], viewer.Value()));
  }

  /** `GET /saved/by/:userId`: the user's saved quotes that still exist, in
      list order, projected for the viewer. A missing user, or a missing
      author of a listed quote, fails on null. */
  function SavedBy(users: map<nat, User>, quotes: map<nat, Quote>, userId: nat, viewer: User): (r: Result<seq<QuoteView>>)
    requires IdsAreKeys(quotes)
    ensures r.Ok? <==> userId in users && forall k | k in Present(quotes, users[userId].saved) :: quotes[k].author in users
    ensures r.Err? ==> r.error == Unexpected
    ensures r.Ok? ==>
      var ids := Present(quotes, users[userId].saved);
      |r.value| == |ids| && forall i | 0 <= i < |ids| :: r.value[i] == WrapQuote(quotes[ids[i]], viewer)
  {
    if userId !in users then Err(Unexpected)
    else
      var ids := Present(quotes, users[userId].saved);
      if forall k | k in ids :: quotes[k].author in users then
        assert forall i | 0 <= i < |ids| :: ids[i] in ids;
        Ok(seq(|ids|, i requires 0 <= i < |ids| => WrapQuote(quotes[ids[i]], viewer)))
      else Err(Unexpected)
  }
}
