/** The comments embedded in a quote: listing, adding, updating, deleting
    one, and the admin clear. */
module Comments {
  import opened Base
  import opened Schema
  import opened Store
  import opened QuoteModel
  import opened Response

  /** `comments.filter(c => c._id.toString() !== commentId)`. */
  function WithoutComment(cs: seq<Comment>, cid: nat): (r: seq<Comment>)
    ensures forall c | c in r :: c in cs && c.id != cid
    ensures forall c | c in cs && c.id != cid :: c in r
    ensures |r| <= |cs|
  {
    if cs == [] then []
    else if cs[0].id == cid then WithoutComment(cs[1..], cid)
    else [cs[0]] + WithoutComment(cs[1..], cid)
  }

  /** With distinct comment ids, the filter removes exactly the comment at
      the id's position and keeps the others in their order. */
  lemma {:induction false} WithoutCommentDropsOne(cs: seq<Comment>, cid: nat)
    requires forall i, j | 0 <= i < j < |cs| :: cs[i].id != cs[j].id
    requires FindComment(cs, cid).Some?
    ensures var k := FindComment(cs, cid).value;
      WithoutComment(cs, cid) == cs[..k] + cs[k + 1..]
  {
    var k := FindComment(cs, cid).value;
    if k == 0 {
      NoneWithId(cs[1..], cid);
    } else {
      assert FindComment(cs[1..], cid).value == k - 1;
      WithoutCommentDropsOne(cs[1..], cid);
      assert cs[1..][..k - 1] == cs[1..k];
      assert cs[1..][k..] == cs[k + 1..];
      assert [cs[0]] + cs[1..k] == cs[..k];
    }
  }

  /** The filter keeps a list in which no comment has the id. */
  lemma {:induction false} NoneWithId(cs: seq<Comment>, cid: nat)
    requires forall i | 0 <= i < |cs| :: cs[i].id != cid
    ensures WithoutComment(cs, cid) == cs
  {
    if cs != [] {
      NoneWithId(cs[1..], cid);
    }
  }

  /** Dropping one comment keeps a quote well formed. */
  lemma DropCommentOk(q: Quote, n: nat, k: nat)
    requires QuoteOk(q, n) && k < |q.comments|
    ensures QuoteOk(q.(comments := q.comments[..k] + q.comments[k + 1..]), n)
  {
    var cs := q.comments[..k] + q.comments[k + 1..];
    assert forall i | 0 <= i < |cs| :: cs[i] == q.comments[if i < k then i else i + 1];
  }

  /** `GET /comments/:quoteId`: every comment, with its populated author,
      projected; 404 for a missing quote, and a missing author fails on
      null. */
  function ListComments(users: map<nat, User>, quotes: map<nat, Quote>, quoteId: nat, viewer: User): (r: Result<seq<CommentView>>)
    ensures quoteId !in quotes ==> r == Err(NotFound)
    ensures quoteId in quotes ==>
      var cs := quotes[quoteId].comments;
      && (r.Ok? <==> forall i | 0 <= i < |cs| :: cs[i].author in users)
      && (r.Ok? ==> r.value == WrapComments(cs, viewer))
      && (r.Err? ==> r.error == Unexpected)
  {
    if quoteId !in quotes then Err(NotFound)
    else
      var cs := quotes[quoteId].comments;
      if forall i | 0 <= i < |cs| :: cs[i].author in users then Ok(WrapComments(cs, viewer)) else Err(Unexpected)
  }

  /** `GET /comments/:quoteId/:commentId`: the first comment with the id,
      projected; 404 for a missing quote or comment. */
  function GetComment(users: map<nat, User>, quotes: map<nat, Quote>, quoteId: nat, commentId: nat, viewer: User): (r: Result<CommentView>)
    ensures quoteId !in quotes || FindComment(quotes[quoteId].comments, commentId).None? ==> r == Err(NotFound)
    ensures quoteId in quotes && FindComment(quotes[quoteId].comments, commentId).Some? ==>
      var c := quotes[quoteId].comments[FindComment(quotes[quoteId].comments, commentId).value];
      && c.id == commentId
      && r == (if c.author in users then Ok(WrapComment(c, viewer)) else Err(Unexpected))
  {
    if quoteId !in quotes then Err(NotFound)
    else match FindComment(quotes[quoteId].comments, commentId)
      case None => Err(NotFound)
      case Some(k) =>
        var c := quotes[quoteId].comments[k];
        if c.author in users then Ok(WrapComment(c, viewer)) else Err(Unexpected)
  }

  /** `POST /comments/:quoteId`: 404 for a missing quote and 400 for a text
      that is absent or empty, with nothing written; otherwise one comment,
      with a fresh id, the text, the viewer as author whatever the body
      says, and no likes, is appended at the end and the quote saved. The
      response is every comment projected, which fails on a missing author. */
  method AddComment(db: Db, viewer: User, quoteId: nat, text: Option<string>) returns (r: Result<seq<CommentView>>)
    requires db.Valid()
    modifies db`quotes, db`nextId
    ensures db.Valid() && db.users == old(db.users)
    ensures quoteId !in old(db.quotes) ==> r == Err(NotFound) && db.quotes == old(db.quotes)
    ensures quoteId in old(db.quotes) && !Truthy(text) ==> r == Err(BadInput) && db.quotes == old(db.quotes)
    ensures quoteId in old(db.quotes) && Truthy(text) ==>
      var q := old(db.quotes)[quoteId];
      var cs := q.comments + [Comment(old(db.nextId), text.value, viewer.id, [])];
      && db.quotes == old(db.quotes)[quoteId := q.(comments := cs)]
      && r == (if forall i | 0 <= i < |cs| :: cs[i].author in db.users then Ok(WrapComments(cs, viewer)) else Err(Unexpected))
  {
    if quoteId !in db.quotes {
      return Err(NotFound);
    }
    if !Truthy(text) {
      return Err(BadInput);
    }
    var quote := new QuoteDoc.Load(db.quotes[quoteId]);
    var id := db.NewObjectId();
    ghost var q0 := db.quotes[quoteId];
    quote.comments := quote.comments + [Comment(id, text.value, viewer.id, [])];
    assert QuoteOk(quote.Value(), db.nextId) by {
      var cs := quote.comments;
      assert forall i | 0 <= i < |q0.comments| :: cs[i] == q0.comments[i] && CommentOk(cs[i], db.nextId - 1);
    }
    quote.Save(db);
    PutQuote(db.users, old(db.quotes), db.nextId, quote.Value());
    var cs := quote.comments;
    if forall i | 0 <= i < |cs| :: cs[i].author in db.users {
      return Ok(WrapComments(cs, viewer));
    }
    return Err(Unexpected);
  }

  /** `DELETE /comments/:quoteId` (admins only): 403 for a non-admin and 404
      for a missing quote, with nothing written; otherwise the quote loses
      every comment and the saved quote is the response. */
  method ClearComments(db: Db, viewer: User, quoteId: nat) returns (r: Result<Quote>)
    requires db.Valid()
    modifies db`quotes
    ensures db.Valid()
    ensures !viewer.admin ==> r == Err(Forbidden) && db.quotes == old(db.quotes)
    ensures viewer.admin && quoteId !in old(db.quotes) ==> r == Err(NotFound) && db.quotes == old(db.quotes)
    ensures viewer.admin && quoteId in old(db.quotes) ==>
      && db.quotes == old(db.quotes)[quoteId := old(db.quotes)[quoteId].(comments := [])]
      && r == Ok(db.quotes[quoteId]) && r.value.comments == []
  {
    if !viewer.admin {
      return Err(Forbidden);
    }
    if quoteId !in db.quotes {
      return Err(NotFound);
    }
    var quote := new QuoteDoc.Load(db.quotes[quoteId]);
    quote.comments := [];
    quote.Save(db);
    PutQuote(db.users, old(db.quotes), db.nextId, quote.Value());
    return Ok(quote.Value());
  }

  /** `PUT /comments/:quoteId/:commentId` as written: the ownership test
      compares the viewer's ObjectId with `===` to the populated author
      document, two different objects, so it never holds. Every request
      that finds its comment is refused, the author's own included, and
      nothing is ever written. */
  method UpdateCommentAsWritten(db: Db, viewer: User, quoteId: nat, commentId: nat, text: Option<string>) returns (r: Result<CommentView>)
    ensures quoteId !in db.quotes || FindComment(db.quotes[quoteId].comments, commentId).None? ==> r == Err(NotFound)
    ensures quoteId in db.quotes && FindComment(db.quotes[quoteId].comments, commentId).Some? ==> r == Err(Forbidden)
  {
    if quoteId !in db.quotes {
      return Err(NotFound);
    }
    var found := FindComment(db.quotes[quoteId].comments, commentId);
    if found.None? {
      return Err(NotFound);
    }
    return Err(Forbidden);
  }

  /** The ownership rule the update route means: the viewer wrote the comment. */
  predicate Allowed(c: Comment, viewer: User)
  {
    c.IsOwned(viewer.id)
  }

  /** `PUT /comments/:quoteId/:commentId` with the ownership test done on ids,
      as the delete route does it: 404 for a missing quote or comment; a
      missing author fails reading its id; 403 for anyone but the author,
      with nothing written; for the author the text becomes the supplied one
      when it is present and not empty, and stays otherwise. */
  method UpdateComment(db: Db, viewer: User, quoteId: nat, commentId: nat, text: Option<string>) returns (r: Result<CommentView>)
    requires db.Valid()
    modifies db`quotes
    ensures db.Valid()
    ensures quoteId !in old(db.quotes) || FindComment(old(db.quotes)[quoteId].comments, commentId).None? ==>
      r == Err(NotFound) && db.quotes == old(db.quotes)
    ensures quoteId in old(db.quotes) && FindComment(old(db.quotes)[quoteId].comments, commentId).Some? ==>
      var q := old(db.quotes)[quoteId];
      var k := FindComment(q.comments, commentId).value;
      var c := q.comments[k];
      && (c.author !in db.users ==> r == Err(Unexpected) && db.quotes == old(db.quotes))
      && (c.author in db.users && !Allowed(c, viewer) ==> r == Err(Forbidden) && db.quotes == old(db.quotes))
      && (c.author in db.users && Allowed(c, viewer) ==>
            var c' := c.(text := OrKeep(text, c.text));
            db.quotes == old(db.quotes)[quoteId := q.(comments := q.comments[k := c'])] && r == Ok(WrapComment(c', viewer)))
  {
    if quoteId !in db.quotes {
      return Err(NotFound);
    }
    var quote := new QuoteDoc.Load(db.quotes[quoteId]);
    var found := FindComment(quote.comments, commentId);
    if found.None? {
      return Err(NotFound);
    }
    var k := found.value;
    var c := quote.comments[k];
    if c.author !in db.users {
      return Err(Unexpected);
    }
    if !Allowed(c, viewer) {
      return Err(Forbidden);
    }
    ghost var q0 := db.quotes[quoteId];
    quote.comments := quote.comments[k := c.(text := OrKeep(text, c.text))];
    assert QuoteOk(quote.Value(), db.nextId) by {
      var cs := quote.comments;
      assert forall i | 0 <= i < |cs| :: cs[i].id == q0.comments[i].id && CommentOk(cs[i], db.nextId);
    }
    quote.Save(db);
    PutQuote(db.users, old(db.quotes), db.nextId, quote.Value());
    return Ok(WrapComment(quote.comments[k], viewer));
  }

  /** `DELETE /comments/:quoteId/:commentId`: 404 for a missing quote or
      comment; a missing author fails reading its id; 403 for anyone but
      the author; nothing is written on any of these. For the author, every
      comment with the id is filtered out and the quote saved. */
  method DeleteComment(db: Db, viewer: User, quoteId: nat, commentId: nat) returns (r: Result<()>)
    requires db.Valid()
    modifies db`quotes
    ensures db.Valid()
    ensures quoteId !in old(db.quotes) || FindComment(old(db.quotes)[quoteId].comments, commentId).None? ==>
      r == Err(NotFound) && db.quotes == old(db.quotes)
    ensures quoteId in old(db.quotes) && FindComment(old(db.quotes)[quoteId].comments, commentId).Some? ==>
      var q := old(db.quotes)[quoteId];
      var c := q.comments[FindComment(q.comments, commentId).value];
      && (c.author !in db.users ==> r == Err(Unexpected) && db.quotes == old(db.quotes))
      && (c.author in db.users && c.author != viewer.id ==> r == Err(Forbidden) && db.quotes == old(db.quotes))
      && (c.author in db.users && c.author == viewer.id ==>
            r == Ok(()) && db.quotes == old(db.quotes)[quoteId := q.(comments := WithoutComment(q.comments, commentId))])
  {
    if quoteId !in db.quotes {
      return Err(NotFound);
    }
    var quote := new QuoteDoc.Load(db.quotes[quoteId]);
    var found := FindComment(quote.comments, commentId);
    if found.None? {
      return Err(NotFound);
    }
    var c := quote.comments[found.value];
    if c.author !in db.users {
      return Err(Unexpected);
    }
    if c.author != viewer.id {
      return Err(Forbidden);
    }
    ghost var q0 := db.quotes[quoteId];
    WithoutCommentDropsOne(quote.comments, commentId);
    DropCommentOk(q0, db.nextId, found.value);
    quote.comments := WithoutComment(quote.comments, commentId);
    quote.Save(db);
    PutQuote(db.users, old(db.quotes), db.nextId, quote.Value());
    return Ok(());
  }

  /** A successful delete leaves the quote with one comment fewer: exactly
      the one with the id is gone and the others keep their order. */
  lemma DeleteRemovesExactlyOne(q: Quote, n: nat, commentId: nat)
    requires QuoteOk(q, n) && FindComment(q.comments, commentId).Some?
    ensures var k := FindComment(q.comments, commentId).value;
      && WithoutComment(q.comments, commentId) == q.comments[..k] + q.comments[k + 1..]
      && |WithoutComment(q.comments, commentId)| == |q.comments| - 1
      && FindComment(WithoutComment(q.comments, commentId), commentId).None?
  {
    WithoutCommentDropsOne(q.comments, commentId);
  }
}
