/** Creating, reading, updating and deleting quotes, the by-author listing
    and the admin delete-all. */
module QuoteRoutes {
  import opened Base
  import opened Schema
  import opened Store
  import opened QuoteModel
  import opened Response

  /** `POST /quotes`: 400 for a text that is absent or empty, with nothing
      written; otherwise a new quote by the viewer, whatever author the
      body names, with the schema defaults, saved under a fresh id and
      projected after populating its author. */
  method CreateQuote(db: Db, viewer: User, text: Option<string>, tags: Option<seq<string>>, emotion: Option<string>)
    returns (r: Result<QuoteView>)
    requires db.Valid()
    modifies db`quotes, db`nextId
    ensures db.Valid() && db.users == old(db.users)
    ensures !Truthy(text) ==> r == Err(BadInput) && db.quotes == old(db.quotes) && db.nextId == old(db.nextId)
    ensures Truthy(text) ==>
      var q := NewQuote(old(db.nextId), text.value, tags, emotion, viewer.id);
      && old(db.nextId) !in old(db.quotes)
      && db.quotes == old(db.quotes)[q.id := q]
      && q.author == viewer.id && q.likes == [] && q.comments == []
      && q.emotion == (if emotion.Some? then emotion.value else DefaultEmotion)
      && r == (if viewer.id in db.users then Ok(WrapQuote(q, viewer)) else Err(Unexpected))
  {
    if !Truthy(text) {
      return Err(BadInput);
    }
    var id := db.NewObjectId();
    var quote := new QuoteDoc.Load(NewQuote(id, text.value, tags, emotion, viewer.id));
    quote.Save(db);
    PutQuote(db.users, old(db.quotes), db.nextId, quote.Value());
    if viewer.id !in db.users {
      return Err(Unexpected);
    }
    return Ok(WrapQuote(quote.Value(), viewer));
  }

  /** `GET /quotes/:id`: the quote with its populated author, projected;
      404 for a missing quote. */
  function GetQuote(users: map<nat, User>, quotes: map<nat, Quote>, id: nat, viewer: User): (r: Result<QuoteView>)
    requires IdsAreKeys(quotes)
    ensures id !in quotes ==> r == Err(NotFound)
    ensures id in quotes ==> r == (if quotes[id].author in users then Ok(WrapQuote(quotes[id], viewer)) else Err(Unexpected))
    ensures r.Ok? ==> r.value.id == id && r.value.text == quotes[id].text && r.value.author == quotes[id].author
  {
    if id !in quotes then Err(NotFound)
    else if quotes[id].author !in users then Err(Unexpected)
    else Ok(WrapQuote(quotes[id], viewer))
  }

  /** The partial update: each of `text`, `tags` and `emotion` takes the
      supplied value when it is truthy (an array always is) and keeps the
      stored one otherwise. */
  function Updated(q: Quote, text: Option<string>, tags: Option<seq<string>>, emotion: Option<string>): (u: Quote)
    ensures u.id == q.id && u.author == q.author && u.likes == q.likes && u.comments == q.comments
    ensures u.text == (if Truthy(text) then text.value else q.text)
    ensures u.tags == (if tags.Some? then tags.value else q.tags)
    ensures u.emotion == (if Truthy(emotion) then emotion.value else q.emotion)
  {
    q.(text := OrKeep(text, q.text), tags := if tags.Some? then tags.value else q.tags,
       emotion := OrKeep(emotion, q.emotion))
  }

  /** An update with nothing supplied changes nothing, and updating twice
      with the same body is updating once. */
  lemma UpdateLaws(q: Quote, text: Option<string>, tags: Option<seq<string>>, emotion: Option<string>)
    ensures Updated(q, None, None, None) == q
    ensures Updated(Updated(q, text, tags, emotion), text, tags, emotion) == Updated(q, text, tags, emotion)
  {
  }

  /** `PUT /quotes/:id`: the quote is loaded with its author populated and
      the author compared with the viewer before any existence check, so a
      missing quote or a missing author is an unexpected error; 403 for
      anyone but the author; nothing is written on any of these. For the
      author, the partial update is saved and projected. */
  method UpdateQuote(db: Db, viewer: User, id: nat, text: Option<string>, tags: Option<seq<string>>, emotion: Option<string>)
    returns (r: Result<QuoteView>)
    requires db.Valid()
    modifies db`quotes
    ensures db.Valid()
    ensures id !in old(db.quotes) || old(db.quotes)[id].author !in db.users ==>
      r == Err(Unexpected) && db.quotes == old(db.quotes)
    ensures id in old(db.quotes) && old(db.quotes)[id].author in db.users && old(db.quotes)[id].author != viewer.id ==>
      r == Err(Forbidden) && db.quotes == old(db.quotes)
    ensures id in old(db.quotes) && old(db.quotes)[id].author == viewer.id && viewer.id in db.users ==>
      var u := Updated(old(db.quotes)[id], text, tags, emotion);
      db.quotes == old(db.quotes)[id := u] && r == Ok(WrapQuote(u, viewer))
  {
    if id !in db.quotes || db.quotes[id].author !in db.users {
      return Err(Unexpected);
    }
    var quote := new QuoteDoc.Load(db.quotes[id]);
    if quote.author != viewer.id {
      return Err(Forbidden);
    }
    quote.text := OrKeep(text, quote.text);
    quote.tags := if tags.Some? then tags.value else quote.tags;
    quote.emotion := OrKeep(emotion, quote.emotion);
    quote.Save(db);
    PutQuote(db.users, old(db.quotes), db.nextId, quote.Value());
    return Ok(WrapQuote(quote.Value(), viewer));
  }

  /** `DELETE /quotes/:id`: the quote is loaded without populating and its
      author compared with the viewer before any existence check, so a
      missing quote is an unexpected error; 403 for anyone but the author,
      and the quote stays. The author's quote is removed and returned. */
  method DeleteQuote(db: Db, viewer: User, id: nat) returns (r: Result<Quote>)
    requires db.Valid()
    modifies db`quotes
    ensures db.Valid()
    ensures id !in old(db.quotes) ==> r == Err(Unexpected) && db.quotes == old(db.quotes)
    ensures id in old(db.quotes) && old(db.quotes)[id].author != viewer.id ==>
      r == Err(Forbidden) && db.quotes == old(db.quotes)
    ensures id in old(db.quotes) && old(db.quotes)[id].author == viewer.id ==>
      r == Ok(old(db.quotes)[id]) && db.quotes == old(db.quotes) - {id}
  {
    if id !in db.quotes {
      return Err(Unexpected);
    }
    var quote := db.quotes[id];
    if quote.author != viewer.id {
      return Err(Forbidden);
    }
    db.quotes := db.quotes - {id};
    return Ok(quote);
  }

  /** The ids of `Quote.find({author: userId})`, in stored (id) order. */
  function ByAuthorIds(quotes: map<nat, Quote>, nextId: nat, userId: nat): (ids: seq<nat>)
    ensures forall i, j | 0 <= i < j < |ids| :: ids[i] < ids[j]
    ensures forall k :: k in ids <==> k in quotes && k < nextId && quotes[k].author == userId
  {
    Ascending(quotes, (q: Quote) => q.author == userId, 0, nextId)
  }

  /** `GET /quotes/by/:userId`: exactly the quotes whose author is the user,
      populated and projected; when the user is gone and has quotes, the
      projection fails on the null author. */
  function QuotesByAuthor(users: map<nat, User>, quotes: map<nat, Quote>, nextId: nat, userId: nat, viewer: User): (r: Result<seq<QuoteView>>)
    requires IdsAreKeys(quotes) && forall k | k in quotes :: k < nextId
    ensures r.Err? <==> userId !in users && ByAuthorIds(quotes, nextId, userId) != []
    ensures r.Err? ==> r.error == Unexpected
    ensures r.Ok? ==> var ids := ByAuthorIds(quotes, nextId, userId);
      |r.value| == |ids| && forall i | 0 <= i < |ids| :: ids[i] in quotes && r.value[i] == WrapQuote(quotes[ids[i]], viewer)
    ensures r.Ok? ==> forall i | 0 <= i < |r.value| :: r.value[i].author == userId
  {
    var ids := ByAuthorIds(quotes, nextId, userId);
    if userId !in users && ids != [] then Err(Unexpected)
    else
      assert forall i | 0 <= i < |ids| :: ids[i] in ids;
      Ok(seq(|ids|, i requires 0 <= i < |ids| => WrapQuote(quotes[ids[i]], viewer)))
  }

  /** The by-author listing leaves out no quote of the user. */
  lemma QuotesByAuthorComplete(users: map<nat, User>, quotes: map<nat, Quote>, nextId: nat, userId: nat, viewer: User)
    requires IdsAreKeys(quotes) && forall k | k in quotes :: k < nextId
    requires QuotesByAuthor(users, quotes, nextId, userId, viewer).Ok?
    ensures var vs := QuotesByAuthor(users, quotes, nextId, userId, viewer).value;
      forall k | k in quotes && quotes[k].author == userId :: exists i | 0 <= i < |vs| :: vs[i].id == k
  {
    var vs := QuotesByAuthor(users, quotes, nextId, userId, viewer).value;
    var ids := ByAuthorIds(quotes, nextId, userId);
    forall k | k in quotes && quotes[k].author == userId ensures exists i | 0 <= i < |vs| :: vs[i].id == k {
      assert k in ids;
      var i :| 0 <= i < |ids| && ids[i] == k;
      assert vs[i].id == k;
    }
  }

  /** `DELETE /quotes` (admins only): every quote is removed; the response
      counts them. */
  method DeleteAllQuotes(db: Db, viewer: User) returns (r: Result<nat>)
    requires db.Valid()
    modifies db`quotes
    ensures db.Valid()
    ensures !viewer.admin ==> r == Err(Forbidden) && db.quotes == old(db.quotes)
    ensures viewer.admin ==> r == Ok(|old(db.quotes)|) && db.quotes == map[]
  {
    if !viewer.admin {
      return Err(Forbidden);
    }
    var n := |db.quotes|;
    db.quotes := map[];
    return Ok(n);
  }
}
