/** The infinite-scrolling listings: the quote feed, newest first, in pages
    of `limit` with an id cursor, and the user listing in id order after a
    cursor. Nothing is written. */
module Infinite {
  import opened Base
  import opened Schema
  import opened Store
  import opened Response

  /** `author: {$in: viewer.following.concat(viewer._id)}`. */
  predicate InFeed(q: Quote, viewer: User)
  {
    q.author in viewer.following || q.author == viewer.id
  }

  predicate NewestFirst(page: seq<Quote>)
  {
    forall i, j | 0 <= i < j < |page| :: page[i].id > page[j].id
  }

  /** `find({_id: {$lt: below}, author: {$in: ...}}).sort({_id: -1}).limit(limit)`:
      the feed quotes with ids below `below`, newest first, at most `limit`. */
  function NewestBelow(qs: map<nat, Quote>, viewer: User, below: nat, limit: nat): (page: seq<Quote>)
    requires IdsAreKeys(qs)
    ensures |page| <= limit
    ensures NewestFirst(page)
    ensures forall q | q in page :: q.id < below && q.id in qs && qs[q.id] == q && InFeed(q, viewer)
    decreases below
  {
    if below == 0 || limit == 0 then []
    else if below - 1 in qs && InFeed(qs[below - 1], viewer) then
      [qs[below - 1]] + NewestBelow(qs, viewer, below - 1, limit - 1)
    else
      NewestBelow(qs, viewer, below - 1, limit)
  }

  /** Top-k: a feed quote below the cursor that the page leaves out means the
      page is full and the quote is older than everything on it. */
  lemma {:induction false} LeftOutIsOlder(qs: map<nat, Quote>, viewer: User, below: nat, limit: nat, k: nat)
    requires IdsAreKeys(qs) && limit > 0
    requires k in qs && k < below && InFeed(qs[k], viewer)
    requires qs[k] !in NewestBelow(qs, viewer, below, limit)
    ensures |NewestBelow(qs, viewer, below, limit)| == limit
    ensures k < NewestBelow(qs, viewer, below, limit)[limit - 1].id
    decreases below
  {
    var j := below - 1;
    var page := NewestBelow(qs, viewer, below, limit);
    if j in qs && InFeed(qs[j], viewer) {
      var rest := NewestBelow(qs, viewer, j, limit - 1);
      assert page == [qs[j]] + rest;
      assert k != j;
      if limit > 1 {
        assert qs[k] !in rest;
        LeftOutIsOlder(qs, viewer, j, limit - 1, k);
        assert page[limit - 1] == rest[limit - 2];
      }
    } else {
      assert k != j;
      LeftOutIsOlder(qs, viewer, j, limit, k);
    }
  }

  /** No gap, no overlap: asking for `limit + more` quotes gives the full page
      of `limit` followed by the page of `more` at the cursor set to the id
      of that page's last quote. */
  lemma {:induction false} NextPageContinues(qs: map<nat, Quote>, viewer: User, below: nat, limit: nat, more: nat)
    requires IdsAreKeys(qs) && limit > 0
    requires |NewestBelow(qs, viewer, below, limit)| == limit
    ensures NewestBelow(qs, viewer, below, limit + more)
         == NewestBelow(qs, viewer, below, limit)
          + NewestBelow(qs, viewer, NewestBelow(qs, viewer, below, limit)[limit - 1].id, more)
    decreases below
  {
    var j := below - 1;
    var page := NewestBelow(qs, viewer, below, limit);
    if j in qs && InFeed(qs[j], viewer) {
      var rest := NewestBelow(qs, viewer, j, limit - 1);
      assert page == [qs[j]] + rest;
      if limit == 1 {
        assert page[0].id == j;
      } else {
        NextPageContinues(qs, viewer, j, limit - 1, more);
        assert page[limit - 1] == rest[limit - 2];
        var next := NewestBelow(qs, viewer, rest[limit - 2].id, more);
        calc {
          NewestBelow(qs, viewer, below, limit + more);
          [qs[j]] + NewestBelow(qs, viewer, j, limit - 1 + more);
          [qs[j]] + (rest + next);
          { ConsAppend(qs[j], rest, next); }
          page + next;
        }
      }
    } else {
      NextPageContinues(qs, viewer, j, limit, more);
    }
  }

  lemma ConsAppend(x: Quote, a: seq<Quote>, b: seq<Quote>)
    ensures [x] + (a + b) == ([x] + a) + b
  {
  }

  /** Page one followed by the page at its last id is the first `2 * limit`
      quotes of the feed. */
  lemma TwoPages(qs: map<nat, Quote>, viewer: User, below: nat, limit: nat)
    requires IdsAreKeys(qs) && limit > 0
    requires |NewestBelow(qs, viewer, below, limit)| == limit
    ensures NewestBelow(qs, viewer, below, 2 * limit)
         == NewestBelow(qs, viewer, below, limit)
          + NewestBelow(qs, viewer, NewestBelow(qs, viewer, below, limit)[limit - 1].id, limit)
  {
    NextPageContinues(qs, viewer, below, limit, limit);
  }

  /** A page shorter than `limit` has everything below its cursor: asking for
      more gives the same page. */
  lemma {:induction false} ShortPageIsLast(qs: map<nat, Quote>, viewer: User, below: nat, limit: nat, more: nat)
    requires IdsAreKeys(qs)
    requires |NewestBelow(qs, viewer, below, limit)| < limit
    ensures NewestBelow(qs, viewer, below, limit + more) == NewestBelow(qs, viewer, below, limit)
    decreases below
  {
    if below > 0 {
      var j := below - 1;
      if j in qs && InFeed(qs[j], viewer) {
        ShortPageIsLast(qs, viewer, j, limit - 1, more);
        assert NewestBelow(qs, viewer, below, limit + more) == [qs[j]] + NewestBelow(qs, viewer, j, limit - 1 + more);
      } else {
        ShortPageIsLast(qs, viewer, j, limit, more);
      }
    }
  }

  /** A cursor at or above every stored id selects the same page as a cursor
      just above the newest id: a stale or unknown cursor is no error. */
  lemma {:induction false} CursorAboveAllIds(qs: map<nat, Quote>, viewer: User, bound: nat, cursor: nat, limit: nat)
    requires IdsAreKeys(qs) && bound <= cursor
    requires forall k | k in qs :: k < bound
    ensures NewestBelow(qs, viewer, cursor, limit) == NewestBelow(qs, viewer, bound, limit)
    decreases cursor - bound
  {
    if cursor > bound {
      assert cursor - 1 !in qs;
      CursorAboveAllIds(qs, viewer, bound, cursor - 1, limit);
    }
  }

  /** Every author of a populated page exists; `populate('author')` sets a
      missing author to null and `wrapQuote` then fails reading its `_id`. */
  predicate AuthorsExist(users: map<nat, User>, page: seq<Quote>)
  {
    forall q | q in page :: q.author in users
  }

  /** `GET /quotes/:limit` (no cursor: everything below `nextId`) and
      `GET /quotes/:startingId/:limit`. */
  function QuotesPage(users: map<nat, User>, qs: map<nat, Quote>, nextId: nat, viewer: User,
                      startingId: Option<nat>, limit: nat): (r: Result<seq<QuoteView>>)
    requires IdsAreKeys(qs) && (forall k | k in qs :: k < nextId) && limit > 0
    ensures var page := NewestBelow(qs, viewer, if startingId.Some? then startingId.value else nextId, limit);
      && (r.Ok? <==> AuthorsExist(users, page))
      && (r.Ok? ==> r.value == WrapQuotes(page, viewer))
      && (r.Err? ==> r.error == Unexpected)
    ensures r.Ok? ==> |r.value| <= limit
    ensures r.Ok? && startingId.Some? ==> forall i | 0 <= i < |r.value| :: r.value[i].id < startingId.value
    ensures r.Ok? ==> forall i, j | 0 <= i < j < |r.value| :: r.value[i].id > r.value[j].id
    ensures r.Ok? ==> forall i | 0 <= i < |r.value| ::
      r.value[i].author in viewer.following || r.value[i].author == viewer.id
  {
    var page := NewestBelow(qs, viewer, if startingId.Some? then startingId.value else nextId, limit);
    if AuthorsExist(users, page) then Ok(WrapQuotes(page, viewer)) else Err(Unexpected)
  }

  /** The ids of `GET /users/:limit` and `GET /users/:startingId/:limit`:
      users after the cursor, in stored (id) order, at most `limit`; fewer
      only when no more users follow. */
  function UserIdsPage(users: map<nat, User>, nextId: nat, startingId: Option<nat>, limit: nat): (ids: seq<nat>)
    requires forall k | k in users :: k < nextId
    ensures |ids| <= limit
    ensures forall i | 0 <= i < |ids| :: ids[i] in users
    ensures startingId.Some? ==> forall i | 0 <= i < |ids| :: ids[i] > startingId.value
    ensures forall i, j | 0 <= i < j < |ids| :: ids[i] < ids[j]
    ensures |ids| < limit ==> forall k | k in users && (startingId.None? || k > startingId.value) :: k in ids
  {
    var all := Ascending(users, (u: User) => true, if startingId.Some? then startingId.value + 1 else 0, nextId);
    if |all| <= limit then all else all[..limit]
  }

  /** The users of that page, projected for the viewer. */
  function UsersPage(users: map<nat, User>, nextId: nat, viewer: User, startingId: Option<nat>, limit: nat): (r: seq<UserView>)
    requires forall k | k in users :: k < nextId
    ensures var ids := UserIdsPage(users, nextId, startingId, limit);
      |r| == |ids| && forall i | 0 <= i < |r| :: r[i] == WrapUser(users[ids[i]], viewer)
  {
    var ids := UserIdsPage(users, nextId, startingId, limit);
    seq(|ids|, i requires 0 <= i < |ids| => WrapUser(users[ids[i]], viewer))
  }
}
