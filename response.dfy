/** The response projections: a stored document copied field by field, plus
    flags relative to the requesting user (the viewer). They read their
    arguments and change neither. */
module Response {
  import opened Schema
  import opened Store

  /** The projected user. It has no `email`, `admin` or `saved` field. */
  datatype UserView = UserView(
    id: nat,
    username: string,
    firstname: string,
    lastname: string,
    displayImage: string,
    following: seq<nat>,
    followers: seq<nat>,
    isFollowed: bool,
    isMe: bool)

  datatype QuoteView = QuoteView(
    id: nat,
    text: string,
    tags: seq<string>,
    emotion: string,
    author: nat,
    likes: seq<nat>,
    comments: seq<Comment>,
    isLiked: bool,
    isSaved: bool,
    isOwned: bool)

  datatype CommentView = CommentView(
    id: nat,
    text: string,
    author: nat,
    likes: seq<nat>,
    isLiked: bool,
    isOwned: bool)

  /** `wrapUser(target, viewer)`. `isFollowed` asks whether the viewer
      follows the target (not the reverse); `isMe` whether they are the same
      user. */
  function WrapUser(target: User, viewer: User): (v: UserView)
    ensures v.id == target.id && v.username == target.username
    ensures v.firstname == target.firstname && v.lastname == target.lastname
    ensures v.displayImage == target.displayImage
    ensures v.following == target.following && v.followers == target.followers
    ensures v.isFollowed <==> target.id in viewer.following
    ensures v.isMe <==> target.id == viewer.id
  {
    UserView(target.id, target.username, target.firstname, target.lastname, target.displayImage,
             target.following, target.followers, viewer.IsFollowing(target.id), target.IsMe(viewer.id))
  }

  /** `wrapQuote(quote, viewer)`: `isLiked` when the viewer is among the
      quote's likes, `isSaved` when the quote is among the viewer's saved
      quotes, `isOwned` when the viewer is the author. */
  function WrapQuote(q: Quote, viewer: User): (v: QuoteView)
    ensures v.id == q.id && v.text == q.text && v.tags == q.tags && v.emotion == q.emotion
    ensures v.author == q.author && v.likes == q.likes && v.comments == q.comments
    ensures v.isLiked <==> viewer.id in q.likes
    ensures v.isSaved <==> q.id in viewer.saved
    ensures v.isOwned <==> q.author == viewer.id
  {
    QuoteView(q.id, q.text, q.tags, q.emotion, q.author, q.likes, q.comments,
              q.IsLiked(viewer.id), viewer.IsSaved(q.id), q.IsOwned(viewer.id))
  }

  /** `wrapComment(comment, viewer)`: the flags come from the comment's own
      likes and author, not from its quote's. */
  function WrapComment(c: Comment, viewer: User): (v: CommentView)
    ensures v.id == c.id && v.text == c.text && v.author == c.author && v.likes == c.likes
    ensures v.isLiked <==> viewer.id in c.likes
    ensures v.isOwned <==> c.author == viewer.id
  {
    CommentView(c.id, c.text, c.author, c.likes, c.IsLiked(viewer.id), c.IsOwned(viewer.id))
  }

  /** `quotes.map(q => wrapQuote(q, viewer))`. */
  function WrapQuotes(qs: seq<Quote>, viewer: User): (vs: seq<QuoteView>)
    ensures |vs| == |qs| && forall i | 0 <= i < |qs| :: vs[i] == WrapQuote(qs[i], viewer)
  {
    seq(|qs|, i requires 0 <= i < |qs| => WrapQuote(qs[i], viewer))
  }

  /** `comments.map(c => wrapComment(c, viewer))`. */
  function WrapComments(cs: seq<Comment>, viewer: User): (vs: seq<CommentView>)
    ensures |vs| == |cs| && forall i | 0 <= i < |cs| :: vs[i] == WrapComment(cs[i], viewer)
  {
    seq(|cs|, i requires 0 <= i < |cs| => WrapComment(cs[i], viewer))
  }

  /** `populate(path)` of a list of user ids, then `map(wrapUser)`: the
      users that still exist, in list order, projected for the viewer. */
  function WrapPopulatedUsers(users: map<nat, User>, ids: seq<nat>, viewer: User): (vs: seq<UserView>)
    requires forall k | k in users :: users[k].id == k
    ensures |vs| == |Present(users, ids)|
    ensures forall i | 0 <= i < |vs| :: vs[i].id in ids && vs[i].id in users
    ensures forall i | 0 <= i < |vs| :: vs[i] == WrapUser(users[Present(users, ids)[i]], viewer)
  {
    var present := Present(users, ids);
    assert forall i | 0 <= i < |present| :: present[i] in present;
    seq(|present|, i requires 0 <= i < |present| => WrapUser(users[present[i]], viewer))
  }

  /** Projecting a user for itself always says `isMe`. */
  lemma WrapSelfIsMe(u: User)
    ensures WrapUser(u, u).isMe
  {
  }
}
