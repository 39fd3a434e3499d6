# Quotes social network: a Dafny model of its state and routes

This project models the server of a small quote-sharing social network: its
users, the quotes they post, the comments on those quotes, and the follow,
like and save relations between them.

- Users follow each other, post quotes, like and save quotes, and comment on
  quotes.
- The server keeps two collections, `users` and `quotes`. Comments are
  embedded in their quote.
- Every request loads documents, checks that they exist and who owns them,
  changes them in memory and saves them.
- The model proves what each route promises about the stored state and about
  its response.

Structure, one module per source file or concern:

- `Base`: the result and error datatypes, and JavaScript truthiness of
  optional body fields.
- `IdList`: the id lists used as sets (`following`, `followers`, `saved`,
  `likes`).
- `Schema`: the stored User, Quote and Comment values, their defaults and
  their pure predicates.
- `SocialGraph`: the follow relation and its two writes.
- `Store`: the database as a `Db` class. It holds the two collections and the
  ObjectId generator. `ValidState` is the invariant kept between requests:
  - ids are keys;
  - required strings are non-empty;
  - lists have no duplicates;
  - usernames are unique;
  - `following`/`followers` are two-sided.
- `UserModel` and `QuoteModel`: the loaded Mongoose documents as classes
  whose list methods change their fields in place and save.
- `Response`: the viewer-relative projections.
- `Infinite`: the feed and user pagination.
- `Connections`, `Actions`, `Comments`, `QuoteRoutes`, `UserRoutes`,
  `Upload`: one module per route file. Each route that writes is a method
  over the `Db`. Its postcondition gives the whole new state and the
  response, for every branch. It also states that `Valid()` is kept.
  Each read-only route is a function.

Modelling conventions:

- Ids are natural numbers standing in for ObjectIds. The generator hands out
  increasing ids, so id order is creation order.
- The viewer (the authenticated `req.user`) is a given user value, or a
  `UserDoc` that is in step with the database when the route changes it.
- Errors carry their HTTP meaning. `NotFound` is 404, `Forbidden` 403,
  `BadInput` 400 and `Conflict` 409. `Unexpected` is an error without a
  status, which the error handler (app.js:83-90) answers with 500.
- `Unexpected` also covers a JavaScript `TypeError`. This happens, for
  example, when a route reads a field of a `null` document, or of a
  populated reference whose document is gone.
- `verifyAdmin` is modelled as the `Forbidden` branch it produces.

## Model

| member | source | states |
|---|---|---|
| IdList.AddToSet | models/users.js:64-73 | append iff absent: the id is present afterwards, membership grows by exactly that id, the list is unchanged when it held the id and gets it at the end otherwise, no duplicate is introduced |
| IdList.Pull | models/users.js:77-82 | mongoose `remove`: the id is absent afterwards, every other membership is unchanged, an absent id leaves the list as it was, no duplicate is introduced |
| IdList.PullKeepsOrder | models/users.js:77-82 | `remove` keeps the order of the rest: the result is a subsequence of the list, and its multiset is the list's with every copy of the id dropped |
| IdList.PullUndoesAdd | models/users.js:64-82 | removing an id just appended to a list that lacked it restores the list |
| IdList.AddAndPullIdempotent | models/users.js:64-82 | adding twice equals adding once; removing twice equals removing once |
| Schema.NewUser | routes/users.js:45-144 | a registered user: well formed exactly when the four strings are non-empty, follows, saves and is followed by nothing, is not an admin, has the default image (models/users.js:28-38) and is itself |
| Schema.NewQuote | models/quotes.js:67-97 | `new Quote(body)`: well formed exactly when the text is non-empty, no likes and no comments, owned by its author alone, tags default to the empty array and emotion to `neutral` |
| Schema.FollowingQueries | models/users.js:86-93 | `isFollowing` after `follow(x)` is the old answer or `x`; after `unfollow(x)` the old answer and not `x` |
| Schema.SavedQueries | models/users.js:139-146 | `isSaved` after `saveQuote(x)` and `unsaveQuote(x)`, the same way |
| Schema.LikedQueries | models/quotes.js:121-128 | `isLiked` of a quote and of a comment (models/quotes.js:51-58) after `like(x)` and `unlike(x)`, the same way |
| Schema.OwnershipIsAuthorship | models/quotes.js:131-134 | `isOwned` holds exactly for the author's id and no edit of likes or text changes it, for the quote test (`author._id.toString() === userId.toString()`) and for the differently written comment test (`author.equals(userId)`, models/quotes.js:61-64); `isMe` (models/users.js:149-152) holds exactly for the user's own id |
| SocialGraph.AddFollower | routes/connections.js:48 | first write of a follow: the viewer is among the followee's followers, only that list of that user changed |
| SocialGraph.Follow | routes/connections.js:45-54 | both writes: the viewer's `following` becomes the append-iff-absent of the followee and the followee's `followers` that of the viewer (both lists of one user for a self-follow), every other user is unchanged, and each side changed only its own list |
| SocialGraph.RemoveFollower | routes/connections.js:148 | first write of an unfollow: the viewer is no longer a follower, only that list changed |
| SocialGraph.Unfollow | routes/connections.js:145-154 | both writes: the viewer's `following` loses the followee and the followee's `followers` the viewer, as `remove` does (both lists of one user for a self-unfollow), neither membership holds afterwards, other users are unchanged |
| SocialGraph.FollowPreservesSymmetry | routes/connections.js:48-51 | a completed follow keeps `following`/`followers` two-sided |
| SocialGraph.UnfollowPreservesSymmetry | routes/connections.js:148-151 | a completed unfollow keeps the relation two-sided |
| SocialGraph.PartialFollowIsOneSided | routes/connections.js:48-51 | between the followee's write and the viewer's write the relation is one-sided for a new follow |
| SocialGraph.FollowIdempotent | routes/connections.js:48-51 | following twice gives the state of following once |
| SocialGraph.UnfollowUndoesFollow | routes/connections.js:145-154 | unfollowing restores the exact state before a follow of a user not yet followed |
| SocialGraph.SelfFollow | routes/connections.js:39-51 | self-follow is not refused and puts the user into both of its own lists |
| Store.Ascending | routes/infinite.js:215 | a collection scan without a sort, taken to be in id order: ascending ids, exactly the kept documents in the id range |
| Store.Present | routes/connections.js:188 | `populate` of an id list: exactly the ids that still have a document, and the whole list in order when none is dangling |
| Store.ValidState | models/users.js:9-60 | the invariant between requests: ids are keys below the generator, the `required` strings are non-empty (models/quotes.js:8-97 for quotes and comments), id arrays hold no duplicate, usernames are unique (the accounts plugin, models/users.js:155) and `following`/`followers` are two-sided |
| Store.AddUser | routes/users.js:45-144 | a new user at the id bound with empty follow lists and a fresh username keeps the invariant |
| Store.RemoveUsers | routes/users.js:309-342 | removing users keeps the invariant, since two-sidedness is only demanded among stored users |
| Store.Db.NewObjectId | routes/quotes.js:60-63 | a new id held by no stored document, and the invariant is kept |
| Store.Unsupported | routes/actions.js:100-108 | an unsupported method answers 400 and writes nothing |
| UserModel.UserDoc.Follow | models/users.js:64-73 | `isFollowing(x)` holds afterwards; `following` is append-iff-absent; the stored user changes in `following` alone |
| UserModel.UserDoc.Unfollow | models/users.js:77-82 | `isFollowing(x)` fails afterwards; `following` loses every `x`; only `following` is written |
| UserModel.UserDoc.AddFollower | models/users.js:97-107 | append-iff-absent on `followers`; only `followers` is written |
| UserModel.UserDoc.RemoveFollower | models/users.js:110-115 | remove on `followers`; only `followers` is written |
| UserModel.UserDoc.SaveQuote | models/users.js:118-128 | `isSaved(q)` holds afterwards; append-iff-absent on `saved`; only `saved` is written |
| UserModel.UserDoc.UnsaveQuote | models/users.js:131-136 | `isSaved(q)` fails afterwards; only `saved` is written |
| QuoteModel.FindComment | routes/actions.js:221 | `comments.find` by id: the first position holding the id, or none exactly when no comment has it |
| QuoteModel.QuoteDoc.Like | models/quotes.js:100-109 | `isLiked(u)` holds afterwards; `likes` is append-iff-absent; the quote is saved |
| QuoteModel.QuoteDoc.Unlike | models/quotes.js:112-117 | `isLiked(u)` fails afterwards; `likes` loses every `u`; the quote is saved |
| QuoteModel.QuoteDoc.LikeComment | models/quotes.js:31-40 | only the targeted comment's `likes` changes (append iff absent), the siblings and the quote's own likes stay, the parent quote is saved |
| QuoteModel.QuoteDoc.UnlikeComment | models/quotes.js:43-48 | only the targeted comment's `likes` loses `u`, the parent quote is saved |
| Response.WrapUser | response.js:4-19 | copies id, names, image and both lists; `isFollowed` iff the viewer follows the target; `isMe` iff same id; no email, admin or saved field |
| Response.WrapQuote | response.js:23-37 | copies the stored fields; `isLiked` iff the viewer is in `likes`; `isSaved` iff the quote is in the viewer's `saved`; `isOwned` iff the viewer is the author |
| Response.WrapComment | response.js:41-51 | copies the comment; its flags come from the comment's own likes and author |
| Response.WrapQuotes | routes/infinite.js:101 | the list projection, pointwise |
| Response.WrapComments | routes/comments.js:40 | the list projection, pointwise |
| Response.WrapPopulatedUsers | routes/connections.js:188-194 | the surviving users of an id list, in list order, each projected for the viewer |
| Response.WrapSelfIsMe | response.js:18 | a user projected for itself has `isMe` |
| Infinite.NewestBelow | routes/infinite.js:95-98 | at most `limit` quotes, strictly decreasing ids, each stored, below the cursor, and by the viewer or someone the viewer follows |
| Infinite.LeftOutIsOlder | routes/infinite.js:98 | top-k: a feed quote below the cursor that is not on the page means the page is full and the quote is older than its last item |
| Infinite.NextPageContinues | routes/infinite.js:98 | no gap and no overlap: page of `limit + more` equals the full page followed by the page at the cursor set to its last id |
| Infinite.TwoPages | routes/infinite.js:35-98 | page one followed by the page at its last id is the first `2 * limit` feed quotes |
| Infinite.ShortPageIsLast | routes/infinite.js:98 | a page shorter than `limit` already holds every feed quote below the cursor |
| Infinite.CursorAboveAllIds | routes/infinite.js:86-98 | a cursor at or above every stored id is no error and selects the same page as the first-page route |
| Infinite.QuotesPage | routes/infinite.js:23-104 | both feed routes: the projected page when every author exists, else an unexpected error; at most `limit` items, newest first, below the cursor, all in the viewer's feed |
| Infinite.UserIdsPage | routes/infinite.js:146-221 | at most `limit` stored users, ascending, all after the cursor, and a short page holds every user after it |
| Infinite.UsersPage | routes/infinite.js:155-218 | those users projected for the viewer |
| Connections.FollowKeepsValid | routes/connections.js:48-51 | a completed follow keeps the whole stored invariant |
| Connections.UnfollowKeepsValid | routes/connections.js:148-151 | a completed unfollow keeps the whole stored invariant |
| Connections.Follow | routes/connections.js:30-74 | 404 with no write for a missing followee; otherwise the stored users become `SocialGraph.Follow` of the old ones; the invariant is kept |
| Connections.Unfollow | routes/connections.js:130-174 | 404 with no write for a missing followee; otherwise `SocialGraph.Unfollow`; the invariant is kept |
| Connections.Followers | routes/connections.js:179-216 | the followers listing, populated and projected; a missing user is an unexpected error, not the 400 the code builds |
| Connections.Following | routes/connections.js:252-275 | the following listing; a missing user is an unexpected error |
| Connections.ListingsAgreeWithGraph | routes/connections.js:188-197 | every listed follower follows the user and every listed followee lists the user as follower; with no dangling id the followers listing is the stored list in order |
| Actions.LikeLaws | routes/actions.js:63-145 | on the quote store the like and unlike routes produce: liking twice is liking once, unliking twice is unliking once, and an unlike undoes a like by a user who had not liked |
| Actions.QuoteLikes | routes/actions.js:27-62 | 404 for a missing quote, else its likers populated and projected |
| Actions.LikeQuote | routes/actions.js:63-99 | the quote store becomes `AfterLike` of the old one (unchanged for a missing quote, answered 404); the liked quote is projected, and a missing author fails after the save |
| Actions.UnlikeQuote | routes/actions.js:109-145 | the quote store becomes `AfterUnlike` of the old one (unchanged for a missing quote, answered 404); the viewer leaves `likes` |
| Actions.CommentLikes | routes/actions.js:151-204 | 404 for a missing quote or comment, else the comment's likers as stored users |
| Actions.LikeComment | routes/actions.js:205-262 | 404 and no write for a missing quote or comment; otherwise only that comment's likes gain the viewer, by append-iff-absent |
| Actions.CommentLikesAsWritten | models/quotes.js:31-40 | `comment.like(req.user, …)` as written: the membership test never finds the document, so the viewer's id is pushed every time; the members are those of a set insertion but the list grows by one |
| Actions.RepeatCommentLikeDuplicates | routes/actions.js:227 | a repeated comment like as written stores the viewer twice: the likes are no longer duplicate-free and one longer than the set insertion |
| Actions.UnlikeComment | routes/actions.js:272-328 | 404 and no write for a missing quote or comment; otherwise only that comment's likes lose the viewer |
| Actions.SaveQuoteAsWritten | routes/actions.js:354-379 | the id enters `saved` before any lookup; for a missing quote the request fails and the id stays saved |
| Actions.SaveQuote | routes/actions.js:354-379 | with the existence check: 404 and no write for a missing quote, otherwise the id is saved and the response has `isSaved` |
| Actions.ClearSaved | routes/actions.js:390-411 | 403 with no write for a non-admin; otherwise `saved` is empty |
| Actions.UnsaveQuote | routes/actions.js:447-473 | the id leaves `saved`; a missing quote then fails; the response never has `isSaved` |
| Actions.SavedBy | routes/actions.js:476-500 | the user's surviving saved quotes in order, projected; a missing user or author fails |
| Comments.WithoutComment | routes/comments.js:355 | the filter keeps exactly the comments without the id |
| Comments.WithoutCommentDropsOne | routes/comments.js:355 | with distinct ids, the filter removes exactly the comment at the id's position and keeps the others in order |
| Comments.ListComments | routes/comments.js:21-60 | 404 for a missing quote, else every comment projected, or an unexpected error when an author is gone |
| Comments.GetComment | routes/comments.js:185-241 | 404 for a missing quote or comment, else the first comment with the id projected, or an unexpected error when its author is gone |
| Comments.AddComment | routes/comments.js:61-131 | 404 or 400 with no write; otherwise exactly one comment with a fresh id, the text, the viewer as author and no likes is appended at the end |
| Comments.ClearComments | routes/comments.js:141-180 | 403 for a non-admin, 404 for a missing quote, both with no write; otherwise `comments` is empty |
| Comments.UpdateCommentAsWritten | routes/comments.js:253-329 | the `===` test never holds: every request that finds its comment, the author's included, is refused with 403 and nothing is written |
| Comments.UpdateComment | routes/comments.js:253-329 | ownership compared on ids: 403 with no write for a non-author; for the author the text is replaced only by a truthy new text |
| Comments.DeleteComment | routes/comments.js:330-404 | 404, 403 or an unexpected error with no write; for the author the comments with the id are filtered out |
| Comments.DeleteRemovesExactlyOne | routes/comments.js:352-361 | a successful delete removes exactly one comment, keeps the rest in order, and leaves none with that id |
| QuoteRoutes.CreateQuote | routes/quotes.js:45-90 | 400 with no write for a missing or empty text; otherwise a quote by the viewer, with the emotion default and no likes or comments, under a fresh id |
| QuoteRoutes.GetQuote | routes/quotes.js:120-155 | 404 for a missing quote, else the quote projected |
| QuoteRoutes.Updated | routes/quotes.js:183-185 | each of `text`, `tags`, `emotion` is replaced iff the supplied value is truthy; id, author, likes and comments stay |
| QuoteRoutes.UpdateLaws | routes/quotes.js:183-185 | an empty body changes nothing; the same update twice is the update once |
| QuoteRoutes.UpdateQuote | routes/quotes.js:165-211 | a missing quote or author is an unexpected error (not 404), a non-author gets 403, both with no write; the author's update is saved |
| QuoteRoutes.DeleteQuote | routes/quotes.js:212-246 | a missing quote is an unexpected error (not 404), a non-author gets 403 and the quote stays; the author's quote is removed |
| QuoteRoutes.ByAuthorIds | routes/quotes.js:261 | exactly the stored quotes whose author is the user, in id order (taken as the order of the unsorted `find`) |
| QuoteRoutes.QuotesByAuthor | routes/quotes.js:252-275 | the user's quotes in id order (taken as the order of the unsorted `find`), each projected and each by the user; an unexpected error exactly when the user is gone and has quotes |
| QuoteRoutes.QuotesByAuthorComplete | routes/quotes.js:261-267 | every stored quote of the user appears in the listing |
| QuoteRoutes.DeleteAllQuotes | routes/quotes.js:97-115 | 403 for a non-admin; otherwise the quote store is empty and the count is returned |
| UserRoutes.Register | routes/users.js:45-144 | an error without a status unless all four fields are truthy; 409 with no user created for a held username; otherwise a new user with the defaults |
| UserRoutes.GetUser | routes/users.js:176-210 | 404 for a missing user, else the user projected |
| UserRoutes.UpdateProfile | routes/users.js:218-308 | 403 for another id, 404 for a missing user, 409 for a username held by another user (one's own is no clash), all with no write; otherwise names are kept unless a truthy value is supplied |
| UserRoutes.UpdateKeepsNamesUnique | routes/users.js:238-252 | a new username that passed the clash check keeps usernames unique |
| UserRoutes.DeleteSelf | routes/users.js:309-342 | 403 for another id with no write; otherwise the user is removed |
| UserRoutes.DeleteAllUsers | routes/users.js:152-171 | 403 for a non-admin; otherwise no user remains |
| UserRoutes.Draw | routes/users.js:351-359 | at most `size` distinct stored ids from the draw, none excluded, and fewer only when the draw holds no other eligible id |
| UserRoutes.Suggestions | routes/users.js:347-362 | at most `size` distinct stored users, never the viewer and never someone the viewer follows |
| Upload.FilterIsSuffixTest | routes/upload.js:37-49 | the filter accepts a name iff it ends with `.jpg`, `.jpeg`, `.png` or `.gif` |
| Upload.FilterExamples | routes/upload.js:40 | case-sensitive and anchored at the end: `a.PNG` and `a.png.txt` are refused, `a.png` and `photo.jpeg` accepted |
| Upload.SlashBackslashes | routes/upload.js:79 | same length, each backslash replaced by `/`, every other character kept, no backslash left |
| Upload.SlashBackslashesIdempotent | routes/upload.js:79 | normalising twice is normalising once; a string without backslashes is unchanged |
| Upload.DisplayImageUrl | routes/upload.js:76-79 | the URL lies under `/images/profile/` and has no backslash |
| Upload.ResetIsDefault | routes/upload.js:141 | the reset value equals the schema default display image |
| Upload.UploadDisplayImage | routes/upload.js:70-100 | no file, or a refused file, is an error with no write; otherwise only `displayImage` changes, to the stored file's URL |
| Upload.ResetDisplayImage | routes/upload.js:133-159 | `displayImage` becomes the default and nothing else changes |

## Left out

- HTTP plumbing is not modelled: Express routing, OPTIONS handlers, CORS, status codes as numbers and JSON encoding. Outcomes are the `Result` datatype.
- Authentication, tokens, passwords, `routes/auth.js`, the generated password and the welcome mail of registration are not modelled. They are foreign libraries and I/O.
- `createdAt`/`updatedAt` timestamps are not modelled. They come from the clock.
- `GET /users` (all users) and the guest listing are not modelled: their order is the database's unspecified natural order.
- `GET /quotes` with arbitrary query parameters is not modelled: it passes the query to MongoDB. Neither is search (`routes/search.js`), which depends on `$text` and `$regex`.
- `GET /save/quotes` is not modelled: it awaits `document.populate` without `execPopulate`, whose result depends on the Mongoose version.
- Infinite.UserIdsPage: assumes the natural order of `User.find` is id order, which the database does not promise.
- QuoteRoutes.ByAuthorIds: assumes the natural order of `Quote.find({author})` (routes/quotes.js:261), which has no sort, is id order. The database does not promise this; membership is exact whatever the order.
- QuoteRoutes.QuotesByAuthor: the listing's order is the assumed id order of `ByAuthorIds`.
- Ids that are not ObjectIds are not modelled. Ids are `nat`, so a malformed `:id`, `:quoteId`, `:commentId`, `:userId` or body `quoteId` cannot be written. In the source, `findById` and the other queries throw a `CastError` on such a string; the `try` blocks pass it on and the error handler answers 500.
- A malformed cursor is not modelled. At routes/infinite.js:86 and routes/infinite.js:206, `mongoose.Types.ObjectId(req.params.startingId)` runs before the `try` of an async handler, so such a cursor rejects the handler's promise and the request gets no response at all.
- Infinite.QuotesPage: requires `limit > 0`. MongoDB's `limit(0)` (unlimited) and a non-numeric `limit` (`NaN`) are not modelled.
- Infinite.UserIdsPage: requires nothing about `limit`, but `limit(0)` meaning unlimited is not modelled: a zero limit gives an empty page.
- UserRoutes.Suggestions: `$sample`'s randomness is the `draw` parameter, and a non-numeric `size` is not modelled.
- Upload.Join: `path.join` is modelled as joining with `/`. Its normalisation of `.`, `..` and repeated separators, and Windows separators, are not modelled. Multer's disk storage, the `uuid` name and the file system are a given stored file name.
- QuoteRoutes.CreateQuote: only `text`, `tags` and `emotion` of the body are modelled. Other fields a client could send (`likes`, `comments`, `_id`) are not.
- Comments.AddComment: only `text` of the body is modelled. Other fields, such as `likes`, are not.
- QuoteRoutes.UpdateQuote: a `tags` value that is not an array is not modelled.
- Actions.LikeComment: models the comment like as append-iff-absent on the viewer's id, which is what the method evidently intends. As written, the route passes the whole `req.user` document, `indexOf` does not find a document among stored ids, and a repeat like stores the id again (see Findings). `Actions.CommentLikesAsWritten` models that; the invariant that comment likes hold no duplicate holds only for the intended behaviour.
- Actions.LikeComment: a populated comment author that is gone is only checked for the liked comment. Mongoose validation of null-populated paths in the other comments on save is not modelled.
- UserRoutes.UpdateProfile: an absent username is taken never to clash. How Mongoose casts `{username: undefined}` in `findOne` is not modelled.
- Concurrency is not modelled: each request is one sequential step. The lost-update race between requests and a crash between the two follow writes are left out; `SocialGraph.AddFollower` exposes the intermediate state.
- A failing save (a validation error or a database error) is not modelled. Saves always succeed.
- Configuration (`config.js`, `mail-config.js`) is not modelled.

## Findings

| source | as written | input that shows it | evidently intended | confidence | as-written member | corrected member |
|---|---|---|---|---|---|---|
| routes/comments.js:277 | `req.user._id === comment.author` compares an ObjectId with the populated author document by reference, so it is never true | the comment's own author sends `PUT /comments/:quoteId/:commentId` with a new text: 403 | ownership compared on ids, as in the delete route (`req.user._id.equals(comment.author._id)`, routes/comments.js:352), so the author can edit | not executed | Comments.UpdateCommentAsWritten | Comments.UpdateComment |
| routes/actions.js:227 | `comment.like(req.user, quote)` passes the user document; `likes.indexOf(doc)` compares it with the stored ids by reference (models/quotes.js:33), so the test never finds it and `push` stores the id again | the same user sends `POST /like/quote/:quoteId/comment/:commentId` twice: the comment's likes hold the user's id twice | pass `req.user._id`, as the quote like does (routes/actions.js:78), so a repeat like leaves the likes unchanged | not executed | Actions.CommentLikesAsWritten | Actions.LikeComment |
| routes/actions.js:366-372 | `user.saveQuote(quoteId)` runs before `Quote.findById`, so an id with no quote is written into `saved` and the request then fails on the null quote | `POST /save/quotes` with a `quoteId` that no quote has: the error response, and the id stays in `saved` | look the quote up first, answer 404 and write nothing when it is missing | not executed | Actions.SaveQuoteAsWritten | Actions.SaveQuote |
