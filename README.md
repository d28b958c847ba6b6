# VidTube backend core in Dafny

This project models the decision logic of the VidTube Express/Mongoose backend:

- **sessions**: registration, login, logout, refresh-token rotation, password change, profile update, and the `verifyJWT` middleware;
- **ownership-guarded mutations**: publishing, updating, deleting and toggling videos, and adding, editing and deleting comments;
- **read models** built by aggregation pipelines: the paginated video feed, the video detail with its like and subscription flags, the paginated comment feed, and the channel profile.

The MongoDB collections `users`, `videos`, `comments`, `likes` and `subscriptions` are maps from id to record. They are fields of the class `Store.Database`, which also holds the next fresh ObjectId and the serial of the next issued token.

Each handler that writes becomes a method on that class. Its contract gives:

- every error case, with the source's status and message (jsonwebtoken's own messages are one fixed message, see "## Left out");
- "nothing changes" on every error;
- the whole new state, as `old(db.Snapshot())` with named tables replaced by pure effect functions.

Those effect functions carry their own lemmas: toggle involution, set-add idempotence, logout idempotence, and the delete cascade leaving no trace. Each method also keeps `Store.Consistent`, the invariant that every id lies below the allocator and every stored refresh token was issued before the next serial.

Tokens are symbolic. `Jwt.Sign(secret, sub, serial)` builds a string. `Jwt.Verify` accepts exactly the strings `Sign` produced with the same secret, and gives back their claims. This lets the model prove two things:

- an access token never authenticates as a refresh token, and a refresh token never as an access token;
- a rotated refresh token rejects the token it replaced.

Read-model handlers that change nothing are functions. The video feed builds a list of pipeline stages step by step (`VideoFeed.BuildFeedPipeline`, as the source pushes stages). `VideoFeed.Run` interprets that list. `VideoFeed.FeedContents` proves what the result is:

- exactly the published videos that pass the filters, each with its owner's card;
- sorted by the requested key;
- with no duplicates.

Modules follow the source files:

| module | file |
|---|---|
| `Base`, `Text` | identifiers, results and string helpers |
| `Jwt` | token codec |
| `Store` | records and tables |
| `Pagination` | `aggregatePaginate` |
| `Sorting` | `$sort` |
| `AuthMiddleware` | `auth.middleware.js` |
| `UserController` | `user.controller.js` |
| `VideoFeed` | the feed part of `video.controller.js` |
| `VideoController` | the rest of `video.controller.js` |
| `CommentController` | `comment.controller.js` |

In these places the model follows the code as written:

- **Channel lookup.** The `$match` compares `username` with the function reference `username?.toLowerCase`, not its result. The BSON encoder drops a function value, so the stage becomes `{}` and selects every user. The model keeps which users match as a parameter; selecting every user is the instance the code runs.
- **Channel count.** The second `subscribersCount` key overwrites the first, so the count is the number of channels the user subscribes to.
- **Refresh errors.** Every refresh failure after the token is found is rethrown with status 402, not the 403 the inner checks name.
- **Refresh response.** The response's new refresh token is absent: the code destructures `newRefreshToken`, a key the token generator does not return. The body sends no refresh token, and the `refreshToken` cookie is set from `undefined`. So no client receives the rotated token, and a later refresh either presents a stale token or presents none. `UserController.RotatedTokenIsAccepted` states that the stored token would be accepted, not that a client can present it.
- **Comment `isLiked`.** `isLiked` is written with the unknown operator `$cont`, which makes MongoDB reject the whole `$addFields` stage, so the comment aggregate fails for every existing video. The model is that pipeline with the `isLiked` field removed.
- **Comment feed, missing video.** When the video is missing, the error carries the message in the status slot.
- **Like targets.** A like's target is not checked to be exactly one record.
- **Publish paths.** Both local paths are read before either is checked. Without `req.files` both are undefined and the video-path 400 fires. With `req.files` but without one of the two fields, reading `[0]` throws a TypeError. So the thumbnail-path 400 is never reached.

## Model

| member | source | states |
|---|---|---|
| AuthMiddleware.Authenticate | backend/src/middlewares/auth.middleware.js:6-28 | every failure is 401; success exactly when a cookie or Bearer token verifies under the access secret and names an existing user; the user is returned without password or refresh token |
| AuthMiddleware.CookieTakesPrecedence | backend/src/middlewares/auth.middleware.js:8 | a truthy `accessToken` cookie is used whatever the Authorization header says |
| AuthMiddleware.BearerHeaderYieldsToken | backend/src/middlewares/auth.middleware.js:8 | without a cookie, the header with its `Bearer ` prefix removed is the token |
| AuthMiddleware.HeaderWithoutBearerIsTokenAsIs | backend/src/middlewares/auth.middleware.js:8 | without a cookie, a header that does not contain `Bearer ` is used whole as the token |
| AuthMiddleware.NoTokenIsUnauthorized | backend/src/middlewares/auth.middleware.js:11-13 | no cookie and no header fails 401 "Unauthorized request" |
| AuthMiddleware.BearerAccessTokenAuthenticates | backend/src/middlewares/auth.middleware.js:15-23 | an access token issued for an existing user, sent as a Bearer header, authenticates that user |
| AuthMiddleware.RefreshTokenDoesNotAuthenticate | backend/src/middlewares/auth.middleware.js:15 | a refresh token never passes the access-token check |
| AuthMiddleware.DeletedUserIsRefused | backend/src/middlewares/auth.middleware.js:17-21 | a valid token for a user no longer stored fails 401 |
| AuthMiddleware.Request.constructor | backend/src/middlewares/auth.middleware.js:6 | a request starts with no user attached and `next` not yet called |
| AuthMiddleware.VerifyJwt | backend/src/middlewares/auth.middleware.js:6-31 | the result is `Authenticate`; on success `req.user` is set and `next` is called once, on failure the request is untouched |
| Jwt.Verify | backend/src/middlewares/auth.middleware.js:15 | a token verifies only if it is the signature of the claims returned |
| Jwt.VerifySign | backend/src/controllers/user.controller.js:13-14 | a token signed with a secret verifies under that secret to its own claims |
| Jwt.VerifyIffSigned | backend/src/controllers/user.controller.js:172 | verification yields claims `c` if and only if the token is `Sign(secret, c)` |
| Jwt.VerifyOtherSecret | backend/src/controllers/user.controller.js:172 | a token signed with one secret never verifies under the other |
| Jwt.SignInjective | backend/src/controllers/user.controller.js:13-14 | distinct claims give distinct tokens |
| Jwt.ParseNatOfDecimal | backend/src/controllers/user.controller.js:172 | the numeric claims of a token are read back exactly as written |
| Store.Public | backend/src/controllers/user.controller.js:74-76 | the projection keeps every field except password and refresh token |
| Store.Database.constructor | backend/src/db/index.js:7 | the store the connection opens starts empty and satisfies the consistency invariant |
| Text.Trim | backend/src/controllers/user.controller.js:31 | the result is empty iff the string is all white space in the sense of ECMAScript (ASCII white space, line terminators, the byte-order mark and the Unicode space separators); otherwise it neither starts nor ends with white space |
| Text.TrimKeepsMiddle | backend/src/controllers/user.controller.js:31 | the string is its trimmed text with only white space before and after it |
| Text.ToLowerCase | backend/src/controllers/user.controller.js:69 | same length, no upper-case ASCII letter left, every other character kept |
| Text.ToLowerCaseIdempotent | backend/src/controllers/user.controller.js:69 | lower-casing twice is lower-casing once |
| Text.IndexOf | backend/src/middlewares/auth.middleware.js:8 | the first position where the pattern occurs, or none when it occurs nowhere |
| Text.RemoveFirst | backend/src/middlewares/auth.middleware.js:8 | `replace` with a string pattern: unchanged when the pattern does not occur; otherwise one pattern's length shorter, and putting the pattern back at its first position gives the original |
| Text.RemoveFirstOfPrefixed | backend/src/middlewares/auth.middleware.js:8 | removing the first `Bearer ` from `Bearer t` gives `t` |
| Text.RemoveFirstLength | backend/src/middlewares/auth.middleware.js:8 | replacing one occurrence shortens the header by the pattern's length |
| Base.Min | backend/src/controllers/user.controller.js:97-99 | the least id of a non-empty set: the document `findOne` returns |
| Base.Ascending | backend/src/controllers/comment.controller.js:17-22 | the ids of a table in natural (insertion) order, each once |
| UserController.IssuedPair | backend/src/controllers/user.controller.js:13-14 | the access token verifies only under the access secret and the refresh token only under the refresh secret, both naming the user |
| UserController.WithRefreshToken | backend/src/controllers/user.controller.js:16-17 | only that user's refresh token changes |
| UserController.RotationKeepsConsistent | backend/src/controllers/user.controller.js:12-19 | storing a freshly issued refresh token keeps the store consistent |
| UserController.GenerateAccessAndRefreshToken | backend/src/controllers/user.controller.js:10-24 | fails 500 with no change for a missing user; otherwise returns a fresh pair, stores its refresh token and advances the serial |
| UserController.NewUser | backend/src/controllers/user.controller.js:65-72 | the stored user has the lower-cased username, given email, name, password and avatar, empty cover image, no refresh token, empty history |
| UserController.FreshUserKeepsConsistent | backend/src/controllers/user.controller.js:65-72 | storing a new user without a refresh token under the next id keeps the store consistent |
| UserController.AnyBlankMeansWhitespaceField | backend/src/controllers/user.controller.js:29-34 | registration's blank check fires exactly when some field is white space only, the empty string included |
| UserController.RegisteredUserIsTaken | backend/src/controllers/user.controller.js:38-43 | after registering, the same e-mail and the stored, lowercased username both count as taken |
| UserController.MixedCaseUsernameIsNotTaken | backend/src/controllers/user.controller.js:38-43 | the raw username is compared, so a username with an upper-case letter, stored lowercased, does not block a second registration under another e-mail |
| UserController.UserRegister | backend/src/controllers/user.controller.js:26-87 | 400 for a blank field, 409 when username or email is taken, 400 without an uploaded avatar; otherwise exactly one new user under a fresh id |
| UserController.LoginTarget | backend/src/controllers/user.controller.js:90-108 | 400 without username and email, 404 when nobody's username or email equals a supplied one, 405 on a wrong password; success iff some user matches and the least matching id has that password, and then the result is that id |
| UserController.FirstMatchDecidesLogin | backend/src/controllers/user.controller.js:97-108 | when the username names one user and the e-mail a later one, the earlier user's password alone decides: it logs in that user, and any other password gets 405 |
| UserController.UserLogin | backend/src/controllers/user.controller.js:90-134 | Ok exactly when the login target is Ok, so a correct password for the first match logs in; login errors change nothing; success issues and stores a token pair for the first match and returns its public user |
| UserController.RegisteredUserLogsInByEmail | backend/src/controllers/user.controller.js:65-108 | a freshly registered user logs in with their email and password |
| UserController.MixedCaseUsernameCannotLogIn | backend/src/controllers/user.controller.js:69-103 | a user registered with an upper-case letter in the username cannot log in by that username |
| UserController.ClearRefreshToken | backend/src/controllers/user.controller.js:137-148 | only the caller's refresh token is removed |
| UserController.LogoutIdempotent | backend/src/controllers/user.controller.js:136-148 | logging out twice equals logging out once |
| UserController.UserLogout | backend/src/controllers/user.controller.js:136-162 | the new store is the old one with the caller's refresh token removed |
| UserController.LogoutEndsSession | backend/src/controllers/user.controller.js:136-186 | after logout no presented token refreshes that user |
| UserController.RefreshTarget | backend/src/controllers/user.controller.js:164-209 | 401 without a token; 402 with the invalid-token, invalid-refresh-token or expired-or-used message for each inner failure; success iff the token verifies under the refresh secret, names a stored user and equals that user's stored token, and then the result is the token's subject |
| UserController.IncomingRefreshTokenSources | backend/src/controllers/user.controller.js:165 | without a cookie the stored token sent in the body refreshes; a truthy cookie that does not refresh hides a valid body token |
| UserController.RefreshAccessToken | backend/src/controllers/user.controller.js:164-211 | errors change nothing; success rotates the stored refresh token of the target and returns a fresh access token |
| UserController.RotationRejectsAcceptedToken | backend/src/controllers/user.controller.js:184-188 | once a refresh succeeds, the token it accepted no longer refreshes |
| UserController.RotatedTokenIsAccepted | backend/src/controllers/user.controller.js:184-188 | the newly stored refresh token is accepted next time |
| UserController.WithPassword | backend/src/controllers/user.controller.js:232-234 | only that user's password changes |
| UserController.ChangeCurrentPassword | backend/src/controllers/user.controller.js:213-241 | 401 without a caller, 404 for a missing user, 405 on a wrong old password, each with no change; otherwise only the password is replaced |
| UserController.PasswordChangeGovernsLogin | backend/src/controllers/user.controller.js:225-234 | after a change the new password logs in and the old one is refused with 405 |
| UserController.WithProfile | backend/src/controllers/user.controller.js:261-270 | supplied fullname and email replace the stored ones; absent fields and every other field stay |
| UserController.UpdateUserProfile | backend/src/controllers/user.controller.js:255-277 | 400 when neither field is truthy; a missing caller gives no document and no change; otherwise only the caller's profile changes and the updated view is returned |
| UserController.GetUserChannelProfile | backend/src/controllers/user.controller.js:338-407 | 400 for a blank username, 401 when no user is selected; otherwise the least selected user with its count of subscriptions it made and whether the viewer subscribes to it |
| UserController.ChannelCountIgnoresSubscribers | backend/src/controllers/user.controller.js:351-374 | a channel with one subscriber and no subscriptions of its own reports a count of 0 and `isSubscribed` for that subscriber |
| Sorting.Insert | backend/src/controllers/video.controller.js:50-58 | inserting into a sorted sequence keeps it sorted and adds exactly the element |
| Sorting.SortBy | backend/src/controllers/video.controller.js:50-58 | a sorted permutation of the input |
| Sorting.SortedTail | backend/src/controllers/video.controller.js:50-58 | the tail of a sorted sequence is sorted and ranked no lower than its head |
| Sorting.SortedCons | backend/src/controllers/video.controller.js:50-58 | an element ranked no higher than a sorted sequence can be put in front of it |
| Sorting.SortByMembers | backend/src/controllers/video.controller.js:50-58 | sorting keeps exactly the elements it was given |
| Sorting.InsertStable | backend/src/controllers/video.controller.js:50-58 | an inserted element goes in front of every element of its own rank |
| Sorting.SortByStable | backend/src/controllers/video.controller.js:50-58 | sorting is stable: the elements of each rank come out in input order |
| VideoFeed.Keep | backend/src/controllers/video.controller.js:21-46 | a filter stage keeps exactly the documents that pass it |
| VideoFeed.KeepSorted | backend/src/controllers/video.controller.js:60-80 | filtering a sorted sequence keeps it sorted |
| VideoFeed.KeepDistinct | backend/src/controllers/video.controller.js:60-80 | filtering never introduces a duplicate id |
| VideoFeed.InsertDistinct | backend/src/controllers/video.controller.js:50-58 | inserting a new id keeps ids distinct |
| VideoFeed.SortByDistinct | backend/src/controllers/video.controller.js:50-58 | sorting keeps ids distinct |
| VideoFeed.DistinctTail | backend/src/controllers/video.controller.js:50-58 | the tail of a duplicate-free sequence is duplicate-free and avoids the head's id |
| VideoFeed.DistinctCons | backend/src/controllers/video.controller.js:50-58 | a new id in front of a duplicate-free sequence keeps it duplicate-free |
| VideoFeed.SortDocs | backend/src/controllers/video.controller.js:50-58 | the `$sort` stage yields a permutation sorted by the key and direction, keeping ids distinct |
| VideoFeed.RunPush | backend/src/controllers/video.controller.js:18-82 | running a pipeline with one more pushed stage applies that stage to the previous result |
| VideoFeed.KeepShrinks | backend/src/controllers/video.controller.js:21-46 | a filter never lengthens the documents |
| VideoFeed.ApplyDrawnFrom | backend/src/controllers/video.controller.js:18-80 | one stage adds no document and every document it passes on carries the id and video of an input document |
| VideoFeed.RunDrawnFrom | backend/src/controllers/video.controller.js:82 | the aggregate returns at most as many documents as the collection holds, each with the id and video of a stored one |
| VideoFeed.InitialDocs | backend/src/controllers/video.controller.js:82 | one document per stored video, in id order |
| VideoFeed.InitialDocsContents | backend/src/controllers/video.controller.js:82 | the initial documents are exactly the stored videos, each once |
| VideoFeed.InitialDocsAt | backend/src/controllers/video.controller.js:82 | the `i`-th initial document is the `i`-th stored video in id order |
| VideoFeed.OwnerFilter | backend/src/controllers/video.controller.js:33-43 | an owner filter exists exactly for a well-formed `userId` |
| VideoFeed.FeedOrder | backend/src/controllers/video.controller.js:48-58 | the requested field and `asc` direction when both are given, otherwise `createdAt` descending |
| VideoFeed.FeedStagesShape | backend/src/controllers/video.controller.js:18-80 | 400 iff `userId` is malformed; otherwise `$search` is the first stage when a query is given, and the last four are the published match, the sort, the owner lookup and the unwind |
| VideoFeed.FiltersMembers | backend/src/controllers/video.controller.js:21-46 | the optional stages hold a search exactly for a truthy query and an owner match exactly for a given owner |
| VideoFeed.FeedStagesFilters | backend/src/controllers/video.controller.js:18-46 | the pipeline holds a search exactly for a truthy query and an owner match exactly for a valid `userId` |
| VideoFeed.BuildFeedPipeline | backend/src/controllers/video.controller.js:18-80 | a malformed `userId` fails; otherwise the pushed stages end with the published filter, the sort, the owner lookup and the unwind |
| VideoFeed.FilterStep | backend/src/controllers/video.controller.js:21-46 | pushing a filtering stage keeps exactly the documents that pass it, each once |
| VideoFeed.RunFilters | backend/src/controllers/video.controller.js:21-46 | any pipeline of filtering stages keeps exactly the documents passing all of them, without duplicates |
| VideoFeed.FeedFiltersOnlyFilter | backend/src/controllers/video.controller.js:21-46 | the stages pushed before the sort are all filters |
| VideoFeed.PassesFeedFilters | backend/src/controllers/video.controller.js:21-46 | passing them means matching the query if given, having the owner if given, and being published |
| VideoFeed.FilterPhase | backend/src/controllers/video.controller.js:21-46 | after the filters, exactly the eligible published videos remain, each once |
| VideoFeed.LookupKeepsOrder | backend/src/controllers/video.controller.js:60-80 | the owner lookup keeps the sort order and distinct ids |
| VideoFeed.LookupUnwindMembers | backend/src/controllers/video.controller.js:60-80 | after lookup and unwind, exactly the documents whose owner exists remain, with that owner's card |
| VideoFeed.TailPhase | backend/src/controllers/video.controller.js:50-80 | sort, lookup and unwind give a sorted, duplicate-free list of exactly the documents with an existing owner |
| VideoFeed.RunTailStages | backend/src/controllers/video.controller.js:50-80 | the sort, lookup and unwind pushed last apply in that order |
| VideoFeed.FeedShape | backend/src/controllers/video.controller.js:18-82 | the feed is the filtered documents sorted, looked up and unwound |
| VideoFeed.CombinePhases | backend/src/controllers/video.controller.js:15-82 | a document is in the feed iff it is the listing of an eligible video |
| VideoFeed.FeedContents | backend/src/controllers/video.controller.js:15-82 | the feed holds exactly the published videos matching the search and owner filters whose owner exists, with owner card, sorted by the requested order, no video twice |
| VideoFeed.GetAllVideos | backend/src/controllers/video.controller.js:15-94 | fails 400 "Invalid userId" iff the `userId` is malformed; otherwise the requested page of the feed |
| VideoFeed.PageSorted | backend/src/controllers/video.controller.js:84-89 | every page of a sorted feed is sorted and drawn from it |
| VideoFeed.DefaultFeedIsNewestFirst | backend/src/controllers/video.controller.js:46-57 | without parameters the first page of 10 holds published videos of existing owners, newest first |
| Pagination.EffectivePage | backend/src/controllers/video.controller.js:84-87 | a requested page of at least 1 is used as given; a lower one is read as 1 |
| Pagination.EffectiveLimit | backend/src/controllers/video.controller.js:84-87 | a requested limit of at least 1 is used as given; a lower one is read as 10 |
| Pagination.PageCount | backend/src/controllers/video.controller.js:89 | the fewest pages of that size that hold all items |
| Pagination.DefaultRequestIsFirstTen | backend/src/controllers/video.controller.js:16 | a request without page and limit gets page 1 of size 10: the first ten items, no previous page |
| Pagination.RequestedOptionsAreUsed | backend/src/controllers/video.controller.js:16 | a requested page and limit of at least 1 are used; a left-out one takes its default |
| Pagination.Paginate | backend/src/controllers/video.controller.js:84-89 | the page holds items `offset ..` in order: `limit` of them, or all that remain when fewer do, none past the end; page and limit as requested when at least 1; totals and prev/next flags agree |
| Pagination.PageDrawnFrom | backend/src/controllers/comment.controller.js:79-87 | a page holds only items of the list it pages |
| Pagination.ItemOnItsPage | backend/src/controllers/video.controller.js:84-89 | item `i` appears on page `i / limit + 1` at position `i % limit` |
| Pagination.TwelveItemsSecondPage | backend/src/controllers/comment.controller.js:79-87 | 12 items at 5 per page: page 2 holds exactly items 5 to 9, and there are 3 pages |
| VideoController.NewVideo | backend/src/controllers/video.controller.js:126-140 | the created video is unpublished, not yet viewed, owned by the caller, with the uploads' assets and duration |
| VideoController.PublishError | backend/src/controllers/video.controller.js:97-124 | 400 iff a field is blank; then 400 for the video path iff the request has no files; a TypeError iff files are present but a field is missing; 400 "Videos file not found" for a failed video upload, then 400 "Thumbnail not found" for a failed thumbnail upload; no error iff both fields are present and both files uploaded |
| VideoController.PublishAVideo | backend/src/controllers/video.controller.js:97-151 | errors change nothing; success stores exactly the new video under a fresh id |
| VideoController.ProfileOf | backend/src/controllers/video.controller.js:182-224 | the owner's username, the number of subscriptions to them, and whether the viewer is a subscriber |
| VideoController.DetailOf | backend/src/controllers/video.controller.js:167-257 | present iff the video exists; its fields, its like count, whether the viewer liked it, and its owner's profile |
| VideoController.IncrementViews | backend/src/controllers/video.controller.js:264-268 | the video's views rise by one; no other video changes and no video appears |
| VideoController.AddToSet | backend/src/controllers/video.controller.js:271-275 | the id is in the history afterwards and nothing else is added; an id already there changes nothing, a new id is appended at the end |
| VideoController.AddToWatchHistory | backend/src/controllers/video.controller.js:271-275 | only the caller's history changes, by a set-add |
| VideoController.AddToSetIsSetInsert | backend/src/controllers/video.controller.js:271-275 | adding twice equals adding once, and a duplicate-free history stays so |
| VideoController.WatchHistoryIdempotent | backend/src/controllers/video.controller.js:271-275 | recording a video twice in the history equals recording it once |
| VideoController.GetVideoById | backend/src/controllers/video.controller.js:154-282 | 400 for a malformed video id or a caller without id, with no change; success exactly otherwise: the detail read before the updates, then views +1 and the history set-add, even for a missing video |
| VideoController.TwoViews | backend/src/controllers/video.controller.js:263-275 | two views add two to the count but one entry to the history |
| VideoController.MissingVideoEntersHistory | backend/src/controllers/video.controller.js:259-275 | for a missing video no detail is returned, yet its id enters the history |
| VideoController.NewLikeCounts | backend/src/controllers/video.controller.js:226-241 | a new like by the viewer raises `likesCount` by one and sets `isLiked` |
| VideoController.EditVideo | backend/src/controllers/video.controller.js:325-338 | title, description and thumbnail are replaced and nothing else changes |
| VideoController.UpdateError | backend/src/controllers/video.controller.js:289-323 | no error iff the id is well formed, title and description truthy, the video exists, the caller owns it and a thumbnail was uploaded; 404 for a missing video, 400 for a non-owner |
| VideoController.UpdateVideo | backend/src/controllers/video.controller.js:285-351 | errors change nothing; success replaces exactly that video with its edit |
| VideoController.DeleteError | backend/src/controllers/video.controller.js:357-372 | no error iff the id is well formed, the video exists and the caller owns it; 404 iff missing; 400 iff not the owner |
| VideoController.DeleteVideo | backend/src/controllers/video.controller.js:354-396 | errors change nothing; success removes the video, its likes and its comments, and nothing else |
| VideoController.DeleteLeavesNoTrace | backend/src/controllers/video.controller.js:374-391 | after the cascade no like or comment refers to the video and no detail exists |
| VideoController.TogglePublished | backend/src/controllers/video.controller.js:419-427 | only that video's `isPublished` is negated |
| VideoController.ToggleInvolution | backend/src/controllers/video.controller.js:419-427 | toggling twice restores the table |
| VideoController.ToggleError | backend/src/controllers/video.controller.js:402-417 | no error iff the id is well formed, the video exists and the caller owns it; 404 iff missing; 400 iff not the owner |
| VideoController.TogglePublishStatus | backend/src/controllers/video.controller.js:399-442 | errors change nothing; success flips the flag and returns its new value |
| CommentController.ViewOf | backend/src/controllers/comment.controller.js:23-75 | the comment's id, content, date and like count, and its owner's username alone when the owner is stored |
| CommentController.Matched | backend/src/controllers/comment.controller.js:17-57 | one view per comment on the video, each built from that comment |
| CommentController.MatchedAt | backend/src/controllers/comment.controller.js:17-22 | the `i`-th matched entry is the view of the `i`-th comment in id order |
| CommentController.MatchedComplete | backend/src/controllers/comment.controller.js:17-22 | every comment on the video has its entry among the matched ones |
| CommentController.CommentFeed | backend/src/controllers/comment.controller.js:58-62 | newest first |
| CommentController.CommentFeedSorts | backend/src/controllers/comment.controller.js:58-62 | sorting keeps the number of entries and exactly the entries |
| CommentController.CommentFeedContents | backend/src/controllers/comment.controller.js:17-76 | a view is in the feed iff it is the view of a comment on the video; one entry per comment |
| CommentController.GetVideoComments | backend/src/controllers/comment.controller.js:9-92 | a malformed id throws the cast error, a missing video throws "Video not founded"; otherwise the requested page of the comment feed |
| CommentController.PageNewestFirst | backend/src/controllers/comment.controller.js:58-87 | a page of a newest-first list is newest first |
| CommentController.CommentPageBelongsToVideo | backend/src/controllers/comment.controller.js:17-87 | every comment on a page belongs to that video, and the page is newest first |
| CommentController.CommentLikeCounts | backend/src/controllers/comment.controller.js:31-43 | a new like on a comment raises its `likesCount` by one |
| CommentController.AddComment | backend/src/controllers/comment.controller.js:95-122 | 400 without content, a cast error for a malformed id, 404 for a missing video, each with no change; success exactly otherwise, with exactly one new comment owned by the caller |
| CommentController.AddedCommentIsListed | backend/src/controllers/comment.controller.js:109-113 | a newly added comment appears in its video's feed |
| CommentController.OwnedComment | backend/src/controllers/comment.controller.js:133-141 | success iff the id is well formed, the comment exists and the caller owns it; cast error, 404 or 400 otherwise |
| CommentController.UpdateComment | backend/src/controllers/comment.controller.js:125-162 | 400 without content, then the ownership errors, each with no change; otherwise only the comment's content changes |
| CommentController.DeleteComment | backend/src/controllers/comment.controller.js:165-190 | ownership errors change nothing; success removes the comment and the caller's likes on it, and nothing else |
| CommentController.OthersLikesSurviveDelete | backend/src/controllers/comment.controller.js:178-183 | other users' likes on the deleted comment stay in the table |

## Left out

- Cloudinary uploads and deletions are external calls. Each file arrives as a `FileUpload` value: no file, a failed upload, or an upload with its URL, public id and duration. Deleting the old assets is not modelled.
- bcrypt hashing is left out: the stored `password` stands for its hash, and `isPasswordCorrect` is equality.
- JWT expiry and the clock are left out. A token is valid exactly when it carries the right secret's signature. jsonwebtoken's varying error messages are all one message, "invalid token".
- `parseInt` of the query string is not modelled: page and limit arrive as optional integers.
- `aggregatePaginate` is a library whose code is not part of this model. The model takes it to slice by offset, to read a page below 1 as 1, and to read a limit below 1 as 10.
- `isValidObjectId` and Mongoose's ObjectId casting are abstracted: an id is either a well-formed `ObjectId` or `Malformed` text. A cast failure is `Thrown` with the cast-error message.
- Atlas `$search` is a full-text index that is not part of this model. It is a parameter that decides whether a query matches a title and description.
- `GetUserChannelProfile` does not model lower-casing in its `$match`. The source compares with a function reference, so the selection is a parameter.
- `getWatchHistory`, `getCurrentUser`, `updateUserAvatar` and `updateUserCoverImage` lie outside the modelled core.
- Concurrency is not modelled: every handler runs atomically. This includes the refresh race and the un-awaited `save` in the token generator.
- CommentController.GetVideoComments: for an existing video MongoDB rejects the source's pipeline, because `$cont` is not an operator, and the request fails with 500. The model is the pipeline with the `isLiked` field removed, and returns its page.
- CommentController.CommentFeed has no `isLiked` field, for the same reason.
- VideoFeed.SortDocs compares only `views`, `createdAt` and `duration`. Every other field shares one key, and Mongo's order among equal keys is taken to be input order.
- `Comment` is not imported in `video.controller.js` and `Like` is not imported in `comment.controller.js`, so those deletions throw at run time. The model gives `DeleteVideo` and `DeleteComment` the intended cascade.
- The like schema names its comment field `Comment`, but the lookups use `comment`. The model uses the lookups' name.
- Undefined body fields are not modelled. Registration and publishing take present strings. Updates take optional values, and Mongoose drops undefined ones. A login term that is absent matches no user.
- A missing `req.files.avatar` makes the source throw a TypeError. UserController.UserRegister reduces this to the 400 "avatar file is required" of a missing path.
- Text.ToLowerCase maps only the ASCII capitals. JavaScript's `toLowerCase` maps every Unicode capital ("É" to "é"); Unicode case tables are not part of this model.
- UserController.RotationRejectsAcceptedToken relies on every issued token being new, which the serial counter gives. Real JWTs carry no serial: two tokens signed for the same user within the same second are identical, and then the rotated token equals the accepted one.
- Response envelopes, cookies and HTTP success codes (200, 201, 203) are left out. Only the returned data is modelled.
- Timestamps: `createdAt` arrives as a `now` parameter, and `updatedAt` is not modelled.
- The views default of 0 comes from the video schema, which is not part of this model.
- UserRegister, RegisteredUserIsTaken, MixedCaseUsernameIsNotTaken and MixedCaseUsernameCannotLogIn assume a users schema with no `lowercase` or `trim` setter on `username` or `email`, and no unique index on either. The users schema is not part of this model. A setter would change the criteria of the `$or` lookups, because Mongoose applies setters when it casts query filters. A unique index would make the second registration of MixedCaseUsernameIsNotTaken fail with a duplicate-key 500.
- The 500 errors after a successful create, update or delete cannot occur in the model, because the store never fails.
