# BookNest core in Dafny

BookNest is a book-exchange web application: users list books, request exchanges, chat about an
exchange, post in a forum and earn points that place them on a level (Bronze to Diamond) and a
leaderboard. This project models the server-side core of that application as pure functions over
an immutable document store, and proves properties of it.

- The store holds one sequence per collection: users, books, exchanges, messages, notifications
  and forum posts. A document's id is its position, so a new document's id is the collection's
  length and "newest first" is descending id order.
- Each API handler becomes a function from the store and the request to the reply and the new
  store. The reply is `Success(status, body)` or `Failure(status, error)`.
- Token verification is a partial map from token to user id. A signed-in session is the session
  user's e-mail.
- Pattern matching (`$regex`), the clock, the current year, the payload decoder of the browser
  token and the image host's answer are parameters.
- The User model's post-update hook runs after every `findByIdAndUpdate` on a user. It sees the
  record as it was before the update unless the update asks for the new one (`{ new: true }`).
  That record is read with the schema default of 0 points filled in, which is how Mongoose loads
  a document without stored points.

Modules, in dependency order:

- `Wrappers`: the `Option`, `Result` and `Reply` types and JavaScript truthiness.
- `Text`: string prefixes and infixes, number rendering, and splitting on a separator.
- `Points`: the level thresholds and the reward table.
- `Models`: the document shapes, their defaults and their schema validators.
- `Sorting`: the descending sort, skip/limit windows, pagination and counting.
- `Db`: the store, look-ups, listings in creation order and the user post-update hook.
- `Notify`: the notification builders.
- `Auth`: Bearer-token and session resolution of the caller.
- `Awards`: awarding points.
- `Sweeps`: the batch recomputations over all users.
- The handlers: `Exchanges`, `Books`, `Chat`, `Forum`, `Leaderboard`, `Inbox`, `Users` and
  `Upload`.
- The browser token check `AuthClient` and the request `Middleware`.

## Model

| member | source | states |
|---|---|---|
| Points.CalculateLevel | src/lib/points.js:5-11 | the level is the highest tier whose threshold the points reach, and the points stay below the next tier's threshold |
| Points.LevelIsUniqueByThresholds | src/lib/points.js:5-11 | any level whose threshold is reached while the next tier's is not is exactly the computed level |
| Points.CalculateLevelMonotone | src/lib/points.js:5-11 | more points never give a lower tier (Bronze < Silver < Gold < Platinum < Diamond) |
| Points.ThresholdReached | src/lib/points.js:5-11 | reaching a tier's threshold guarantees at least that tier |
| Points.UserMethodLevel | src/models/User.js:134-142 | the schema's `calculateLevel` method agrees with the library function on every total |
| Models.NewUser | src/app/api/auth/register/route.js:37-45 | a registered user starts at 0 points and Bronze (a level consistent with its points), rating 0, no books or ratings, and keeps the submitted fields |
| Models.ToJson | src/models/User.js:164-168 | the JSON form never carries the password and differs from the record in nothing else |
| Models.PreSave | src/models/User.js:145-150 | saving with modified points leaves a level consistent with them; only the level can change, and only then |
| Models.NewExchange | src/models/Exchange.js:4-78 | a new exchange is pending, active, without messages, and links the given requester, owner and book |
| Models.ParseMessageType | src/models/Message.js:26-30 | exactly the names text, image and system are message types |
| Models.NewNotification | src/models/Notification.js:32-50 | a new notification is unread, not e-mailed, of medium priority and carries the given fields |
| Models.NewPost | src/models/Forum.js:18-50 | a new post is unpinned, unlocked, without views, likes or replies, and last active at its creation time |
| Db.FindUserByEmail | src/app/api/books/my-books/route.js:19 | the result is the first user with that e-mail, or none when no user has it |
| Db.PostUpdateHook | src/models/User.js:153-161 | only the level changes. It becomes the computed level of the returned document's points, missing points read as the default 0, when that document is inconsistent; nothing changes otherwise |
| Db.UpdateUser | src/models/User.js:153-161 | only the updated record changes, and it equals the update apart from its level; an unknown id changes nothing |
| Db.UpdateReturningNewIsConsistent | src/models/User.js:153-161 | with `{ new: true }` the stored record always ends level-consistent, with or without stored points |
| Db.UpdateReturningOldLevel | src/models/User.js:153-161 | without `{ new: true }` an inconsistent pre-update record imposes the level of its old points (0 when absent) on the update; a consistent one leaves the update's level |
| Db.SaveNotification | src/models/Notification.js:9-31 | a notification is stored, appended, exactly when the schema validators accept it |
| Db.NewestFirst | src/app/api/books/my-books/route.js:51-54 | the listing holds exactly the documents matching the filter, each once, newest first |
| Db.OldestFirst | src/app/api/chat/route.js:58-63 | the listing holds exactly the documents matching the filter, each once, oldest first |
| Db.ListingsCount | src/app/api/books/route.js:73-79 | a listing's length equals the count of matching documents, as `countDocuments` reports it |
| Sorting.SortDesc | src/app/api/admin/sync-all/route.js:12 | the result is a permutation of the input whose keys descend, missing keys last |
| Sorting.SortDescStable | src/app/api/admin/sync-all/route.js:12 | the sort is stable: for every key, the documents carrying it come out in their stored order |
| Sorting.SortAllTied | src/app/api/admin/sync-all/route.js:12 | when every document carries the same key the sort leaves the order unchanged |
| Sorting.Window | src/app/api/books/route.js:69-77 | skip/limit keeps the documents from position skip on, at most limit of them, in order |
| Sorting.ParamOr | src/app/api/books/route.js:13-14 | an absent, unparseable or zero parameter falls back to the default; any other value is kept |
| Sorting.PageCount | src/app/api/books/route.js:88 | for a positive limit the page count is the ceiling of total over limit |
| Sorting.Paginate | src/app/api/books/route.js:84-92 | a next page is announced exactly when documents remain after this page, a previous one exactly when the page is past the first |
| Sorting.PageArithmetic | src/app/api/books/route.js:88-90 | `page < ceil(total / limit)` holds exactly when documents remain after the page |
| Text.Split | src/lib/auth-client.js:28 | splitting gives one more part than there are separators, and no part contains the separator |
| Text.JoinSplit | src/lib/auth-client.js:28 | joining the parts of a split with the same separator gives the string back |
| Notify.LevelUpRecord | src/lib/notifications.js:4-12 | a level-up notification is unread, of type level_up, for the user, and names the level and the point total |
| Notify.PointsRecord | src/lib/notifications.js:24-32 | a points notification is unread, of type points_earned, for the user, and names the amount and the reason |
| Notify.LeaderboardBand | src/lib/notifications.js:46-53 | positions up to 3 get the podium wording, 4 to 10 the top-ten wording, later ones the climbing wording |
| Notify.LeaderboardText | src/lib/notifications.js:46-53 | every wording names the position and the number of users |
| Notify.LeaderboardRecord | src/lib/notifications.js:55-61 | a leaderboard notification is unread, of type leaderboard_position, for the user, and names the position and total |
| Notify.CreateLevelUpNotification | src/lib/notifications.js:4-21 | the save always fails, because level_up is outside the type enum, and the failure is passed on |
| Notify.CreatePointsNotification | src/lib/notifications.js:24-41 | the save always fails, because points_earned is outside the type enum, and the failure is passed on |
| Notify.CreateLeaderboardNotification | src/lib/notifications.js:44-70 | the save always fails, because leaderboard_position is outside the type enum, and the failure is passed on |
| Awards.AwardPoints | src/lib/points.js:14-57 | a missing user throws "User not found" and changes nothing. Otherwise the points become the old total (missing read as 0) plus the delta and the level that sum's level, with nothing else changed. A points notification is always attempted, and a level-up one exactly when the level changed. |
| Awards.AwardStoresNoNotification | src/lib/points.js:37-50 | no notification is ever stored by an award, and the failures do not undo the points write |
| Awards.AwardsAccumulate | src/lib/points.js:21-32 | after any non-empty series of awards the total is the starting total plus every delta, and the level is that total's level |
| Awards.UpdateUserLevel | src/lib/points.js:60-81 | a missing user throws. Otherwise the level becomes the points' level, points and other users are untouched, a consistent store is left as it was, and the reply names the resulting level. |
| Awards.AddPointsToUser | src/lib/points-utils.js:6-39 | a missing user gives `false` and no write. Otherwise the points become old plus delta, and the reply reports the new points, level, delta and reason. The level is the new total's level when the record was consistent before, and the level of the old points otherwise. Nothing is notified and nothing throws. |
| Awards.AddPointsStaleLevelCounterexample | src/lib/points-utils.js:17-24 | a user stored at 40 points with a stale Gold level ends at 55 points but Bronze, not Silver, because the hook reads the pre-update record |
| Awards.AddPointsForBook | src/lib/points-utils.js:42-44 | adds exactly ADD_BOOK (15) to the user's points and changes nothing else but the level; succeeds exactly for a stored user |
| Awards.AddPointsForExchange | src/lib/points-utils.js:47-49 | adds exactly COMPLETE_EXCHANGE (20) to the user's points and changes nothing else but the level; succeeds exactly for a stored user |
| Awards.AddPointsForRating | src/lib/points-utils.js:52-54 | adds exactly GIVE_RATING (5) to the user's points and changes nothing else but the level; succeeds exactly for a stored user |
| Awards.AddPointsForFiveStarRating | src/lib/points-utils.js:57-59 | adds exactly RECEIVE_5_STAR_RATING (10) to the user's points and changes nothing else but the level; succeeds exactly for a stored user |
| Sweeps.ActivityPoints | src/app/api/admin/calculate-all-points/route.js:15-29 | a user is worth the reward rates times books held, completed exchanges, ratings and five-star ratings; this is never negative when the exchange count is not. The ratings counted are those the user has received. |
| Sweeps.RecomputeDisagreesWithAwards | src/app/api/admin/calculate-all-points/route.js:19-29 | the recomputation differs from incremental awarding: a user whose only activity is one five-star rating received is recomputed to 15 points but was awarded 10 |
| Sweeps.Recomputed | src/app/api/admin/calculate-all-points/route.js:32-38 | points are overwritten with the activity total whatever they were. The level is consistent afterwards when it was before, and otherwise it is the level of the OLD points. |
| Sweeps.RecomputeSettles | src/app/api/admin/calculate-all-points/route.js:14-42 | two recomputations always leave the level consistent, and a third changes nothing |
| Sweeps.RecomputeIdempotent | src/app/api/admin/calculate-all-points/route.js:14-42 | from a consistent record, running the recomputation twice gives what running it once gives |
| Sweeps.RecomputeStaleCounterexample | src/app/api/admin/calculate-all-points/route.js:32-38 | a stale record with 100 points at Bronze and no activity ends at 0 points but Silver after one run |
| Sweeps.CalculateAllPoints | src/app/api/admin/calculate-all-points/route.js:6-57 | without any credential check every user is recomputed, nothing else changes, and the updated count equals the user count |
| Sweeps.Synced | src/app/api/cron/sync-levels/route.js:17-21 | a synced user is level-consistent with unchanged points and other fields, and a consistent user is left alone |
| Sweeps.SyncStep | src/app/api/cron/sync-levels/route.js:17-21 | writing a stale user's level leaves that user synced, even though the hook reads the pre-update record |
| Sweeps.SyncLevels | src/app/api/cron/sync-levels/route.js:6-38 | every user ends synced with unchanged points, the updated count is the number of stale users, and the total is the user count |
| Sweeps.UpdatePoints | src/app/api/users/update-points/route.js:8-76 | an unauthenticated call is refused with the resolver's status and nothing changes. Any authenticated caller syncs every user, and the reply counts all users. |
| Sweeps.SyncVisit | src/app/api/admin/sync-all/route.js:16-24 | visiting a user leaves it synced and reports whether it was stale |
| Sweeps.AttemptLeaderboard | src/app/api/admin/sync-all/route.js:28-34 | a leaderboard notification attempt is caught and leaves the store unchanged |
| Sweeps.SyncEntry | src/app/api/admin/sync-all/route.js:15-35 | one loop iteration extends the visited prefix: the entry is synced, counted if stale, and attempted if in the top ten |
| Sweeps.SyncInOrder | src/app/api/admin/sync-all/route.js:15-35 | every visited user ends synced, the stale ones are counted, and attempts go to the first ten positions with the user total |
| Sweeps.SyncAll | src/app/api/admin/sync-all/route.js:12-42 | users are visited once each in descending points order, and every user ends synced. The updated count is the number of stale users. Positions 1 to min(10, n) get an attempt naming position and total. |
| Auth.BearerToken | src/app/api/books/route.js:108-116 | a token exists exactly when the header starts with "Bearer ", and the header is that prefix followed by the token |
| Auth.BearerTokenRoundTrip | src/app/api/books/route.js:108-116 | the token of a header built from a token is that token |
| Auth.BearerCaller | src/app/api/books/route.js:108-126 | a missing or malformed header gives 401 with the route's message and an unverifiable token gives 401 "Invalid token". Otherwise the caller is the token's user. |
| Auth.BearerAccepts | src/app/api/books/route.js:108-126 | a well-formed header with a verified token is always accepted as that token's user |
| Auth.SessionFirstCaller | src/app/api/books/my-books/route.js:14-47 | a session resolves to the stored user with its e-mail, or 404 when none exists. Without a session, the Bearer path decides. |
| Auth.SessionTakesPrecedence | src/app/api/books/my-books/route.js:17-27 | with a session, the Authorization header plays no part |
| Auth.SessionOrBearer | src/app/api/users/all/route.js:14-36 | any session, or else a verified Bearer token, admits the request; otherwise the Bearer path's message is returned |
| AuthClient.GetCurrentUser | src/lib/auth-client.js:22-47 | outside a browser or without a token nothing happens. A token not of three dot-separated parts, or whose payload does not decode, is removed. Otherwise the decoded payload is returned and the token kept. |
| AuthClient.IsAuthenticated | src/lib/auth-client.js:49-68 | true exactly for a kept, well-shaped token whose payload is an object with no `exp` at or before now; only a true result guarantees the token is kept |
| AuthClient.RejectionIsFinal | src/lib/auth-client.js:57-65 | once the check fails, the token it leaves behind fails again at any later time |
| Middleware.SomeRoute | src/middleware.js:17-19 | the route test holds exactly when the path is listed or starts with the prefix (for a non-empty list) |
| Middleware.IsPublicRoute | src/middleware.js:7-19 | a path is public exactly when it is one of the six listed routes or lies under /api/auth/ |
| Middleware.ListedRoutesMatchExactly | src/middleware.js:7-19 | /books is public while /books/42 is not |
| Middleware.AuthApiIsPublic | src/middleware.js:17-19 | every path under /api/auth/ is public, listed or not |
| Middleware.Handle | src/middleware.js:3-29 | the classification is the public-route predicate, and every request continues, public or not |
| Exchanges.ParseRole | src/app/api/exchanges/route.js:34-49 | only exactly "sent" and "received" select one side; anything else means either side |
| Exchanges.StatusFilter | src/app/api/exchanges/route.js:35-53 | no status filter exactly when the parameter is absent, empty or "all"; otherwise the given status |
| Exchanges.ListExchanges | src/app/api/exchanges/route.js:9-70 | Bearer authentication only. The reply holds exactly the caller's exchanges on the selected side with the selected status, newest first. |
| Exchanges.EitherIsSentOrReceived | src/app/api/exchanges/route.js:40-49 | listing either side lists exactly the sent ones together with the received ones |
| Exchanges.RequestNotification | src/app/api/exchanges/route.js:173-180 | the owner's notification is an unread exchange_request referring to the exchange; it validates exactly when the quoted title keeps it within 300 characters |
| Exchanges.RequestExchange | src/app/api/exchanges/route.js:72-202 | the guards run in order: 401, 404 user, 400 id, 404 book, 400 own book, 400 unavailable, 400 pending duplicate. Each refusal leaves the store unchanged. Once all pass, the effects are those of PlaceRequest with the message defaulting to "". |
| Exchanges.PlaceRequest | src/app/api/exchanges/route.js:146-193 | success, with 201 and the new id, exactly when the message and title are within bounds. The new exchange is pending, from the caller to the book's owner. The book becomes exchanging and the owner receives one notification; nothing else changes. |
| Exchanges.RequestKeepsPendingBooksWithdrawn | src/app/api/exchanges/route.js:128-171 | every pending request names a stored book that is no longer available, before and after any request |
| Exchanges.SecondRequestRefused | src/app/api/exchanges/route.js:128-133 | once a request succeeds, the same book cannot be requested again by any stored user |
| Books.OwnerConstraintOf | src/app/api/books/route.js:30-65 | a positive minimum rating overrides a location, which overrides the excluded owner; the exclusion applies only when neither is given |
| Books.Matching | src/app/api/books/route.js:27-79 | every book the query matches exactly once, in creation order by sortOrder, as many as `countDocuments` reports |
| Books.BrowseBooks | src/app/api/books/route.js:8-102 | page 1 and limit 12 by default. The reply is 500 exactly when the search or location pattern does not compile or the skip is negative. The listed books are exactly the `(page-1)*limit` skip and `limit` window of the matching books in creation order by sortOrder, so they all match, and the pagination counts every matching book. |
| Books.MinRatingOverridesExclusion | src/app/api/books/route.js:59-65 | with a positive minimum rating, the excluded owner's books are listed again when that owner is rated high enough |
| Books.NonZero | src/app/api/books/route.js:157-159 | a zero or absent number is stored as null, any other number kept |
| Books.BookFromForm | src/app/api/books/route.js:148-161 | the new book belongs to the caller and is available, with no views and active. The isbn defaults to "", the language to English, year and page count to null and tags to empty. |
| Books.PushOwnedBook | src/app/api/books/route.js:164-166 | the owner's list gains the book id, the owner ends level-consistent through the hook, and nothing else changes |
| Books.StoreBook | src/app/api/books/route.js:163-168 | the book is appended; only the owner's books, points (plus 15) and level change, and the level ends consistent |
| Books.AddBook | src/app/api/books/route.js:104-184 | 401, then 400 unless all six required fields are non-empty, then 500 when the validators refuse the book. On success the book is appended and its id is pushed onto the owner's list. The owner gains 15 points and ends with a level consistent with them; the owner's other fields and every other user stay unchanged, and the reply is 201 with the id. |
| Books.MyBooks | src/app/api/books/my-books/route.js:9-67 | session first, then Bearer. The reply holds exactly the caller's available books, newest first, and nothing is written. |
| Books.VerifyOwnership | src/app/api/books/verify-ownership/route.js:7-68 | 401, then 404 for an unknown book, then 500 for an unstored owner. The verdict holds exactly when the owner's book list contains the book; nothing is written. |
| Books.AddedBookOwnershipCorrect | src/app/api/books/verify-ownership/route.js:41-58 | a book just added by a stored user passes the ownership check |
| Chat.GetMessages | src/app/api/chat/route.js:8-74 | 401, 400 missing id, 404 unknown exchange, 403 for a non-party; otherwise exactly the thread's undeleted messages, oldest first |
| Chat.Counterpart | src/app/api/chat/route.js:144-146 | the receiver is a party of the exchange and, between two different users, never the sender |
| Chat.BuildMessage | src/app/api/chat/route.js:148-161 | a message is built exactly for a type in the enum. The content defaults to "", a missing image URL is null, and it is unread and not deleted. |
| Chat.SendMessage | src/app/api/chat/route.js:76-191 | the guards run in order: 401, 404 user, 400 id, 400 text without content, 400 image without URL, 404 exchange, 403 non-party. Every refusal leaves the store unchanged. On success the message is appended and its id pushed onto the exchange's list. |
| Chat.PostMessage | src/app/api/chat/route.js:148-161 | success exactly when the built message validates. It is then appended with the next id, which is also added to the exchange's message list; nothing else changes. |
| Chat.SentMessageIsListedLast | src/app/api/chat/route.js:58-63 | a message just sent is the last one the sender's thread view lists and the last in the exchange's list |
| Chat.AnyStatusAdmitsMessages | src/app/api/chat/route.js:128-161 | the exchange's status plays no part in admitting a message |
| Chat.MessageGoesToOtherParty | src/app/api/chat/route.js:144-146 | sender and receiver are both parties, and distinct for an exchange between two users |
| Forum.FieldOf | src/app/api/forum/route.js:16 | the sort field defaults to lastActivity, and exactly "createdAt" and "views" select those fields |
| Forum.RankPosts | src/app/api/forum/route.js:35-36 | a permutation of the selected posts ordered by the field, descending or ascending |
| Forum.Ranked | src/app/api/forum/route.js:20-47 | every selected post exactly once, as many as the query counts, ordered by the field in the requested direction |
| Forum.UnknownFieldKeepsCreationOrder | src/app/api/forum/route.js:35-36 | a `sortBy` outside lastActivity, createdAt and views lists the selected posts in creation order, in either direction |
| Forum.ListPosts | src/app/api/forum/route.js:7-70 | page 1 and limit 10 by default. The reply is 500 exactly when the search pattern does not compile or the skip is negative. Otherwise the reply is the requested window of the ranked selection, with pagination over every selected post. |
| Forum.DefaultOrderIsMostRecentActivity | src/app/api/forum/route.js:12-17 | with no parameters the first ten posts are listed, most recently active first |
| Forum.CreatePost | src/app/api/forum/route.js:72-134 | 401, then 400 "Title and content are required". The post defaults to category general and no tags. Success is exactly a valid post by a stored author, who gains 10 points. An unstored author gets 500 while the post stays. |
| Leaderboard.CriterionOf | src/app/api/leaderboard/route.js:18-30 | exactly "exchanges" and "rating" select those criteria; anything else ranks by points |
| Leaderboard.Ranking | src/app/api/leaderboard/route.js:18-35 | every user exactly once, in descending order of the criterion |
| Leaderboard.GetLeaderboard | src/app/api/leaderboard/route.js:7-56 | no authentication; type "points" and limit 10 by default. Rows are ranked 1, 2, … in descending criterion order, there are min(limit, users) of them, and the total counts every user. |
| Leaderboard.BoardHoldsTheTop | src/app/api/leaderboard/route.js:32-41 | no user left off the board ranks above the last listed one |
| Inbox.GetNotifications | src/app/api/notifications/route.js:8-68 | session first, then Bearer. The reply is the caller's notifications, min(count, 20) of them, newest first, and every omitted one is older than every listed one. |
| Inbox.NewestPrefix | src/app/api/notifications/route.js:53-55 | a prefix of a newest-first listing holds the newest matching documents |
| Inbox.MarkAllRead | src/app/api/notifications/route.js:119-122 | exactly the caller's notifications are marked read, the others untouched |
| Inbox.MarkRead | src/app/api/notifications/route.js:70-134 | with an id, that notification is marked read whoever it addresses, and an unknown id changes nothing. Without one, all of the caller's are marked read. Only the read flag changes. |
| Inbox.MarkAllEmptiesInbox | src/app/api/notifications/route.js:114-122 | after marking all read the inbox lists only read notifications, and doing it again changes nothing |
| Inbox.MarkByIdIgnoresAddressee | src/app/api/notifications/route.js:116-118 | any authenticated caller can mark any stored notification as read |
| Users.AccountOf | src/app/api/auth/register/route.js:58-67 | the reply's account carries the user's id and public fields and has no password field |
| Users.Register | src/app/api/auth/register/route.js:13-68 | the checks run in order: 400 missing fields, then 400 short password, then 400 taken e-mail. Every refusal leaves the store unchanged. Success, exactly when all pass and the schema accepts the user, appends the new user (bio "" by default) and replies with its account. |
| Users.RegisterThenSignIn | src/app/api/auth/register/route.js:28-45 | registration keeps e-mails unique, and a session for the new e-mail resolves to the new user |
| Users.SecondRegistrationRefused | src/app/api/auth/register/route.js:28-34 | registering the same e-mail again is refused with "User with this email already exists" |
| Users.ProfileOf | src/app/api/auth/me/route.js:67-84 | the profile carries the user's fields, with missing points read as 0 |
| Users.GetMe | src/app/api/auth/me/route.js:8-93 | session first, then Bearer with "Not authenticated". A token whose user is not stored gets 404. Otherwise the reply is the caller's profile. |
| Users.Edited | src/app/api/auth/me/route.js:136-141 | name and e-mail change only to non-empty values. Location, bio and picture change whenever given, an empty string included. Nothing else changes. |
| Users.UpdateMe | src/app/api/auth/me/route.js:95-178 | 401, then 400 for an e-mail another user has, then 500 for an over-long field or an empty location, then 404. Every refusal leaves the store unchanged. Success stores the edited record and replies with its account fields and verification flag. |
| Users.UpdateThenRead | src/app/api/auth/me/route.js:143-154 | an accepted edit keeps e-mails unique, and reading the profile back shows the edited fields |
| Users.SummaryOf | src/app/api/users/all/route.js:50-83 | the reported count is always the number of completed exchanges the user took part in, on either side, because the undeclared `exchangesCompleted` path always reads as 0 |
| Users.Repaired | src/app/api/users/all/route.js:62-67 | the write-back stores no count (strict mode strips the undeclared path), so only the level can change: users with completed exchanges end level-consistent through the post-update hook, and every other user is untouched |
| Users.ListUsers | src/app/api/users/all/route.js:7-96 | admitted by any session or a verified token, else 401. Every user is listed once, newest first, with the fresh count of completed exchanges, and the write-back is applied. |
| Users.ListingSettles | src/app/api/users/all/route.js:48-67 | a second listing replies the same and changes nothing |
| Upload.ValidateImageFile | src/app/api/upload/route.js:4-21 | valid exactly for a present file of an allowed type up to 32 MiB. The checks run in order: missing file, then type, then size, each with its own message. |
| Upload.ImgbbValidateImageFile | src/lib/imgbb.js:66-83 | valid exactly for a present file of an allowed type up to 32 MiB; every refusal carries one of the three messages |
| Upload.ValidatorsAgree | src/lib/imgbb.js:66-83 | the two validator copies agree on every input, messages included |
| Upload.SizeLimitInclusive | src/app/api/upload/route.js:16-18 | exactly 32 MiB passes and one byte more is refused |
| Upload.UploadImage | src/app/api/upload/route.js:74-115 | 400 "No file provided" for a missing file, then 400 with the validator's message. Otherwise the host's answer decides: 200 with its details, or 500 with its message or a fixed one. |
| Upload.NoFileSelectedNeverReplied | src/app/api/upload/route.js:79-90 | the validator's "No file selected" never reaches a client |

## Left out

- I/O and foreign calls are outside the model: the database connection, e-mail sending (its
  failures are swallowed in every modelled handler, and the chat handler's step never sends,
  because it reads an undefined `receiver`), sockets, NextAuth and OAuth, password
  hashing, JWT signing and verification, and the ImgBB request and `fileToBase64`. Token
  verification is a map. A session is the e-mail it carries. The image host's answer is a
  parameter.
- Pattern matching: Mongo `$regex` semantics with the `i` option are the parameter
  `matches(pattern, text)`, and whether a pattern compiles is the parameter `valid(pattern)`; a
  pattern that does not compile makes the listing fail with 500. JavaScript's `RegExp` and the
  database's regex engine are not told apart. The e-mail format regex of the User schema, `trim` and lower-casing
  are not modelled.
- Lengths: string bounds count sequence elements, while JavaScript counts UTF-16 code units.
- Ids: a document id is its position. Casting a malformed id (which makes Mongoose throw, giving
  500) is not modelled, and neither are deletions.
- Timestamps: creation order is insertion order. Date values are integers, and the clock `now`
  and the current year are parameters.
- Sorting: the sort is stable (Sorting.SortDescStable), so ties keep stored order. The document
  store does not promise any tie order; stored order is one it may give.
- Sessions without an e-mail: a session is modelled as always carrying one.
- Concurrency: execution is sequential. The race between `$inc` and the read in `awardPoints` is
  not modelled, and neither is the post-update hook's asynchronous save.
- The approve, reject, complete, cancel and rate transitions of an exchange live in a handler
  outside this model, so only request creation, the status enum and listing are modelled.
- `ForumReply`, the reply reward REPLY_FORUM_POST and the React pages, components and hooks are
  not part of this model.
- Response fields that only populate referenced documents (`populate`) or echo timestamps are
  not modelled. Replies carry ids, account fields or profiles instead.
- Books.BrowseBooks: sorts by creation time only, in the requested direction. Another `sortBy`
  field is not modelled, and the handler's debug logging is left out.
- Forum.ListPosts: a `sortBy` other than lastActivity, createdAt or views is treated as a key
  every post ties on, so the posts come out in creation order
  (Forum.UnknownFieldKeepsCreationOrder).
- Leaderboard.GetLeaderboard: rows carry the user id and rank, not the selected user fields. The
  rating criterion's secondary key `totalRatings` is not a User field, so it ties every user.
- Models.ValidUser: the update validators that the profile update runs are modelled only for the
  length bounds of name and bio and the refusal of an empty location (Users.EditValid). The
  e-mail format check is left out.
- Users.UpdateMe: a non-empty location is accepted. The location's `required` function reads
  `this.isGoogleUser`, and what `this` is during an update validator is Mongoose's choice. If it
  is nothing at all, the function throws and every location edit fails with 500; the model does
  not follow that reading.
- Users.Repaired: `exchangesCompleted` is not a path of the User schema, so the model has no such
  field. The listing's read of it is 0 and its write-back is stripped by strict mode. The update
  is modelled as still running the post-update hook on the unchanged record.
- Users.Register: the reply's token is not modelled; the new user's id stands for it.
- Awards.AddPointsToUser: the level ends consistent only for a record that was consistent before.
  For a stale record the post-update hook reads the pre-update document and sets the level of the
  old points, as Awards.AddPointsStaleLevelCounterexample shows.
- Sweeps.CalculateAllPoints: for the same reason, the level is guaranteed consistent only for
  records consistent before the run (Sweeps.Recomputed, Sweeps.RecomputeSettles).
- Sweeps.ActivityPoints: the recomputation follows the code, not the intent that it reproduce
  incremental awarding. It counts the ratings a user has received at 5 points each, whereas
  incremental awarding gives those 5 points to the rater. It also counts the books a user holds
  now, and a completed exchange moves a book to the requester. So the two totals can differ, as
  Sweeps.RecomputeDisagreesWithAwards shows.
- AuthClient.GetCurrentUser: base64 and JSON decoding of the payload is the parameter `decode`,
  with `None` when it throws.
- Negative limits: a negative `limit` is taken by its absolute value, as the document store
  does.
