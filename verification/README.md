# Animeko notifications, socket gateway and page logic in Dafny

This project models the real-time notification path of Animeko, an anime
catalogue and social site:

- the backend socket gateway (`backend/utils/socket.js`): it authenticates a
  handshake, puts each connection in a per-user room, and emits the three
  push events to that room;
- the client notification store (`NotificationContext.jsx`): the cached list,
  the unread count and the loading flag, changed by socket pushes and by the
  REST actions (fetch, mark read, mark all read, delete, delete all);
- the notification bell (`NotificationBell.jsx`): visibility, the badge, the
  five-item window, navigation targets, icons, sender labels and relative times;
- the frontend API helpers (`frontend/src/utils/api.js`): the base and socket
  URLs, endpoint URL building, header precedence, the error classes of
  `apiCall`, and the library query string;
- the pure parts of the anime page (`AnimePage.jsx`): normalising the
  lists-containing-this-anime response, its pagination and "Load More", the
  review guards, reaction updates, the favourite check and episode durations.

The modules are:

- `Wrappers`: `Option` and `Result`.
- `Strings`: JavaScript string behaviour as the source uses it. This covers
  truthiness, number rendering, `replace` with a string pattern (first
  occurrence only), `split`, and `padStart`.
- `Notifications`: the notification record and the push events.
- `NotificationStore`, `NotificationBell`, `SocketGateway`, `Api` and `AnimePage`.

Every side effect is turned into data:

- A REST reply is a value: a network failure, or a response with an `ok` flag
  and a decoded body.
- JWT verification is a function parameter `verify`.
- The clock is a `nowMillis` argument.
- The build environment and the page location are an `Env` record.
- An emit returns the set of deliveries it causes.

## Model

| member | source | states |
|---|---|---|
| Strings.NatToString | frontend/src/components/NotificationBell.jsx:95 | a number renders as a non-empty digit string with no leading zero |
| Strings.NatToStringValue | frontend/src/components/NotificationBell.jsx:95 | reading the rendered digits back gives the number |
| Strings.NatToStringInjective | backend/utils/socket.js:42 | two numbers render alike exactly when they are equal |
| Strings.NatToStringLength | frontend/src/components/NotificationBell.jsx:95 | one digit exactly below 10, at most two below 100 |
| Strings.IntToString | frontend/src/pages/AnimePage.jsx:728 | negative numbers render with a leading minus sign |
| Strings.FindFrom | frontend/src/utils/api.js:5 | the result is the first occurrence of the pattern at or after the start, or none exists |
| Strings.IndexOf | frontend/src/utils/api.js:5 | the first occurrence of the pattern, or none when it does not occur |
| Strings.ReplaceFirst | frontend/src/utils/api.js:5 | `replace` with a string pattern changes only the first occurrence and leaves a text without one unchanged |
| Strings.ReplaceFirstOfPrefix | frontend/src/utils/api.js:13 | a text that starts with the pattern loses exactly that prefix |
| Strings.Split | backend/utils/socket.js:22 | at least one piece, none containing the separator |
| Strings.JoinSplit | backend/utils/socket.js:22 | joining the pieces of a split with the separator rebuilds the text |
| Strings.SplitJoin | backend/utils/socket.js:22 | splitting a join of separator-free pieces returns those pieces |
| Strings.SplitWithoutSeparator | backend/utils/socket.js:22 | a text without the separator is one piece |
| Strings.SplitAfterSeparator | backend/utils/socket.js:22 | a separator-free first word is the first piece and the rest is split on |
| Strings.PadStart | frontend/src/pages/AnimePage.jsx:728 | the result ends with the text, is at least the width long and is padded only with the fill character |
| Notifications.EventName | backend/utils/socket.js:63-81 | a new notification travels as `newNotification`, a count as `unreadCountUpdate` and a deletion as `notificationDeleted`, each name for its kind alone |
| Notifications.EventNameDistinguishesKinds | frontend/src/contexts/NotificationContext.jsx:53-69 | two events share a name exactly when they are of the same kind |
| NotificationStore.FindById | frontend/src/contexts/NotificationContext.jsx:234 | `find` returns an item with the id taken from the list, and nothing exactly when no item has the id |
| NotificationStore.RemoveById | frontend/src/contexts/NotificationContext.jsx:65 | `filter` keeps every item with another id, and only those; a one-item list is emptied exactly when its item has the id |
| NotificationStore.MarkRead | frontend/src/contexts/NotificationContext.jsx:173-179 | the items with the id become read and every other item is unchanged, positions kept |
| NotificationStore.MarkAllRead | frontend/src/contexts/NotificationContext.jsx:205-207 | every item becomes read, nothing else changes |
| NotificationStore.DecrementFloored | frontend/src/contexts/NotificationContext.jsx:181 | `Math.max(0, c - 1)`: one less, never below zero |
| NotificationStore.PushNew | frontend/src/contexts/NotificationContext.jsx:53-56 | a pushed notification goes in front of the cached list; the count is left for the server |
| NotificationStore.PushUnreadCount | frontend/src/contexts/NotificationContext.jsx:58-60 | the server's count replaces the local one; the list is untouched |
| NotificationStore.PushDeletion | frontend/src/contexts/NotificationContext.jsx:62-69 | the list becomes the list with that id filtered out, so no item keeps the id; the count and loading flag are untouched |
| NotificationStore.ApplyPush | frontend/src/contexts/NotificationContext.jsx:53-69 | each event is routed to its handler |
| NotificationStore.SocketEnabled | frontend/src/contexts/NotificationContext.jsx:26-27 | the socket exists only for a signed-in non-admin user with a token |
| NotificationStore.InitialFetchRuns | frontend/src/contexts/NotificationContext.jsx:97-102 | the initial fetch runs on mount and whenever the user, token or admin flag changes, and only when the socket is enabled |
| NotificationStore.InitialLoad | frontend/src/contexts/NotificationContext.jsx:97-102 | without a token nothing happens; otherwise loading ends, a delivered first page becomes the list and a delivered count the count, and each failed request keeps its part of the state |
| NotificationStore.OnSessionChange | frontend/src/contexts/NotificationContext.jsx:97-102 | a disabled session and an unchanged session fetch nothing, so signing out keeps the cached list; a new or changed enabled session ends loading and takes the delivered page and count |
| NotificationStore.SessionFetchIsRun | frontend/src/contexts/NotificationContext.jsx:97-102 | the effect's fetch is the action sequence "page 1, then the count" under the session's token |
| NotificationStore.HandleSocketEvent | frontend/src/contexts/NotificationContext.jsx:49-80 | connect, disconnect and connection errors only log, leaving the state unchanged |
| NotificationStore.FetchNotifications | frontend/src/contexts/NotificationContext.jsx:104-134 | without a token nothing happens; page 1 replaces the list and other pages append; a failed request keeps the list; loading always ends |
| NotificationStore.FetchUnreadCount | frontend/src/contexts/NotificationContext.jsx:136-158 | the delivered count replaces the local one; otherwise the count is kept |
| NotificationStore.MarkAsRead | frontend/src/contexts/NotificationContext.jsx:160-186 | only with a token and a confirmed response: the item is marked read and the count drops by one, floored at zero |
| NotificationStore.MarkAllAsRead | frontend/src/contexts/NotificationContext.jsx:188-218 | a confirmed response with a readable body turns the list into the same items all marked read and zeroes the count; otherwise nothing changes |
| NotificationStore.DeleteNotification | frontend/src/contexts/NotificationContext.jsx:220-248 | on confirmation the id is filtered out, and the count drops only when the first cached copy was unread |
| NotificationStore.DeleteAllNotifications | frontend/src/contexts/NotificationContext.jsx:250-269 | on confirmation the list empties and the count is zero |
| NotificationStore.MarkAllReadLeavesNoUnread | frontend/src/contexts/NotificationContext.jsx:205-208 | after marking all read no cached item is unread, which agrees with the zeroed count |
| NotificationStore.PushNewThenDeletionRestores | frontend/src/contexts/NotificationContext.jsx:53-69 | deleting a freshly pushed notification restores the earlier state |
| NotificationStore.PushUnreadCountIdempotent | frontend/src/contexts/NotificationContext.jsx:58-60 | a repeated count push changes nothing more |
| NotificationStore.PushDeletionIdempotent | frontend/src/contexts/NotificationContext.jsx:62-69 | a repeated deletion push changes nothing more |
| NotificationStore.RemoveByIdAppend | frontend/src/contexts/NotificationContext.jsx:65 | filtering distributes over concatenation |
| NotificationStore.InitialFetchesCommute | frontend/src/contexts/NotificationContext.jsx:97-102 | the two initial requests give the same state whichever reply lands first |
| NotificationStore.ReconnectDoesNotResync | frontend/src/contexts/NotificationContext.jsx:49-51 | a reconnect after any history leaves the store exactly as that history left it: nothing missed is re-fetched |
| NotificationStore.SnapshotOverridesHistory | frontend/src/contexts/NotificationContext.jsx:121-122 | whatever happened before, a delivered first page becomes exactly the cached list |
| NotificationStore.RunAppend | frontend/src/contexts/NotificationContext.jsx:104-269 | running two action sequences one after the other is running their concatenation |
| NotificationStore.CountStaysNonNegative | frontend/src/contexts/NotificationContext.jsx:181 | with non-negative server counts, the local count never goes negative under any action sequence |
| NotificationStore.CountUnreadAfterMarkRead | frontend/src/contexts/NotificationContext.jsx:173-179 | marking an id read removes exactly that id's unread items from the unread tally |
| NotificationStore.CountUnreadAfterRemove | frontend/src/contexts/NotificationContext.jsx:242 | filtering an id out removes exactly that id's unread items from the tally |
| NotificationStore.CountUnreadWithUniqueId | frontend/src/contexts/NotificationContext.jsx:234-235 | with unique ids an id has one unread item exactly when its first copy is unread |
| NotificationStore.CountUnreadBoundsWithId | frontend/src/contexts/NotificationContext.jsx:234-235 | one id's unread items are among all unread items |
| NotificationStore.MarkAsReadOfUnreadKeepsCount | frontend/src/contexts/NotificationContext.jsx:172-182 | marking an unread item read keeps the count equal to the unread items in the cache |
| NotificationStore.MarkAsReadOfReadItemDrifts | frontend/src/contexts/NotificationContext.jsx:181 | marking an already-read item read still decrements, so the count falls below the cache's unread items |
| NotificationStore.DeleteNotificationKeepsCount | frontend/src/contexts/NotificationContext.jsx:232-243 | deleting keeps the count equal to the unread items in the cache |
| NotificationStore.BulkMutationsAlignCount | frontend/src/contexts/NotificationContext.jsx:202-214 | mark-all-read and delete-all leave the count equal to the unread items in the cache |
| NotificationBell.NavigationUrl | frontend/src/components/NotificationBell.jsx:32-42 | a recommendation goes to the anime page of its related id and a friend event to the sender's profile; other kinds have no target |
| NotificationBell.IdTextInjective | frontend/src/components/NotificationBell.jsx:35-38 | distinct ids, and a missing id rendered as `null`, give distinct path texts |
| NotificationBell.NavigationUrlIdentifiesTarget | frontend/src/components/NotificationBell.jsx:32-42 | two notifications with the same target share its kind of page and its id |
| NotificationBell.Icon | frontend/src/components/NotificationBell.jsx:70-81 | the bell icon exactly for kinds without a target; the three known kinds have their own |
| NotificationBell.IsClickable | frontend/src/components/NotificationBell.jsx:141 | an item is clickable exactly for the three kinds with a target |
| NotificationBell.SenderLabel | frontend/src/components/NotificationBell.jsx:155 | display name, else user name, else "System"; never empty |
| NotificationBell.SenderLabelNamesTheSender | frontend/src/components/NotificationBell.jsx:155 | the label is one of the two sender names or "System", and only those two fields decide it |
| NotificationBell.Click | frontend/src/components/NotificationBell.jsx:44-56 | a click asks to mark read exactly the unread item, navigates to its target, and closes the dropdown exactly when there is a target |
| NotificationBell.FindCachedItem | frontend/src/contexts/NotificationContext.jsx:234 | with unique ids, `find` on an item's id returns that item |
| NotificationBell.ClickKeepsCountInStep | frontend/src/components/NotificationBell.jsx:46-48 | the mark-read a click triggers keeps the count equal to the unread items in the cache |
| NotificationBell.BadgeText | frontend/src/components/NotificationBell.jsx:93-97 | a badge exactly when the count is positive; "99+" above 99; one to three characters |
| NotificationBell.BadgeShowsExactCount | frontend/src/components/NotificationBell.jsx:95 | up to 99 the badge reads back as the exact count |
| NotificationBell.Recent | frontend/src/components/NotificationBell.jsx:83 | the first five items, or all when there are fewer |
| NotificationBell.ShowSeeAll | frontend/src/components/NotificationBell.jsx:200 | the "See All" footer appears exactly when the window hides items |
| NotificationBell.AgeOf | frontend/src/components/NotificationBell.jsx:61-66 | each age lands in the bucket whose range holds it, with the whole amount of its unit |
| NotificationBell.AgeMonotone | frontend/src/components/NotificationBell.jsx:63-66 | an older item never shows as more recent |
| NotificationBell.FormatTimeAgo | frontend/src/components/NotificationBell.jsx:58-68 | "Just now" exactly under a minute; then the whole minutes with "m ago", hours with "h ago" and days with "d ago"; a locale date, not modelled, exactly from a week on |
| NotificationBell.UnitTextsDiffer | frontend/src/components/NotificationBell.jsx:64-66 | "Nu ago" texts determine both the amount and the unit |
| NotificationBell.AgeTextFirstChar | frontend/src/components/NotificationBell.jsx:63 | only the under-a-minute text starts with `J` |
| NotificationBell.AgeTextShape | frontend/src/components/NotificationBell.jsx:64-66 | bucket texts are the amount, the unit letter and " ago" |
| NotificationBell.AgeTextInjective | frontend/src/components/NotificationBell.jsx:63-66 | distinct buckets never read the same |
| NotificationBell.RenderItem | frontend/src/components/NotificationBell.jsx:140-171 | each item shows its kind's icon, the sender label, its message, the anime title exactly when one is set, and its relative time; it is clickable exactly for the navigating kinds and offers mark-read exactly when unread |
| NotificationBell.Render | frontend/src/components/NotificationBell.jsx:30-200 | hidden without a user or for an admin; the badge, the dropdown when open, mark-all exactly with unread items, clear-all exactly with items, and the first five notifications each rendered as its item, in list order |
| NotificationBell.RenderAfterClearAll | frontend/src/components/NotificationBell.jsx:93-200 | after a confirmed "Clear All" the open bell has no badge, no buttons, no items and no footer |
| NotificationBell.RenderAfterMarkAll | frontend/src/components/NotificationBell.jsx:93-200 | after a confirmed "Mark all as read" the open bell keeps its items but has no badge, no mark-all button and no per-item mark-read button |
| SocketGateway.SecondWord | backend/utils/socket.js:22 | `split(' ')[1]` exists exactly when the header has a space, and holds no space |
| SocketGateway.SeveralWordsIffSpace | backend/utils/socket.js:22 | a header splits into two or more words exactly when it has a space |
| SocketGateway.BearerHeaderGivesToken | backend/utils/socket.js:22 | `Bearer <token>`, with or without more words, yields the token |
| SocketGateway.HandshakeToken | backend/utils/socket.js:22 | a truthy auth token wins, else the second word of the authorization header |
| SocketGateway.Authenticate | backend/utils/socket.js:20-35 | rejected for a missing token exactly when no truthy token exists, for an invalid one exactly when verification fails; admitted as the verified user |
| SocketGateway.RoomKey | backend/utils/socket.js:42 | the room is `user_` followed by digits that read back as the user id |
| SocketGateway.RoomKeyInjective | backend/utils/socket.js:42 | distinct users get distinct rooms |
| SocketGateway.InitializeSocket | backend/utils/socket.js:6-17 | the server starts with no connections and empty rooms |
| SocketGateway.GetIo | backend/utils/socket.js:55-60 | fails with "Socket.io not initialized" exactly before initialisation |
| SocketGateway.Connect | backend/utils/socket.js:20-42 | a rejected handshake changes nothing; an admitted one joins exactly the user's room |
| SocketGateway.Disconnect | backend/utils/socket.js:44-49 | the connection leaves every room and is forgotten; every other connection keeps its user and its room places |
| SocketGateway.DisconnectIdempotent | backend/utils/socket.js:44-49 | a second disconnect changes nothing more |
| SocketGateway.ConnectKeepsRoomsAgree | backend/utils/socket.js:42 | a fresh connection keeps every room member in its own user's room |
| SocketGateway.DisconnectKeepsRoomsAgree | backend/utils/socket.js:44-49 | disconnecting keeps every room member in its own user's room |
| SocketGateway.EmitToRoom | backend/utils/socket.js:63-81 | before initialisation nothing is sent; after it, every room member gets the event and no one else |
| SocketGateway.EmitNotificationToUser | backend/utils/socket.js:63-67 | `newNotification` reaches exactly the user's room |
| SocketGateway.EmitUnreadCountToUser | backend/utils/socket.js:70-74 | `unreadCountUpdate` reaches exactly the user's room |
| SocketGateway.EmitNotificationDeletionToUser | backend/utils/socket.js:77-81 | `notificationDeleted` reaches exactly the user's room |
| SocketGateway.EmitReachesOnlyRecipient | backend/utils/socket.js:63-67 | a push to a user reaches only connections authenticated as that user |
| SocketGateway.TwoTabsBothReceive | backend/utils/socket.js:42 | two connections of one user both receive a push |
| SocketGateway.RejectedHandshakeJoinsNothing | backend/utils/socket.js:24-34 | a rejected handshake joins no room |
| Api.ApiBaseUrl | frontend/src/utils/api.js:4 | the backend URL when set, else `/api`; never empty |
| Api.SocketUrl | frontend/src/utils/api.js:5 | the socket URL when set, else the backend URL with its first `/api` removed, falling back to the page's host on port 5000 when that removal leaves nothing or no backend URL is set |
| Api.SocketUrlCutsHostName | frontend/src/utils/api.js:5 | a backend at `https://api.example.com/api` gives `https:/.example.com/api` |
| Api.SocketUrlIntended | frontend/src/utils/api.js:5 | the configured socket URL wins and the result is never empty |
| Api.SocketUrlIntendedIsOrigin | frontend/src/utils/api.js:5 | for a backend at `<origin>/api` the socket connects to `<origin>` |
| Api.StripLeadingSlash | frontend/src/utils/api.js:16 | `/^\//` removes one leading slash if present |
| Api.BuildApiUrl | frontend/src/utils/api.js:10-17 | with a backend URL, slash-led endpoints lose their first `/api` and others gain a slash; without one the result always starts with `/api` |
| Api.ApiFetchUrl | frontend/src/utils/api.js:20-23 | the URL `apiFetch` requests is the one `buildApiUrl` builds |
| Api.BuildApiUrlOfApiEndpoint | frontend/src/utils/api.js:13 | with a backend URL, `/api<rest>` maps to the backend URL followed by `<rest>` |
| Api.RelativeEndpointSlashIrrelevant | frontend/src/utils/api.js:16 | without a backend URL, an endpoint with or without a leading slash goes under `/api/` |
| Api.AuthHeaders | frontend/src/utils/api.js:38-41 | a bearer header exactly when a truthy token is stored |
| Api.RequestHeaders | frontend/src/utils/api.js:27-31 | caller headers win, then the auth header, then the JSON content type |
| Api.BearerSentIffStoredAndNotOverridden | frontend/src/utils/api.js:27-31 | unless the caller sets one, an Authorization header is sent exactly when a token is stored, and it carries that token |
| Api.ApiCall | frontend/src/utils/api.js:44-79 | a parsed OK body succeeds; 403 and 404 keep their own error classes with the body's message or a default; every other failure is prefixed "Network error: " |
| Api.ApiCallUrl | frontend/src/utils/api.js:45 | the `apiCall` URL is the base URL followed by the endpoint unchanged |
| Api.ApiCallUrlAgreesWithBuildApiUrl | frontend/src/utils/api.js:13-16 | for a slash-led endpoint without `/api` the `apiCall` URL and `buildApiUrl` agree |
| Api.ApiCallIsTryThenCatch | frontend/src/utils/api.js:52-78 | `apiCall` is its try block followed by its catch block: an error thrown in the try is reclassified in the catch |
| Api.CatchKeepsSpecialClasses | frontend/src/utils/api.js:73-78 | the catch turns exactly the plain errors into generic ones and keeps each thrown message at the end |
| Api.UserLibraryEndpoint | frontend/src/utils/api.js:101-104 | the status filter appears only when a status is given |
| Api.UserLibraryEndpointShape | frontend/src/utils/api.js:101-104 | a query string exactly when a status is given, and the path reads back as the user id |
| AnimePage.Overlay | frontend/src/pages/AnimePage.jsx:176-179 | every pagination field the server sends wins and the others are kept |
| AnimePage.OverlayIdempotent | frontend/src/pages/AnimePage.jsx:176-179 | overlaying twice is overlaying once; an empty patch changes nothing |
| AnimePage.HttpErrorMessage | frontend/src/pages/AnimePage.jsx:113-118 | the body's message if truthy, else "Failed to fetch lists"; for a non-JSON body the status line `HTTP <status> <text>` with exactly that length; never empty |
| AnimePage.FetchAnimeLists | frontend/src/pages/AnimePage.jsx:89-156 | no anime id or an abort gives no data; a rejected fetch fails with its own message; an array is one full page; `{data}` keeps the server's pagination or gets a one-page default; any other shape is an error |
| AnimePage.FetchContainingLists | frontend/src/pages/AnimePage.jsx:159-192 | success replaces on page 1 and appends later, merging pagination and clearing the error; failure sets the error and clears data only on page 1 |
| AnimePage.ListsHeading | frontend/src/pages/AnimePage.jsx:985 | "Appears in N List" with N the total item count, plural exactly unless N is one |
| AnimePage.ListsHeadingShowsTotal | frontend/src/pages/AnimePage.jsx:985 | the number in the heading reads back as the total item count |
| AnimePage.LoadMore | frontend/src/pages/AnimePage.jsx:214-217 | without an anime id nothing happens; loading ends, a page past the first keeps the shown lists as a prefix, and a failure keeps the pagination and sets the error |
| AnimePage.LoadMoreShown | frontend/src/pages/AnimePage.jsx:988-1006 | the button needs a non-empty, error-free list not loading its first page, with pages remaining |
| AnimePage.LoadMoreHiddenAfterFailure | frontend/src/pages/AnimePage.jsx:988-999 | a failed load hides the "Load More" button |
| AnimePage.LoadMoreKeepsShownData | frontend/src/pages/AnimePage.jsx:214-217 | past page one, loading more yields exactly the old lists followed by the new page on success, and exactly the old lists on failure |
| AnimePage.LoadMoreAdvancesPage | frontend/src/pages/AnimePage.jsx:214-217 | with a reply whose pagination echoes the next page, the current page advances by one, and the button stays only while pages remain |
| AnimePage.LoadMoreRequestsNextPage | frontend/src/pages/AnimePage.jsx:214-216 | the page requested is exactly the current page plus one: an unpaginated reply reports it back, and from page 0 the request is page 1, which replaces the data |
| AnimePage.OnePageReplyHidesLoadMore | frontend/src/pages/AnimePage.jsx:123-146 | a bare array, or `{data}` without pagination, leaves no "Load More" button |
| AnimePage.SubmitReviewGuard | frontend/src/pages/AnimePage.jsx:556-566 | the review is sent exactly with a token and a rating from 1 to 5; each guard has its own message |
| AnimePage.DeleteReviewGuard | frontend/src/pages/AnimePage.jsx:622-626 | deleting needs a token and an existing review |
| AnimePage.FirstFailing | frontend/src/pages/AnimePage.jsx:556-566 | a chain of early returns shows the message of its first failing check, and nothing exactly when every check passes |
| AnimePage.SubmitReviewGuardIsFirstFailing | frontend/src/pages/AnimePage.jsx:556-566 | the submit guard is the login check then the rating check, and ignores the review text |
| AnimePage.DeleteReviewGuardIsFirstFailing | frontend/src/pages/AnimePage.jsx:622-626 | the delete guard is the login check then the has-a-review check, with one message |
| AnimePage.UpdateReviewCounts | frontend/src/pages/AnimePage.jsx:689-695 | the matching reviews take the new counts and every other review is unchanged |
| AnimePage.HandleReactionChange | frontend/src/pages/AnimePage.jsx:687-702 | the user's reaction to that review is recorded and every other reaction is kept |
| AnimePage.ReactionChangeIdempotent | frontend/src/pages/AnimePage.jsx:687-702 | replaying the same reaction report changes nothing more |
| AnimePage.IsFavourite | frontend/src/pages/AnimePage.jsx:268 | true exactly when some favourite is this anime, with `NaN` ids matching nothing |
| AnimePage.JsRemainder | frontend/src/pages/AnimePage.jsx:727 | JavaScript `%`: the dividend is the truncated quotient times the divisor plus the remainder, which is smaller than the divisor and keeps the dividend's sign |
| AnimePage.JsRemainderOdd | frontend/src/pages/AnimePage.jsx:727 | negating the dividend negates the remainder |
| AnimePage.FormatDuration | frontend/src/pages/AnimePage.jsx:724-729 | "N/A" for a missing or zero duration, otherwise the minutes-and-seconds text |
| AnimePage.DurationText | frontend/src/pages/AnimePage.jsx:725-727 | the floored minutes, a colon and the seconds: padded to two digits for a positive duration, and for a negative one a minus sign on the minutes and, unless zero, on the seconds |
| AnimePage.FormatDurationOfMinus61 | frontend/src/pages/AnimePage.jsx:724-729 | minus 61 seconds reads "-2:-1" |
| AnimePage.FormatDurationRoundTrip | frontend/src/pages/AnimePage.jsx:724-729 | a positive duration's `m:ss` text reads back as the same number of seconds |

## Left out

- Network transport, JWT signature checking and the JWT secret are out of scope. The verifier is the `verify` parameter, and decoding a token into a payload without an `id` is not modelled.
- Socket.io options are out of scope: CORS, ping intervals, timeouts, transports and reconnection back-off. They shape delivery timing, not state.
- React scheduling is out of scope. Each handler is one atomic state transition. The socket-creation effect appears only as the `SocketEnabled` condition; the fetch effect is `OnSessionChange`.
- Effect cleanup and closing an old socket are not modelled. The listeners of a replaced socket are assumed gone.
- Logging is not modelled, including the disconnect reason filters in both files, because it has no effect on state.
- Request URLs and headers of the store's REST calls are not modelled; neither is the `limit` parameter. The server's answer to each request is an input.
- `useNotifications` outside a provider is out of scope because it is a React error.
- NotificationStore.FetchUnreadCount: a response body without a `count` field would set the count to `undefined`. The model's body is always a number.
- Ids are compared with strict equality in the source. Number-versus-string mismatches between socket payloads and REST data are not modelled; every id is a number here.
- SocketGateway.HandshakeToken: a missing `handshake.auth` object and non-string tokens are not modelled. The JavaScript would throw and then reject with "Invalid token", or stringify the token.
- SocketGateway.Disconnect models socket.io's automatic room leave. The source's handler only logs.
- NotificationBell.FormatTimeAgo: the week-or-more bucket renders `toLocaleDateString()`, which depends on the locale and is modelled as no text. The UI interactions are not modelled: outside-click closing, the close button, the aria label and CSS classes.
- The anime page's fetches other than the lists request are left out: anime details, reviews, episodes, library status, favourite toggling. The same applies to the modals, `roundToHalf` (floating point) and the voice-actor, character and genre pages. None of them is part of the notification path.
- AnimePage.FetchAnimeLists: the request URL `/api/lists/anime/<id>?page=<page>&limit=6` (including the fixed `limit=6`) and the headers, with their conditional Bearer token, are not modelled. Parsed bodies arrive already classified into the four shapes.
- AnimePage.FormatDuration takes whole seconds. A fractional duration (90.5 renders "1:30.5") is not modelled, because durations are integers here.
- AnimePage.IsFavourite takes ids already converted by JavaScript's unary `+`. The string-to-number conversion itself is not modelled.
- AnimePage.SubmitReviewGuard: a `NaN` rating is not modelled because ratings are integers here. The content trimming and the request that follows the guards are not modelled.
- The endpoint builders of `api.js` other than `fetchUserLibrary` are not modelled. They interpolate ids and encoded search terms into fixed paths, and the encoders (`encodeURIComponent`, `URLSearchParams`) are foreign.

## Findings

| source | as written | input that shows it | evidently intended | confidence | as-written member | corrected member |
|---|---|---|---|---|---|---|
| frontend/src/utils/api.js:5 | the socket URL is the backend URL with its first occurrence of `/api` removed | `VITE_BACKEND_URL = https://api.example.com/api` with no socket URL gives `https:/.example.com/api`, because the host name loses its `/api` | remove the trailing `/api` path, so the socket connects to `https://api.example.com` | high (not executed; follows from `String.prototype.replace` replacing only the first match) | Api.SocketUrlCutsHostName | Api.SocketUrlIntendedIsOrigin |
