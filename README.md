# Listing lifecycle of the food-donation server, in Dafny

This project models the server side of a food-donation board. "Helper"
accounts publish listings and "ngo" accounts accept them. The model covers:

- the in-memory repository `MemStorage`: two maps and two id counters;
- the HTTP handlers that create, accept and list listings;
- the server's WebSocket broadcast registry;
- the browser's reconnecting WebSocket client.

A listing starts `available`. `acceptListing` may move it to `accepted`.
`updateListingStatus` forces it to `expired`. Time is an integer number of
milliseconds, passed to each call as `now`.

Files and modules:

- `schema.dfy` (`Schema`): the `users` and `listings` records, the `status`
  and `role` enumerations, and the fields a caller may supply.
- `repo.dfy` (`Repo`): the repository state as a value (`Tables`). Every
  storage operation is a function from the old state to the new one. The
  read queries are here, and so are the lemmas about any sequence of
  storage calls.
- `storage.dfy` (`Storage`): class `MemStorage`. Its mutating methods update
  the fields in place. Each one is specified by the matching `Repo` function.
- `hub.dfy` (`ServerSocket`): the broadcast message type, the server's
  socket handles, and the `Hub` class holding the `clients` set.
- `routes.dfy` (`Routes`): the handlers as methods over a `MemStorage` and a
  `Hub`. The accept handler is split at its `await`. `AcceptBegin` covers
  the checks up to the read of the listing. `AcceptResume` covers the rest.
  With a storage implementation that does real I/O, other requests may run
  between the two halves; with the in-memory store they cannot. The value-level function
  `AcceptContinue` gives the meaning of the second half, so lemmas can talk
  about interleaved handlers.
- `client.dfy` (`LiveUpdates`): the client's module-level `ws` and
  `reconnectAttempts` as a class. Its transitions are pure functions, and
  lemmas cover whole runs of events.

Quirks of the code, kept as written:

- `acceptListing` never sets `acceptedAt` and does not check expiry.
- `updateListingStatus` overwrites any status.
- The active-listings query keeps `expiresAt > now`, but the accept handler
  expires only when `expiresAt < now`. At `expiresAt == now` a listing is not
  active, yet it can still be accepted (`Routes.ExpiryBoundary`).
- The `listing_expired` message carries the listing as it was read, still
  marked `available`.
- `createUser` does not enforce the declared uniqueness of usernames.

## Model

| member | source | states |
|---|---|---|
| Schema.ParseStatus | shared/schema.ts:25 | the status column accepts exactly the texts "available", "accepted" and "expired", and each parse gives back the status that prints as that text |
| Schema.StatusTextRoundTrip | shared/schema.ts:25 | every status parses back from its own text |
| Schema.ParseRole | shared/schema.ts:9 | the role column accepts exactly "helper" and "ngo", and each parse inverts the role's text |
| Schema.RoleTextRoundTrip | shared/schema.ts:9 | every role parses back from its own text |
| Repo.Empty | server/storage.ts:28-36 | a new store has empty maps, both counters at 1, and satisfies the store invariant |
| Repo.CreateUser | server/storage.ts:48-53 | the new user gets the old counter value as id and the counter goes up by one; the supplied fields are copied unchanged; no other user and no listing changes; the invariant is kept |
| Repo.GetUser | server/storage.ts:38-40 | finds a user exactly when the id is stored, and the record found is the stored one with that id |
| Repo.UsersUpTo | server/storage.ts:43 | the users map's values, in insertion order: exactly the stored users below the counter, with strictly increasing ids |
| Repo.FindByUsername | server/storage.ts:43-45 | finds nothing exactly when no user has the name; otherwise a user with that name, with the lowest id among them when ids increase |
| Repo.GetUserByUsername | server/storage.ts:42-46 | finds nothing exactly when no stored user has the name; otherwise the stored user with that name that was created first |
| Repo.CreateUserUniqueness | shared/schema.ts:7 | starting from unique usernames, creating a user keeps them unique exactly when the name was not taken; the store does not check this |
| Repo.LookupKeepsFirstUser | server/storage.ts:42-53 | creating a user whose name is taken does not change what a lookup by that name returns |
| Repo.NewListing | server/storage.ts:58-65 | the new record carries the supplied fields unchanged, the given id, creator and creation time, status available and no acceptor, and it expires 2 hours after creation |
| Repo.CreateListing | server/storage.ts:55-68 | the listing gets the old counter value as id, which is not yet in use, and the counter goes up by one; it is available, has no acceptor and expires at now + 7,200,000; no other listing and no user changes |
| Repo.GetListing | server/storage.ts:70-72 | finds a listing exactly when the id is stored; the record found is the stored one with that id |
| Repo.AcceptListing | server/storage.ts:80-91 | succeeds exactly when the id is stored and still available; on failure the store is unchanged; on success only that entry changes, to status accepted with the caller as acceptor and every other field, including expiresAt, as before |
| Repo.UpdateListingStatus | server/storage.ts:93-98 | an unknown id changes nothing; a stored listing becomes expired whatever its status was, keeps its acceptor and every other field, and no other entry changes |
| Repo.UpdateListingStatusIdempotent | server/storage.ts:93-98 | expiring twice gives the same store as expiring once |
| Repo.ListingsUpTo | server/storage.ts:75 | the listings map's values, in insertion order: exactly the stored listings below the counter, with strictly increasing ids |
| Repo.Filter | server/storage.ts:75-77 | keeps exactly the elements that pass the test, is never longer than its input, and keeps increasing ids increasing |
| Repo.FilterCounts | server/storage.ts:75-77 | a kept element occurs in the result exactly as often as in the input; a dropped element does not occur |
| Repo.FilterConcat | server/storage.ts:75-77 | filtering a concatenation concatenates the filtered parts, so the filter keeps the input's order whatever the ids |
| Repo.Values | server/storage.ts:75 | exactly the stored listings, in creation order |
| Repo.ActiveListings | server/storage.ts:74-78 | exactly the stored listings that are available and expire strictly after now, in creation order |
| Repo.ListingsByUser | server/storage.ts:100-104 | exactly the stored listings created by the user, in creation order |
| Repo.AcceptedListings | server/storage.ts:106-110 | exactly the stored listings whose acceptor is the user, so never-accepted listings are excluded; in creation order |
| Repo.Perform | server/storage.ts:48-98 | any single storage call keeps the store invariant, and only an accept call's result is recorded |
| Repo.RunAppend | server/storage.ts:48-98 | running two call sequences one after the other leaves the same store as running their concatenation |
| Repo.WinsAppend | server/storage.ts:80-91 | the successful accepts of a concatenated call sequence are those of its first part plus those of its second part, counted from the store the first leaves |
| Repo.PerformPreserves | server/storage.ts:80-98 | one storage call keeps every stored listing and its immutable fields; a listing that is no longer available stays that way and keeps its acceptor |
| Repo.NeverAvailableAgain | server/storage.ts:80-98 | after any sequence of storage calls, a listing that had left available has still not returned to it, keeps its acceptor, and its id, creator and expiry are never recomputed |
| Repo.SingleWinner | server/storage.ts:80-91 | in any sequence of storage calls at most one accept of a given listing succeeds, and none succeeds once the listing has left available |
| Storage.MemStorage.constructor | server/storage.ts:28-36 | starts from the empty store |
| Storage.MemStorage.GetUser | server/storage.ts:38-40 | on the current fields: finds a user exactly when the id is stored, and returns the stored record |
| Storage.MemStorage.GetUserByUsername | server/storage.ts:42-46 | on the current fields: finds nothing exactly when no stored user has the name; otherwise the stored user with that name and the lowest id |
| Storage.MemStorage.GetListing | server/storage.ts:70-72 | on the current fields: finds a listing exactly when the id is stored, and returns the stored record |
| Storage.MemStorage.GetActiveListings | server/storage.ts:74-78 | on the current fields: exactly the stored listings that are available and expire strictly after now, in creation order |
| Storage.MemStorage.GetListingsByUser | server/storage.ts:100-104 | on the current fields: exactly the stored listings the user created, in creation order |
| Storage.MemStorage.GetAcceptedListings | server/storage.ts:106-110 | on the current fields: exactly the stored listings whose acceptor is the user, in creation order |
| Storage.MemStorage.CreateUser | server/storage.ts:48-53 | returns the user with the old counter value as id and updates the fields as Repo.CreateUser says |
| Storage.MemStorage.CreateListing | server/storage.ts:55-68 | returns an available listing with a fresh id and the caller's fields, and updates the fields as Repo.CreateListing says |
| Storage.MemStorage.AcceptListing | server/storage.ts:80-91 | returns a listing exactly when the id was stored and available; otherwise nothing changes; the new state is Repo.AcceptListing's |
| Storage.MemStorage.UpdateListingStatus | server/storage.ts:93-98 | a stored listing becomes expired; the new state is Repo.UpdateListingStatus's |
| ServerSocket.TypeText | server/websocket.ts:5-8 | every message is tagged "listing_accepted" or "listing_expired", and the tag tells the two kinds apart |
| ServerSocket.Hub.constructor | server/websocket.ts:17 | the client set starts empty |
| ServerSocket.Hub.OnConnection | server/websocket.ts:19-21 | a connection adds its socket to the set |
| ServerSocket.Hub.OnClose | server/websocket.ts:25-28 | closing removes exactly that socket from the set |
| ServerSocket.Hub.Broadcast | server/websocket.ts:32-39 | each registered socket that is open gets the message appended exactly once; a socket that is not open, or not registered, gets nothing; no socket is added, removed or changes state |
| Routes.GetListings | server/routes.ts:18-27 | not authenticated gives 401; otherwise 200 with the active listings at now |
| Routes.PostListing | server/routes.ts:29-44 | 401 without a session and 403 for a non-helper, both leaving the store unchanged; an unparsable body gives 400 and leaves the store unchanged; otherwise 201 with a new available listing created by the caller, and nothing is broadcast (the handler has no hub) |
| Routes.AcceptBegin | server/routes.ts:46-50 | 401 without a session, then 403 for a non-ngo, before the store is read; otherwise the handler waits with the caller and the listing as read |
| Routes.AcceptContinue | server/routes.ts:51-63 | checks run on the listing as read, in order: missing gives 404; not available gives 400 "Listing not available"; `expiresAt < now` gives 400 "Listing expired", only then does it expire the listing, and it broadcasts one listing_expired message with the pre-update record; otherwise it calls acceptListing; a refusal gives 400 "Failed to accept listing" with no broadcast; success gives 200 with the updated record, acceptor = caller, and broadcasts that record as listing_accepted exactly once; the store changes only on the expiry and success paths |
| Routes.AcceptResume | server/routes.ts:51-63 | the second half of the handler leaves the answer, the store and the broadcasts that AcceptContinue gives; each registered socket that was open receives exactly those messages, the others receive nothing, and no socket changes its ready state |
| Routes.AcceptWithFreshSnapshot | server/routes.ts:50-63 | with nothing run between the read and the rest, the guards alone decide the answer; "Failed to accept listing" cannot occur, and no accepted or expired listing changes |
| Routes.PostAccept | server/routes.ts:46-64 | the whole handler run without interruption: the guard order of AcceptBegin, then AcceptContinue on the current listing, never answering "Failed to accept listing"; on 401 and 403 no socket receives anything; otherwise each open registered socket receives exactly AcceptContinue's messages; no socket changes its ready state |
| Routes.ExpiryBoundary | server/routes.ts:53 | at `expiresAt == now` the listing is already missing from the active listings, yet the accept handler accepts it |
| Routes.ContinueCalls | server/routes.ts:54-59 | the second half makes a storage call exactly when the listing as read is available, and then only one: updateListingStatus of that id when `expiresAt < now`, otherwise acceptListing of that id for the caller |
| Routes.ContinueIsItsCalls | server/routes.ts:54-62 | the second half changes the store only through its storage calls, and answers 200 exactly when its accept call wins |
| Routes.HandlersOneWinner | server/routes.ts:50-62 | two accept handlers that read the same listing never both answer 200, whatever storage calls run between their second halves |
| Routes.TwoAcceptorsOneWinner | server/routes.ts:50-62 | two ngo users read the same available listing and resume before it expires: the first gets 200, the second "Failed to accept listing"; the listing keeps the first acceptor; exactly one listing_accepted message goes out |
| Routes.StaleSnapshotExpiresAcceptedListing | server/routes.ts:50-56 | as written: a handler that read the listing before a competing accept, and resumes after expiry, turns the accepted listing into expired and broadcasts listing_expired with the stale record |
| Routes.AcceptContinueRechecked | server/routes.ts:52-56 | corrected second half: it never changes a listing that was not available; it broadcasts at most once; it answers 200 exactly when the handler as written does, with the same outcome; it differs from the handler as written only when the listing was read available and past expiry but the store no longer holds it as available, and then it answers "Listing not available" and changes and sends nothing |
| Routes.RecheckedAgreesOnFreshSnapshot | server/routes.ts:52-56 | the correction behaves exactly like the code when the read is current |
| Routes.RecheckedStaleSnapshot | server/routes.ts:52-56 | with the correction, the late handler answers "Listing not available", leaves the accepted listing alone and broadcasts nothing |
| Routes.GetMyDonations | server/routes.ts:66-72 | 401, then 403 for a non-helper; otherwise 200 with the caller's own listings |
| Routes.GetAccepted | server/routes.ts:74-80 | 401, then 403 for a non-ngo; otherwise 200 with the listings the caller accepted |
| LiveUpdates.ReconnectDelay | client/src/lib/websocket.ts:42 | the retry delay min(1000·2^attempts, 10000) always lies between 1 and 10 seconds |
| LiveUpdates.ReconnectDelayMonotone | client/src/lib/websocket.ts:42 | the delay never decreases as attempts grow |
| LiveUpdates.ReconnectDelayCapped | client/src/lib/websocket.ts:42 | from the fourth attempt on the delay is the 10-second cap |
| LiveUpdates.ReconnectDelays | client/src/lib/websocket.ts:42 | attempts 1 to 5 wait 2000, 4000, 8000, 10000 and 10000 ms |
| LiveUpdates.BroadcastsRefresh | client/src/lib/websocket.ts:24 | both message kinds the server broadcasts trigger a refresh on the client |
| LiveUpdates.Connect | client/src/lib/websocket.ts:7-14 | does nothing while a socket is held; otherwise it holds a socket unless the constructor throws; the counter is untouched |
| LiveUpdates.Opened | client/src/lib/websocket.ts:16-19 | opening resets the attempt counter to 0 and changes nothing else |
| LiveUpdates.Received | client/src/lib/websocket.ts:21-30 | exactly the two listing message types cause one refresh; other types and unparsable payloads change nothing |
| LiveUpdates.Closed | client/src/lib/websocket.ts:36-45 | the socket is dropped; below 5 attempts the counter goes up by one and exactly one reconnect is scheduled with the delay for the new count; at 5 nothing is scheduled; the counter never passes 5 |
| LiveUpdates.AttemptsBounded | client/src/lib/websocket.ts:40-41 | over any run of events the attempt counter stays at most 5 |
| LiveUpdates.RetriesWithoutOpen | client/src/lib/websocket.ts:36-44 | with no open in between, k closes schedule exactly min(k, 5 − attempts) reconnects, and the counter ends at min(attempts + k, 5) |
| LiveUpdates.GivesUpAfterFiveCloses | client/src/lib/websocket.ts:40 | after five closes with no open in between, later events without an open schedule no reconnect |
| LiveUpdates.LiveSocket.constructor | client/src/lib/websocket.ts:3-4 | starts with no socket and a zero counter |
| LiveUpdates.LiveSocket.ConnectWebSocket | client/src/lib/websocket.ts:7-14 | the new state is Connect's |
| LiveUpdates.LiveSocket.OnOpen | client/src/lib/websocket.ts:16-19 | the new state is Opened's |
| LiveUpdates.LiveSocket.OnMessage | client/src/lib/websocket.ts:21-30 | the new state is Received's |
| LiveUpdates.LiveSocket.OnClose | client/src/lib/websocket.ts:36-45 | the new state is Closed's, and the counter stays at most 5 |

## Findings

| source | as written | input that shows it | evidently intended | confidence | as-written member | corrected member |
|---|---|---|---|---|---|---|
| server/routes.ts:50-56 | the expiry branch decides on the listing as read before the await, and it calls `updateListingStatus` without re-checking the stored status | listing L is available with expiresAt = T. Ngo A and ngo B both read L. A resumes at now = T and accepts L. B resumes at now = T + 1. L becomes expired while keeping A as acceptor, and listing_expired goes out after listing_accepted | a listing that was accepted is never expired; the late request answers "Listing not available" | low for the in-memory store, whose awaited promises are already resolved so a handler runs to the end within one microtask drain; reachable with a storage implementation whose calls do real I/O; not executed | Routes.StaleSnapshotExpiresAcceptedListing | Routes.AcceptContinueRechecked |

The handler methods (`Routes.AcceptResume`, `Routes.PostAccept`) model the
code as written. `Routes.AcceptContinueRechecked` is the corrected second
half. `Routes.RecheckedAgreesOnFreshSnapshot` shows that the correction only
matters when another request ran during the await.

## Design intent versus code

Several operations admit a stricter reading than the code gives them. The
model follows the code:

- A stricter reading of the `acceptedAt` column (shared/schema.ts) would have
  accepting fill it in. `acceptListing` never sets it, and
  `Repo.WellFormed` records that it stays null.
- A stricter reading would have `acceptListing` refuse an expired listing.
  It does not look at `expiresAt`.
- A stricter reading would have expiring act only on an available listing.
  `updateListingStatus` overwrites any status.
- A stricter reading would use one threshold test for expiry everywhere.
  The code uses `expiresAt > now` in the active query and `expiresAt < now`
  in the accept handler.
- A stricter reading would broadcast the record after the transition. The
  accept handler sends the expired record as it was read.
- A stricter reading would have `broadcast` drop closed subscribers. The
  code only skips them; removal happens in the close handler.
- A stricter reading would sort the history views by time. The store
  returns them in insertion order.

## Left out

- Sessions, `setupAuth` and the memorystore session store: the session's user is a parameter (`None` when not authenticated).
- Express request and response framing: a response is a status code and a body. `sendStatus` bodies are `StatusOnly`.
- `parseInt` of the route's id: the id is an integer parameter. A non-numeric id finds no listing, as an unknown id does.
- Zod/drizzle parsing: `insertListingSchema.safeParse` is an `Option<ListingInput>`. `None` means the body did not parse, and the error details are not modelled.
- JSON serialisation of responses and messages.
- The `ws` library and the browser `WebSocket`: sockets are abstract handles with a ready state. `send` appends to a socket's `sent` list. The `error` handlers only log, so they are not modelled.
- `setTimeout`: a scheduled reconnect is recorded by its delay. Its firing is a `ConnectCall` event, so the order in which timers fire is not modelled.
- `window.location`: the URL the client connects to is not modelled.
- Console logging.
- The wall clock: each call takes one `now`. `createListing` reads the clock twice, and both reads are taken as `now`.
- The `sort` and `order` query parameters of GET /api/listings: the store ignores them.
- GET /api/users/count: it calls `getUserCount`, which `MemStorage` does not define, so it is not part of this model.
- The order of broadcasts between concurrent handlers: a handler's later awaits can delay its broadcast relative to other requests. The hub's `history` records broadcasts in the order the model makes them. `Routes.AcceptResume` states which sockets receive a broadcast from the clients registered and open when it resumes; in the code, sockets that register, open or close during its later awaits change that set.
- Routes.PostAccept: covers the accept handler only when no other request runs during its await. Interleavings are stated through `Routes.AcceptContinue` and the storage-call lemmas instead.
