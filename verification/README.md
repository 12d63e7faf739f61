# Verified model of the chat backend

This project models the stateful protocols of the chat backend in Dafny and proves what they keep over whole runs.
Where the program changes state step by step, the model has classes with the program's methods, each proved equal to a
specification function; the theorems are about runs of those functions.

- **Refresh tokens** (`RefreshTokens`, `RefreshTokenChains`, `RefreshTokenSafety`, `RefreshTokenLaws`,
  `RefreshTokenSimulation`, `RefreshTokenSessions`): login, rotation, grace replay, reuse detection, logout and reset over
  one token table. Every family is one chain, a token is used at most twice, how long a session lasts, who ends it, a dead
  family stays dead, and the SQL repository cannot be told from the in-memory one.
- **Room fan-out** (`FanOut`, `FanOutProofs`, `FanOutDelivery`, `Envelopes`, `FanOutObjects`): several instances on one Redis, each
  counting local connections per room and handlers per channel. Exactly-once delivery, what is left of it without
  well-behaved unsubscribes, and which unsubscribes cost it.
- **Messages** (`Messages`, `MessageLaws`, `MessageReplay`, `MessageChannels`, `MessagePaging`, `MessageObjects`): who may
  write, edit and delete what, and what is shown for ever after; the published events rebuild the table; when a channel carries only its own room's messages; a cursor walk stops by itself and is complete
  while the room is in use.
- **Rate limits** (`RateLimits`, `RateLimitProofs`, `RateLimitObjects`): tight bounds for the fixed window and the sliding
  log over every request trace, and an honest Retry-After.
- **UUIDv7** (`Uuid7`): layout, recoverable time and order, section 5.7 of RFC 9562.
- **Presence** (`Presence`, `PresenceNotices`, `PresenceTruth`, `PresenceObjects`) and **direct rooms** (`DirectRooms`,
  `DirectRoomObjects`, `DirectRoomAgreement`): protocols whose calls interleave at single Redis commands and single SQL
  statements.
- **Room roles** (`RoomRoles`, `RoomLaws`, `RoomObjects`) and **migrations** (`Migrations`).

Check everything with `dafny verify dfyconfig.toml`.

## Reading the model

A SQL statement or Redis command is one atomic step, a table is a map, pub/sub delivers to the current subscribers.
Except in `Presence`, `PresenceNotices`, `PresenceTruth` and `DirectRooms`, each call is one step. Generated ids and token
hashes are arguments required to be fresh; the clock is an argument and, except for the limiters, need not even advance.
Answers to queries of other parts (is the user a member, does the object exist in storage) are arguments too.

Results worth knowing before changing the code:

- A token whose replacement was itself replaced is refused even inside the grace window, and its family revoked: the code
  looks one link ahead only (`UsableTokens`). The plain path accepts a token that expires exactly now; the grace path refuses a
  replacement that does.
- The unit test at `tests/unit/auth/refresh-session.test.ts:64-85` speaks of revoking the family on any reuse. The code
  writes nothing when the reused token has no replacement; in reachable tables the family is dead by then all the same
  (`RefusedReplayLeavesFamilyDead`).
- An unsubscribe that names a room others on the instance are in, but not the connection, or names such a room twice,
  lowers a count it never raised; members who then leave one by one silence those who stay (`DeliveryAfterUnsubscribeIff`
  has the exact condition on the list, `StrayUnsubscribeSilences` a run).
- A retry of a send in another room publishes the old message, body included, on the new room's channel. A listener must
  compare room ids exactly because of such sends (`ChannelIsAboutRoomIff`, `TrustingListenerIff`).
- A fixed window with a limit below one still admits each window's opener; the sliding log with such a limit admits
  nobody, and there its Retry-After is not honest (`SlidingRetryAfterHonest`).
- A connection whose online and offline calls overlap, as when it closes before its online call has finished, can leave
  "online" as the last notice of an offline user; nothing else can (`RightExactlyWhenClear`). The gateway starts both calls
  without awaiting them (`src/infrastructure/ws/gateway.ts:58` and `:68`).
- Conversely "offline" can be the last word on an online user: an offline call that has already counted speaks after another
  connection came (`OfflineOvertakes`), or a heartbeat brings a connection back without a notice (`HeartbeatRevives`).
  `TruthfulExactlyWhenAdmitted` has the exact condition on beginning a call for both directions at once; while some
  connection stays, it admits everything but taking that one away (`AnchorAdmits`).
- The repository's README reserves removing members to admins and owners; the code lets every member leave, the owner
  included. A group can be deleted exactly as long as its creator has not left (`DeletableIffOwned`,
  `OwnerlessIffCreatorLeft`).

## Model

| member | source | states |
|---|---|---|
| `RefreshTokenChains.EveryFamilyIsOneChain` | src/application/use-cases/auth/refresh-session.ts:56-77 | After any run of logins, refreshes, logouts and resets from an empty table, hashes are unique and the rows of every family form one finite chain of one user. |
| `RefreshTokenChains.ChainRows` | src/application/use-cases/auth/refresh-session.ts:64-77 | What a chain means row by row: as many rows as links plus one, exactly one root, exactly one tail, `replacedById` and `parentId` inverse to each other, every replaced row revoked, at most one unrevoked row. |
| `RefreshTokenChains.ParentWalkEnds` | src/application/use-cases/auth/refresh-session.ts:69 | From row i of a chain the n-th parent is row i-n while n is at most i, and there is none beyond: the walk ends after the root. |
| `RefreshTokenChains.StepKeepsChains` | src/application/use-cases/auth/refresh-session.ts:22-85 | Every single call on a chained table leaves a chained table, whichever repository holds it; a login opens one chain, a successful refresh appends to one. |
| `RefreshTokenChains.AppendToChain` | src/application/use-cases/auth/refresh-session.ts:64-77 | Inserting a successor and marking the old tail revoked and replaced makes the chain longer by the new row. |
| `RefreshTokenChains.UnrevokedIsTail` | src/application/use-cases/auth/refresh-session.ts:77 | An unrevoked row is the tail of its family and has no replacement. |
| `RefreshTokenChains.ReplacementInFamily` | src/application/use-cases/auth/refresh-session.ts:38 | The row a replaced row points to exists, in the same family and for the same user, and points back. |
| `RefreshTokenChains.LogoutOnlyRevokes` | src/application/use-cases/auth/revoke-session.ts:10-15 | In a chained table a logout changes only a revocation stamp, although the SQL statement also writes `replaced_by_id`. |
| `RefreshTokenSafety.TokenUsedAtMostTwice` | src/application/use-cases/auth/refresh-session.ts:33-53 | Over any whole run one raw token yields at most two successful refreshes, and at most one when the grace window is zero or negative. |
| `RefreshTokenSafety.TwoUsesHappen` | src/application/use-cases/auth/refresh-session.ts:35-42 | The bound of two is reached whenever there is a grace window and tokens live at all. |
| `RefreshTokenSafety.UseSpendsAllowance` | src/application/use-cases/auth/refresh-session.ts:33-53 | A potential never grows and drops by one with every successful use of the token; it starts at two, or one without grace. |
| `RefreshTokenSafety.UsableTokens` | src/application/use-cases/auth/refresh-session.ts:33-53 | In a chained table a refresh succeeds if and only if the token is the unrevoked tail and not past its expiry (equality accepted), or the row just before an unrevoked tail, within the grace window, with the tail expiring strictly later than now. |
| `RefreshTokenSafety.SessionsMatchFamilySize` | src/application/use-cases/auth/refresh-session.ts:56-77 | The successful refreshes attributed to a family over a run number its final size minus one. |
| `RefreshTokenSafety.MembersAfterStep` | src/application/use-cases/auth/refresh-session.ts:64-77 | A call adds exactly the new row to the family it refreshes or opens, and leaves every other family with the rows it had. |
| `RefreshTokenSafety.RowHistory` | src/infrastructure/db/repositories/pg-refresh-token-repository.ts:62-84 | No call removes a row or changes its identity; revocation is final; the link of a revoked row is final. |
| `RefreshTokenSafety.KilledFamilyNeverReturns` | src/application/use-cases/auth/refresh-session.ts:44-48 | After any run, once a revoked token is refused, its user resets the password, or an active token logs out, then whatever calls follow the family has no active row, gains no row and yields no session. |
| `RefreshTokenSafety.DeadFamilyStaysDead` | src/infrastructure/db/repositories/pg-refresh-token-repository.ts:70-84 | A family without an active row stays so over every further run, with the same rows and no successful refresh. |
| `RefreshTokenSafety.RefusedReplayLeavesFamilyDead` | src/application/use-cases/auth/refresh-session.ts:44-48 | Refusing any revoked token leaves its whole family revoked, also when it had no replacement and the code writes nothing. |
| `RefreshTokenSafety.ResetRevokesFamily` | src/application/use-cases/auth/confirm-password-reset.ts:23-25 | A password reset revokes every row of every family of the user. |
| `RefreshTokenSafety.LogoutRevokesFamily` | src/application/use-cases/auth/revoke-session.ts:12-14 | Logging out with an active token leaves no active row in its family. |
| `RefreshTokenLaws.SessionLasts` | src/application/use-cases/auth/refresh-session.ts:51-75 | After any run, a token that a login or refresh has just issued, and that is then left alone whatever else happens, is good for a refresh if and only if no more than the refresh lifetime has passed since. |
| `RefreshTokenLaws.ReplayLasts` | src/application/use-cases/auth/refresh-session.ts:35-42 | After any run, a token just rotated, its replacement then left alone, can be replayed if and only if there is a grace window, no more than it has passed, and less than the refresh lifetime. |
| `RefreshTokenLaws.IssuedRow` | src/application/use-cases/auth/_session.ts:23-34 | The row behind a token just issued: for the user in the answer, unused, expiring one lifetime from now, and for a login with the device named. |
| `RefreshTokenLaws.RotationWrites` | src/application/use-cases/auth/refresh-session.ts:64-77 | What refreshing an active token writes: the old row is stamped now and linked, everything else in it stays; the new row is its user's and family's, remembers the device named or else the old one, and expires one lifetime from now. |
| `RefreshTokenLaws.DeadIffKilled` | src/application/use-cases/auth/refresh-session.ts:44-48 | After any run a family is dead if and only if some call of the run killed it: a refused replay of a revoked token of it, a reset for its user, or a logout with its active token. |
| `RefreshTokenLaws.DiesIffKilled` | src/infrastructure/db/repositories/pg-refresh-token-repository.ts:70-84 | The same for one call on a living family, in both directions. |
| `RefreshTokenLaws.OthersUntouched` | src/application/use-cases/auth/confirm-password-reset.ts:25 | Every row of a family that a call neither rotates nor kills is exactly as before: no call logs anybody else out. |
| `RefreshTokenLaws.RefusalWrites` | src/application/use-cases/auth/refresh-session.ts:44-48 | A refused refresh writes nothing unless the token had been rotated, and then only in that token's family. |
| `RefreshTokenLaws.StampedWhenRevoked` | src/infrastructure/db/repositories/pg-refresh-token-repository.ts:62-84 | A revocation stamp that a call changes becomes the time of the call. |
| `RefreshTokenLaws.RefreshAnswers` | src/application/use-cases/auth/refresh-session.ts:29-53 | A refresh issues to the presented token's user, answers "expired" exactly for an active token past its expiry, and otherwise "invalid". |
| `RefreshTokenLaws.OtherAnswers` | src/application/use-cases/auth/confirm-password-reset.ts:21 | A login issues to its user; logout always succeeds; a reset fails exactly without a usable token. |
| `RefreshTokenSimulation.RepositoriesIndistinguishable` | tests/helpers/fakes.ts:144-157 | From empty tables every sequence of calls gives the same outcomes on the SQL and on the in-memory repository. |
| `RefreshTokenSimulation.RunsAgree` | src/infrastructure/db/repositories/pg-refresh-token-repository.ts:62-84 | The two tables stay equal up to revocation stamps, which may differ only in families with no active row. |
| `RefreshTokenSimulation.SameVerdict` | src/application/use-cases/auth/refresh-session.ts:27-53 | On tables so related every refresh is decided the same way. |
| `RefreshTokenSimulation.RefusalAgrees` | tests/helpers/fakes.ts:148-152 | `revokeFamily` keeps the relation, although one version overwrites old stamps and the other does not. |
| `RefreshTokenSimulation.LogoutAgrees` | tests/helpers/fakes.ts:144-147 | Logout keeps the relation, although one version clears `replacedById` and the other does not. |
| `RefreshTokenSimulation.MarkingDiffersIff` | tests/helpers/fakes.ts:144-147 | The two `markRevoked` differ exactly when no link is given and the row has one. |
| `RefreshTokenSimulation.RevokingDiffersIff` | tests/helpers/fakes.ts:148-152 | The two `revokeFamily` differ exactly when some row of the family was revoked at another time. |
| `RefreshTokenSessions.Sessions.Refresh` | src/application/use-cases/auth/refresh-session.ts:22-54 | The branch cascade over the repository object leaves the table and returns the outcome of the step function the run theorems are about. |
| `RefreshTokenSessions.Sessions.Rotate` | src/application/use-cases/auth/refresh-session.ts:56-85 | Insert, then mark revoked: the new table, and the session issued. |
| `RefreshTokenSessions.Sessions.CreateSession` | src/application/use-cases/auth/_session.ts:14-42 | A fresh family with one root row. |
| `RefreshTokenSessions.Sessions.RevokeSession` | src/application/use-cases/auth/revoke-session.ts:10-15 | Unknown and already revoked tokens change nothing; an active one is marked revoked. |
| `RefreshTokenSessions.Sessions.ConfirmPasswordReset` | src/application/use-cases/auth/confirm-password-reset.ts:18-26 | An unusable reset token changes nothing; a usable one is used up for good, its user's password changes and no other, and every active session row of the user is revoked. |
| `RefreshTokenSessions.PgEmailTokenRepository.Consume` | src/infrastructure/db/repositories/pg-email-token-repository.ts:35-46 | Finds the owner of an unused, unexpired token of the kind asked for, uses it up, and so makes sure no later call finds it again. |
| `RefreshTokenSessions.TokenWorksOnce` | src/infrastructure/db/repositories/pg-email-token-repository.ts:35-46 | Over any sequence of attempts an unused e-mailed token is let through once if one of them is for its purpose and in time, and otherwise never. |
| `RefreshTokenSessions.OwnerLetThrough` | src/infrastructure/db/repositories/pg-email-token-repository.ts:43-45 | Whoever is let through is the user the token was made for. |
| `RefreshTokenSessions.PgRefreshTokenRepository.FindRowByHash` | src/infrastructure/db/repositories/pg-refresh-token-repository.ts:55-60 | The row with that hash, if there is one. |
| `RefreshTokenSessions.PgRefreshTokenRepository.MarkRowRevoked` | src/infrastructure/db/repositories/pg-refresh-token-repository.ts:62-68 | Stamps the row and sets its link, clearing it when none is given; a missing id changes nothing. |
| `RefreshTokenSessions.PgRefreshTokenRepository.RevokeFamilyRows` | src/infrastructure/db/repositories/pg-refresh-token-repository.ts:70-76 | Stamps the active rows of the family and no others. |
| `RefreshTokenSessions.PgRefreshTokenRepository.RevokeUserRows` | src/infrastructure/db/repositories/pg-refresh-token-repository.ts:78-84 | Stamps the active rows of the user and no others. |
| `RefreshTokenSessions.InMemoryRefreshTokenRepo.FindRowByHash` | tests/helpers/fakes.ts:141-143 | The search loop finds the entry with that hash exactly when there is one. |
| `RefreshTokenSessions.InMemoryRefreshTokenRepo.MarkRowRevoked` | tests/helpers/fakes.ts:144-147 | Stamps the entry and keeps its old link when none is given. |
| `RefreshTokenSessions.InMemoryRefreshTokenRepo.RevokeFamilyRows` | tests/helpers/fakes.ts:148-152 | The loop stamps every entry of the family, revoked or not, and no others. |
| `RefreshTokenSessions.InMemoryRefreshTokenRepo.RevokeUserRows` | tests/helpers/fakes.ts:153-157 | The loop stamps the active entries of the user and no others. |
| `FanOutProofs.ExactlyOnce` | src/infrastructure/ws/connection-registry.ts:45-78 | For any number of instances and any run whose unsubscribes name joined rooms, an event on a room reaches each connection in the room exactly once, and no other. |
| `FanOutProofs.AtMostOnce` | src/infrastructure/ws/connection-registry.ts:45-78 | For any run, also with stray unsubscribes: at most one handler per room and instance, counts between one and the local subscribers, no bus subscription without a local subscriber, Redis subscribed exactly where handlers are, and no connection gets an event twice or from a room it is not in. |
| `FanOutDelivery.DeliveryAfterUnsubscribeIff` | src/infrastructure/ws/handlers/chat-unsubscribe.ts:14-16 | After any run whose unsubscribes name joined rooms, one more unsubscribe of any list of rooms leaves delivery exactly-once under every well-behaved continuation if and only if each room listed is one the connection is in, listed for the first time, or one nobody else on its instance is in. |
| `FanOutDelivery.UnsubscribeAllKeepsCountIff` | src/infrastructure/ws/handlers/chat-unsubscribe.ts:14-16 | The handler's loop leaves exact counts under the same condition on the list and no other. |
| `FanOutDelivery.RunMoves` | src/infrastructure/ws/connection-registry.ts:45-78 | Over every run a connection is in exactly the rooms its own calls add up to: those it asked to join as a member, less those it asked to leave. |
| `FanOutDelivery.ApplyMoves` | src/infrastructure/ws/handlers/chat-subscribe.ts:18-25 | Each call puts its connection into exactly the rooms it asked for and may be in, and moves nobody else. |
| `FanOutDelivery.ShortCountSilences` | src/infrastructure/ws/connection-registry.ts:70-77 | From any state in which a room's count is short, some sequence of members leaving the room silences a member who stays. |
| `FanOutProofs.UnsubscribeKeepsCountIff` | src/infrastructure/ws/connection-registry.ts:62-78 | The counter's half of that condition: an unsubscribe leaves exact counts under the same condition and no other. |
| `FanOutProofs.StrayUnsubscribeSilences` | src/infrastructure/ws/handlers/chat-unsubscribe.ts:14-16 | A concrete run in which a stranger's unsubscribe stops delivery to a connection that is still in the room. |
| `FanOutProofs.SendsOf` | src/infrastructure/ws/connection-registry.ts:119-122 | One instance sends an event to a connection once if it is in the room and the room has a bus subscription, and otherwise never. |
| `FanOutProofs.SubscribeKeeps` | src/infrastructure/ws/connection-registry.ts:45-60 | Subscribing to a room not yet joined keeps both families of invariants. |
| `FanOutProofs.UnsubscribeKeeps` | src/infrastructure/ws/connection-registry.ts:62-78 | Any unsubscribe keeps the weaker family of invariants. |
| `FanOutProofs.ChatSubscribeKeeps` | src/infrastructure/ws/handlers/chat-subscribe.ts:18-25 | Because of its guard, the subscribe handler keeps the invariants for any list of rooms, repeated ones included. |
| `FanOutProofs.CloseKeeps` | src/infrastructure/ws/connection-registry.ts:30-43 | Closing a connection keeps both families of invariants. |
| `FanOutObjects.RedisMessageBus.Subscribe` | src/infrastructure/redis/redis-message-bus.ts:17-33 | Adds the handler to the channel; subscribes at Redis exactly on the first handler. |
| `FanOutObjects.RedisMessageBus.Unsubscribe` | src/infrastructure/redis/redis-message-bus.ts:35-43 | Removes the handler; leaves the channel at Redis exactly with the last handler. |
| `FanOutObjects.ConnectionRegistry.Register` | src/infrastructure/ws/connection-registry.ts:18-28 | Adds the connection, in no room, under its user; listens for presence exactly from the first connection on. |
| `FanOutObjects.ConnectionRegistry.SubscribeRoom` | src/infrastructure/ws/connection-registry.ts:45-60 | The whole new state of registry, bus and connection is that of the specification step. |
| `FanOutObjects.ConnectionRegistry.UnsubscribeRoom` | src/infrastructure/ws/connection-registry.ts:62-78 | The whole new state is that of the specification step, also for a room not joined. |
| `FanOutObjects.ConnectionRegistry.Unregister` | src/infrastructure/ws/connection-registry.ts:30-43 | Leaves every joined room, each once in some order, then forgets the connection and, with the last one, the presence channel. |
| `FanOutObjects.ConnectionRegistry.UnsubscribeRooms` | src/infrastructure/ws/handlers/chat-unsubscribe.ts:14-16 | The loop applies the unsubscribes in the order given. |
| `FanOutObjects.ConnectionRegistry.HandleChatUnsubscribe` | src/infrastructure/ws/handlers/chat-unsubscribe.ts:8-18 | Applies them, acknowledges exactly the list asked for, and leaves the connection in none of those rooms. |
| `FanOutObjects.ConnectionRegistry.HandleChatSubscribe` | src/infrastructure/ws/handlers/chat-subscribe.ts:9-28 | The loop applies the guarded subscribes; the acknowledgement lists the requested rooms the user is a member of, in order and with repetitions, and all of them are joined afterwards. |
| `FanOutObjects.AcknowledgedAreMemberships` | src/infrastructure/ws/handlers/chat-subscribe.ts:18-25 | The acknowledged rooms are exactly those requested that the user is a member of. |
| `FanOutObjects.ConnectionRegistry.FanOutBusEvent` | src/infrastructure/ws/connection-registry.ts:90-123 | Every local subscriber of the room gets the event's envelope once; every other connection gets nothing. |
| `FanOutObjects.ConnectionRegistry.DeliverPresence` | src/infrastructure/ws/connection-registry.ts:80-88 | A presence event reaches every open connection exactly once, whatever users they belong to. |
| `Envelopes.ClientReadsEvent` | src/infrastructure/ws/connection-registry.ts:94-119 | A client reads in the envelope exactly the event that was published, all five kinds of it, but for who caused a message. |
| `Envelopes.StrayFieldsStayHidden` | src/infrastructure/ws/connection-registry.ts:100-117 | Fields a known kind has no use for do not reach clients; events of unknown kinds pass through whole. |
| `Envelopes.PresenceNamesUser` | src/infrastructure/ws/connection-registry.ts:80-82 | A presence notice names its kind and its user and nothing else. |
| `FanOutObjects.RedisMessageBus.SubscribePresence` | src/infrastructure/redis/redis-message-bus.ts:17-33 | The presence entry of the handler map gains the handler; Redis is told on the first. |
| `FanOutObjects.RedisMessageBus.UnsubscribePresence` | src/infrastructure/redis/redis-message-bus.ts:35-43 | It loses the handler; Redis is left with the last. |
| `FanOutObjects.ConnectionRegistry.Deliver` | src/infrastructure/redis/redis-message-bus.ts:24-30 | One Redis message appends to each inbox exactly as many copies as the delivery count of the theorems says. |
| `FanOutObjects.ListRooms` | src/infrastructure/ws/connection-registry.ts:31 | Lists a set of rooms, each once. |
| `MessageReplay.EventsRebuildRoom` | src/application/use-cases/messages/send-message.ts:43-64 | For every run of send, edit and delete calls and every room, replaying the room's channel and keeping only messages of that room rebuilds exactly the room's rows, deleted ones shown deleted and emptied. |
| `MessageReplay.StepKeepsReplay` | src/application/use-cases/messages/edit-message.ts:17-29 | Each call publishes exactly what keeps that view in step with the table, retries and no-op edits included. |
| `MessageReplay.RunKeepsRows` | src/application/use-cases/messages/delete-message.ts:16-32 | Over every run no row disappears, moves room, or changes sender, key or creation time; a deleted row is empty and never changes again; there is at most one row per sender and client key. |
| `MessageReplay.RetryFindsFirstMessage` | src/infrastructure/db/repositories/pg-message-repository.ts:36-50 | A send with a client key used before by the sender, any number of calls later and even in another room, returns the first message's id and leaves the table alone. |
| `MessageChannels.SendIsAboutItsChannelIff` | src/application/use-cases/messages/send-message.ts:59-64 | A send that is carried out announces a message of the room it publishes on if and only if its sender has not used its key in another room. |
| `MessageChannels.ChannelIsAboutRoomIff` | src/application/use-cases/messages/send-message.ts:43-64 | Over any run, everything published on a room's channel is about that room if and only if no send to the room reused a key of a message elsewhere. |
| `MessageChannels.TrustingListenerIff` | src/infrastructure/db/repositories/pg-message-repository.ts:44-47 | A listener who does not compare room ids sees exactly the room's rows under the same condition and no other. |
| `MessageReplay.RetryMayPublishElsewhere` | src/application/use-cases/messages/send-message.ts:59-64 | A concrete run in which that condition fails. |
| `Messages.Collision` | src/infrastructure/db/repositories/pg-message-repository.ts:44-45 | The row an insert collides with: found exactly when the key is not null and sender and key match. |
| `MessageLaws.MessageIsAsSent` | src/application/use-cases/messages/send-message.ts:43-54 | After any calls a message that was sent is still there with its room, sender, key and time; it is deleted if and only if a permitted delete was made; until then it carries its attachment and the text of the last successful edit, or of the send if there was none. |
| `MessageLaws.EditChangesText` | src/application/use-cases/messages/edit-message.ts:16-32 | An edit succeeds if and only if the message is there, not deleted, and the requester's; then row and answer carry the text asked for, the edit time moves and an event goes out exactly if the text differed, and every other row stays. |
| `MessageLaws.DeleteEmpties` | src/application/use-cases/messages/delete-message.ts:15-33 | A delete succeeds if and only if the message is there, not deleted, and the requester is its sender, the room's owner or an admin; then it is stamped now and emptied, and every other row stays. |
| `MessageLaws.SendStores` | src/application/use-cases/messages/send-message.ts:43-66 | A send carried out stores the message as it was sent, unless the sender has used its key, in which case the table stays; caller and room are told of the row that is there. |
| `MessageLaws.SendAnswers` | src/application/use-cases/messages/send-message.ts:32-38 | Outsiders are refused, then attachments nobody uploaded; every other send is carried out. |
| `MessagePaging.CursorWalkIsComplete` | src/infrastructure/db/repositories/pg-message-repository.ts:57-72 | Walking a room by cursor with any limit of at least one, with any edits, deletes and rows above the cursor between pages: the client meets an empty page if and only if it asks for one page more than the ids of the first moment fill, and then it has collected exactly those ids, strictly descending, with no gap or repeat. |
| `MessagePaging.StoppedWalkHasAll` | src/application/use-cases/messages/list-messages.ts:21-32 | Whatever is sent between the pages, above or below the cursor: the walk is strictly descending, and once it has stopped it has listed every message the room had at the first page. |
| `MessagePaging.WalkStopsIff` | src/application/use-cases/messages/list-messages.ts:21-32 | The walk meets an empty page exactly when the pages before the last can hold every id below the starting cursor. |
| `MessagePaging.WalkTakesNewest` | src/application/use-cases/messages/list-messages.ts:21-32 | After n pages the client holds exactly the n times limit newest ids below its starting cursor. |
| `MessagePaging.PageContents` | src/infrastructure/db/repositories/pg-message-repository.ts:57-72 | A page holds rows of the room below the cursor, newest first, complete above its last row, and is shorter than the limit only when nothing is left. |
| `MessagePaging.PageForMembersOnly` | src/application/use-cases/messages/list-messages.ts:22-23 | A page is shown to members of the room and to nobody else. |
| `MessagePaging.SnapshotsStable` | src/infrastructure/db/repositories/pg-message-repository.ts:61 | Calls that only add ids above the cursor do not change what later pages are taken from. |
| `MessagePaging.DescendingSorts` | src/infrastructure/db/repositories/pg-message-repository.ts:62 | The ordering lists each id once, strictly descending. |
| `MessageObjects.PgMessageRepository.InsertRow` | src/infrastructure/db/repositories/pg-message-repository.ts:36-50 | Stores the row, or returns the row it collides with unchanged; the partial unique index is kept. |
| `MessageObjects.PgMessageRepository.UpdateRow` | src/infrastructure/db/repositories/pg-message-repository.ts:74-85 | Changes body and edit time of that row only. |
| `MessageObjects.PgMessageRepository.SoftDeleteRow` | src/infrastructure/db/repositories/pg-message-repository.ts:87-95 | Stamps and empties that row only. |
| `MessageObjects.MessageUseCases.SendMessage` | src/application/use-cases/messages/send-message.ts:31-67 | New table, published events and outcome are those of the step function the run theorems are about; the room's last-message time moves exactly when the send is carried out. |
| `MessageObjects.MessageUseCases.EditMessage` | src/application/use-cases/messages/edit-message.ts:16-32 | The same for an edit: missing or deleted, not the sender, unchanged body, changed body. |
| `MessageObjects.MessageUseCases.DeleteMessage` | src/application/use-cases/messages/delete-message.ts:15-33 | The same for a delete: missing or deleted, neither sender nor admin nor owner, deleted. |
| `RateLimitProofs.FixedWindowBound` | src/infrastructure/rate-limiter/in-memory-rate-limiter.ts:11-26 | For any nondecreasing trace, any W consecutive seconds admit at most 2m-1 requests, m when W is 1, where m is the limit or 1 if the limit is smaller. |
| `RateLimitProofs.FixedBoundIsMet` | src/infrastructure/rate-limiter/in-memory-rate-limiter.ts:11-26 | For every limit and window a trace reaches that bound. |
| `RateLimitProofs.FixedRetryAfterHonest` | src/infrastructure/http/middlewares/rate-limit.ts:29-33 | A refused caller alone on its key is admitted next exactly from the second `resetAt` on; waiting the computed seconds suffices and one second less does not (section 10.2.3 of RFC 9110, section 4 of RFC 6585). |
| `RateLimitProofs.SlidingLogFollowsRule` | src/infrastructure/redis/redis-rate-limiter.ts:8-29 | On every nondecreasing trace the log, with its clean-up and its key expiring after two windows, answers exactly as counting all requests of the last window in the full history does. |
| `RateLimitProofs.LogIsWindow` | src/infrastructure/redis/redis-rate-limiter.ts:18-20 | The stored log is always the part of the full history that still counts. |
| `RateLimitProofs.SlidingWindowBound` | src/infrastructure/redis/redis-rate-limiter.ts:8-29 | Every half-open interval of one window's length holds at most the limit of admitted requests. |
| `RateLimitProofs.SlidingRetryAfterHonest` | src/infrastructure/http/middlewares/rate-limit.ts:29-33 | A refused caller alone on its key that waits the computed seconds is admitted if and only if the limit is at least one; and they are at most the window and one second. |
| `RateLimitProofs.WaitIsWhatIsLeft` | src/infrastructure/http/middlewares/rate-limit.ts:31 | The wait is zero exactly when the reset second has come, and otherwise ends exactly on it. |
| `RateLimitProofs.FixedRemainingIsTrue` | src/infrastructure/rate-limiter/in-memory-rate-limiter.ts:15-25 | What a fixed-window answer says remains is exactly what a burst at the same moment would get. |
| `RateLimitProofs.SlidingRemainingIsTrue` | src/infrastructure/redis/redis-rate-limiter.ts:22-28 | The same for the sliding log. |
| `RateLimitProofs.RefusedHasNone` | src/infrastructure/redis/redis-rate-limiter.ts:24-26 | A refused caller of either limiter is told that nothing remains. |
| `RateLimitObjects.InMemoryRateLimiter.Consume` | src/infrastructure/rate-limiter/in-memory-rate-limiter.ts:11-26 | Window and answer of this key are those of the specification step; other keys are untouched. |
| `RateLimitObjects.RedisRateLimiter.Consume` | src/infrastructure/redis/redis-rate-limiter.ts:8-29 | Log and answer of this key are those of the specification step; other keys are untouched. |
| `RateLimitObjects.RedisRateLimiter.RemoveUpTo` | src/infrastructure/redis/redis-rate-limiter.ts:18 | Keeps exactly the scores after the start of the window, in order. |
| `RateLimitObjects.Guard` | src/infrastructure/http/middlewares/rate-limit.ts:29-34 | Over either limiter: lets the request through or computes the seconds to wait from a second reading of the clock; the key moves by one step and other keys are untouched. |
| `Uuid7.TimeOrdersStrings` | src/infrastructure/crypto/uuidv7.ts:6-20 | Of two timestamps below 2^48 the smaller gives the lexicographically smaller string, whatever the random bytes (section 6.11 of RFC 9562). |
| `Uuid7.TimestampRecoverable` | src/infrastructure/crypto/uuidv7.ts:6-9 | The timestamp can be read back from the string if and only if it is below 2^48. |
| `Uuid7.TimeFieldsHold` | src/infrastructure/crypto/uuidv7.ts:6-9 | The time fields hold the timestamp modulo 2^48 (section 5.7 of RFC 9562). |
| `Uuid7.Layout` | src/infrastructure/crypto/uuidv7.ts:11-20 | Length, dashes, version digit 7 and variant digit 8, 9, a or b (sections 4.1 and 4.2 of RFC 9562). |
| `Uuid7.UuidsDiffer` | src/infrastructure/crypto/uuidv7.ts:4-20 | Two generated strings are equal if and only if the timestamps and all 74 unmasked random bits are. |
| `Uuid7.SetVersion` | src/infrastructure/crypto/uuidv7.ts:12 | Masking puts 7 in the high half of the byte and keeps the low half. |
| `Uuid7.SetVariant` | src/infrastructure/crypto/uuidv7.ts:14 | Masking puts binary 10 in the two high bits and keeps the other six. |
| `Uuid7.Fill` | src/infrastructure/crypto/uuidv7.ts:7-14 | The in-place writes leave the packed bytes. |
| `Uuid7.HexString` | src/infrastructure/crypto/uuidv7.ts:16-18 | The loop spells every byte as two hexadecimal digits, in order. |
| `Uuid7.Uuidv7` | src/infrastructure/crypto/uuidv7.ts:1-21 | The buffer algorithm returns the string the other results are about. |
| `Presence.OfflineNoticeNeverLost` | src/application/use-cases/presence/mark-user-offline.ts:12-23 | Under every interleaving of the Redis steps of any calls, once all have finished and the hash is empty after having been written, an offline notice was published after the last write. |
| `Presence.StepKeepsInv` | src/infrastructure/redis/redis-presence-store.ts:8-29 | Each single step keeps the invariant behind it: an empty hash without a notice has a call on its way to publish one. |
| `PresenceNotices.RightExactlyWhenClear` | src/application/use-cases/presence/mark-user-offline.ts:12-23 | After any guarded run, beginning one more call keeps the last notice of an offline user right under every guarded interleaving that follows if and only if the connection has no unfinished online call (for an offline call) and no offline call about to delete it (for an online call). |
| `PresenceNotices.GuardedRunsEndRight` | src/application/use-cases/presence/mark-user-online.ts:12-19 | Under every interleaving of calls begun under that guard, whichever connections overlap, an empty hash at rest comes with an offline notice as the last entry. |
| `PresenceNotices.RaceIsUnsafe` | src/application/use-cases/presence/mark-user-online.ts:13-14 | Wherever all other calls stand, an online call short of its notice that races an offline call of its connection can be led to leave "online" as the last word on an offline user. |
| `Presence.LastNoticeMayBeStale` | src/application/use-cases/presence/mark-user-online.ts:12-19 | A concrete interleaving that does so. |
| `PresenceTruth.TruthfulExactlyWhenAdmitted` | src/application/use-cases/presence/mark-user-offline.ts:12-23 | After any run of admitted calls from an idle store, a call may begin if and only if, under every interleaving of admitted calls that follows, the last notice at rest says whether the user is online. |
| `PresenceTruth.AdmittedRunsAreTruthful` | src/application/use-cases/presence/mark-user-online.ts:12-19 | Every run of admitted calls, interleaved at single steps, ends with the true notice, for users online and offline alike. |
| `PresenceTruth.StepStaysGood` | src/infrastructure/redis/redis-presence-store.ts:8-29 | Each single step of any call keeps a good state good. |
| `PresenceTruth.BadIsUntrustworthy` | src/application/use-cases/presence/mark-user-offline.ts:12-23 | From every state that is not good the calls already under way can finish so that the last notice is false. |
| `PresenceTruth.AnchorAdmits` | src/infrastructure/redis/redis-presence-store.ts:14-18 | While some connection is in the hash and nobody is about to take it away, every call may begin but the one that takes it away. |
| `PresenceTruth.RestAdmitsIff` | src/infrastructure/redis/redis-presence-store.ts:20-24 | When nothing is under way, a call may begin if and only if it is not a heartbeat of a user who has gone. |
| `PresenceTruth.OfflineOvertakes` | src/application/use-cases/presence/mark-user-offline.ts:15-22 | From every state with an offline call past its count, another connection can come and say so before it speaks, which leaves "offline" as the last word on an online user. |
| `PresenceTruth.HeartbeatRevives` | src/infrastructure/redis/redis-presence-store.ts:20-24 | From every state in which "offline" was said last, a heartbeat puts its connection back into the hash and says nothing. |
| `PresenceTruth.LateHeartbeat` | src/infrastructure/redis/redis-presence-store.ts:20-24 | A whole run from an idle store that ends so: a connection comes, goes, and its heartbeat arrives late. |
| `Presence.AloneIsARun` | src/application/use-cases/presence/mark-user-offline.ts:12-23 | The effect of one uninterrupted call, as used for the objects, is one of the interleavings. |
| `Presence.AloneSaysWhatChanged` | src/application/use-cases/presence/mark-user-offline.ts:12-23 | An uninterrupted call says "offline" exactly when it empties the hash, "online" exactly when it is an online call, and writes exactly its own connection. |
| `PresenceObjects.RedisPresenceStore.MarkOffline` | src/infrastructure/redis/redis-presence-store.ts:14-18 | Removes the connection of this user only, and says whether it was there. |
| `PresenceObjects.RedisPresenceStore.IsOnline` | src/infrastructure/redis/redis-presence-store.ts:26-29 | True exactly when the user has a connection. |
| `PresenceObjects.RedisPresenceStore.ListOnline` | src/infrastructure/redis/redis-presence-store.ts:31-37 | The loop returns the users asked for that have a connection, in order and with repetitions. |
| `PresenceObjects.RedisPresenceStore.WhoIsOnlineMembers` | src/infrastructure/redis/redis-presence-store.ts:31-37 | Those are exactly the users asked for whose hash is not empty. |
| `PresenceObjects.PresenceUseCases.MarkUserOnline` | src/application/use-cases/presence/mark-user-online.ts:12-19 | Hash and notices change as one uninterrupted online call changes them; other users' hashes stay. |
| `PresenceObjects.PresenceUseCases.Beat` | src/infrastructure/redis/redis-presence-store.ts:20-24 | Hash changes as one uninterrupted heartbeat changes it; nothing is published; other users' hashes stay. |
| `PresenceObjects.PresenceUseCases.MarkUserOffline` | src/application/use-cases/presence/mark-user-offline.ts:12-23 | Hash and notices change as one uninterrupted offline call changes them; other users' hashes stay. |
| `PresenceObjects.HeardOfCall` | src/application/use-cases/presence/mark-user-offline.ts:16-22 | What listeners hear of one uninterrupted call: an online call always, an offline call exactly when it takes the last connection, a heartbeat never. |
| `DirectRooms.OneRoomPerPair` | src/application/use-cases/rooms/create-direct-room.ts:19-48 | Under every interleaving of the SQL statements of any number of calls, two calls return the same room if and only if they name the same unordered pair. |
| `DirectRooms.ReturnedRoomHasBothMembers` | src/infrastructure/db/repositories/pg-room-repository.ts:63-70 | Once all calls have ended, a returned room has exactly the two users of the pair as members. |
| `DirectRooms.EveryCallCanMove` | src/infrastructure/db/repositories/pg-room-repository.ts:58-61 | A call that has not ended can always take a step: the read after a lost insert finds the row. |
| `DirectRooms.KeyIdentifiesPair` | src/application/use-cases/rooms/create-direct-room.ts:28 | For ids without ":" two pairs have the same key if and only if they are the same unordered pair. |
| `DirectRooms.ColonBreaksKey` | migrations/0002_rooms.sql:11-13 | The hypothesis on ids is needed: with ":" two pairs share a key. The id columns are UUIDs, so no such id reaches the code. |
| `DirectRooms.StepProcKeepsInv` | src/infrastructure/db/repositories/pg-room-repository.ts:50-71 | Each single statement keeps the invariant: a key's room was made by one call, which has added both members or is about to. |
| `DirectRoomObjects.DirectRoomStore.CreateDm` | src/infrastructure/db/repositories/pg-room-repository.ts:50-71 | Returns the room already under the key and changes nothing, or creates it with both members. |
| `DirectRoomObjects.DirectRoomStore.CreateDirectRoom` | src/application/use-cases/rooms/create-direct-room.ts:19-48 | Tables and result change as one uninterrupted call changes them. |
| `DirectRoomObjects.AloneIsARun` | src/application/use-cases/rooms/create-direct-room.ts:19-48 | The effect of one uninterrupted call is one of the interleavings. |
| `DirectRoomAgreement.CreationAgrees` | src/application/use-cases/rooms/create-direct-room.ts:19-48 | The two descriptions of creating a direct room, over string keys and over unordered pairs, find the same room, refuse alike, and make the same new room with the same two members. |
| `RoomRoles.OnlyCreatorOwns` | src/application/use-cases/rooms/create-group-room.ts:41-61 | In every reachable state a group has at most one owner, and only its creator can be it. |
| `RoomRoles.OwnerlessForever` | src/application/use-cases/rooms/delete-room.ts:12-23 | A group that has lost its owner never has one again and is there after every further run. |
| `RoomRoles.DeletableIffOwned` | src/application/use-cases/rooms/delete-room.ts:12-23 | Some run of calls deletes a group if and only if it has an owner. |
| `RoomRoles.OwnerlessIffCreatorLeft` | src/application/use-cases/rooms/remove-member.ts:19-22 | Over a run, a group that still exists has become ownerless if and only if its creator asked to leave it. |
| `RoomLaws.GroupGoneIff` | src/application/use-cases/rooms/delete-room.ts:15-22 | Over a run, an owned group disappears if and only if its creator asks for that before ever asking to leave. |
| `RoomLaws.DeletedIff` | src/application/services/room-authorizer.ts:8-24 | A room disappears in a call if and only if its owner, or for a direct room one of its members, deletes it. |
| `RoomLaws.DeleteAnswers` | src/application/use-cases/rooms/delete-room.ts:13-22 | The caller is told "done" exactly if the room disappears, and "not found" exactly if there was none. |
| `RoomLaws.AddAnswers` | src/application/use-cases/rooms/add-member.ts:20-28 | An addition succeeds if and only if the room exists, the requester is in it as admin or owner, and the person exists and is not yet in it. |
| `RoomLaws.JoinedIff` | src/application/use-cases/rooms/add-member.ts:30-37 | Membership of a room that stays is gained by such an addition and by nothing else, with the role asked for. |
| `RoomLaws.OtherRoomsStay` | src/application/use-cases/rooms/add-member.ts:19-40 | A call leaves every room it does not name alone. |
| `RoomLaws.GroupMade` | src/application/use-cases/rooms/create-group-room.ts:19-64 | A new group has its founder as owner and everyone else named as a member, nobody more, provided they are all users. |
| `RoomLaws.DirectRoomMade` | src/application/use-cases/rooms/create-direct-room.ts:19-48 | A direct room is found if the pair has one; otherwise, if the other user exists, it is made for exactly the two. |
| `RoomRoles.EmptyForever` | src/application/use-cases/rooms/add-member.ts:19-40 | A room everyone has left stays empty and stays in the table, whatever calls follow. |
| `RoomRoles.DirectRoomsStayInPair` | src/application/use-cases/rooms/add-member.ts:21 | In every reachable state a direct room has only members of its pair, all with role member, and the pair has no other room. |
| `RoomRoles.DirectRoomOnlyShrinks` | src/application/use-cases/rooms/remove-member.ts:13-34 | Over every run the members of a direct room only become fewer while it exists. |
| `RoomRoles.DeletedForever` | src/infrastructure/db/repositories/pg-room-repository.ts:154-156 | A deleted room never comes back. |
| `RoomRoles.RemovalFollowsRank` | src/application/use-cases/rooms/remove-member.ts:13-34 | A removal succeeds if and only if the target is a member and either leaves by itself or is outranked by a requester in the room. |
| `RoomRoles.MembershipAfterStep` | src/application/use-cases/rooms/remove-member.ts:13-34 | Whatever the call, members of a room that still exists keep their roles, and lose membership only by such a removal. |
| `RoomRoles.StepKeepsInv` | src/application/services/room-authorizer.ts:8-24 | Every permitted call keeps the role invariant and the uniqueness of direct rooms. |
| `RoomObjects.Rooms.CreateGroup` | src/application/use-cases/rooms/create-group-room.ts:19-64 | Unknown founders change nothing; otherwise one room with the requester as owner and everyone else named as member. |
| `RoomObjects.Rooms.Others` | src/application/use-cases/rooms/create-group-room.ts:20 | The requested members other than the requester, each once. |
| `RoomObjects.Rooms.AllExist` | src/application/use-cases/rooms/create-group-room.ts:22-26 | True exactly when every one of them is a user. |
| `RoomObjects.Rooms.InsertMembers` | src/application/use-cases/rooms/create-group-room.ts:52-61 | The loop adds exactly those members to the room. |
| `RoomObjects.Rooms.CreateDm` | src/application/use-cases/rooms/create-direct-room.ts:19-48 | Finds the pair's room or creates it with both as members. |
| `RoomObjects.Rooms.AddMember` | src/application/use-cases/rooms/add-member.ts:19-40 | State and outcome of the specification step: no room, no admin, no user, already a member, added. |
| `RoomObjects.Rooms.RemoveMember` | src/application/use-cases/rooms/remove-member.ts:13-34 | State and outcome of the specification step for the whole cascade of refusals. |
| `RoomObjects.Rooms.DeleteRoom` | src/application/use-cases/rooms/delete-room.ts:12-23 | State and outcome of the specification step: owners delete groups, members delete direct rooms. |
| `Migrations.ResumeEqualsUninterrupted` | src/infrastructure/db/migrator.ts:32-58 | However often migrating was cut short between files, one more run ends with the table and order of one uninterrupted run, and a further run applies nothing. |
| `Migrations.MigrateFromPrefix` | src/infrastructure/db/migrator.ts:38-58 | A run over a database that holds a prefix of the files leaves a prefix, no shorter, and says whether it was cut off. |
| `Migrations.MigrateCompletesIff` | src/infrastructure/db/migrator.ts:43-50 | From any recorded table a run completes if and only if no recorded file has been edited since; otherwise it stops with a hash mismatch. |
| `Migrations.FirstRunCompletesIff` | src/infrastructure/db/migrator.ts:38-55 | A first run gets through a list of files if and only if no two have the same id. |
| `Migrations.LoopOnlyAdds` | src/infrastructure/db/migrator.ts:52-55 | From any state and however cut short, a run changes nothing recorded, and records name and hash of exactly the files whose text it runs. |
| `Migrations.Migrator.Run` | src/infrastructure/db/migrator.ts:32-58 | The loop over files computes the specified run. |

## Left out

- Interleavings inside one refresh, one subscribe or one send: the code awaits between reading and writing and does not serialise such calls, so those results are for calls that complete one after another.
- Token generation, hashing with the pepper, and signing of access tokens: a raw token is identified with its hash, and an issued session is recorded as its user and hash.
- Row creation times in the token table, and ids that are empty strings (which JavaScript would treat as absent): generated ids never are.
- The moment between asking for the presence channel and remembering how to give it up, the time stamp on envelopes, and the hashing of passwords.
- Closures as objects: a bus handler is a record of its room and a serial number, and the returned unsubscribe function is a method applied to that record.
- Attachment metadata on upload, and the object store behind the attachment check.
- The text form of message ids in queries, and an empty cursor string (which the code treats as no cursor): ids are the 128-bit numbers SQL compares.
- Room deletion in the message, paging and direct-room results: it drops rows by cascade and publishes nothing.
- Choice of the rate-limit subject from headers or user, and equal random suffixes of two sorted-set members in one millisecond.
- Presence key expiry, which happens without any event, and the time stamps stored in the hash.
- Interleaving of direct-room creation with membership changes: `DirectRooms` interleaves creations at statements, `RoomRoles` has all calls as single steps, and `DirectRoomAgreement` shows that the two agree on uninterrupted calls.
- Deletion of user accounts, which empties a room's creator column and drops memberships by cascade; changing a member's role, which no modelled call does.
- Group creation is one step: a crash between the room row and its member rows is not modelled.
- Listing, filtering and sorting of migration file names, and migration text that fails: its transaction rolls back and the run stops.
- Aliasing of rows: stored rows are values in a map field, so two variables never share one row object.
- Listing queries (`listActiveByUser`, `listForUser`, `listMembers`), read markers, typing notices, the HTTP layer, and the other in-memory fakes: single-branch or plumbing.
