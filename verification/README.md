# Verification of the shared-store protocols and tree algorithms

The API keeps most of its real state in Redis, Postgres and MongoDB and changes it through small
protocols. This project models those protocols, and the few pure algorithms beside them, and proves
what they keep over whole runs.

- **Idempotency** (`Idempotency`, `IdempotencyProtocol`, `IdempotencyRuns`, `IdempotencyOutcomes`,
  `IdempotencyService`). Every
  Redis command of begin, commitSuccess and commitFailure is one step; steps of different requests
  interleave freely, time passes between them, any command may throw with or without effect, and any
  process may crash. A run is timely when no request is still between NEW and its last store write once
  its 120-second record lapses. `Interceptor` is the code of the service and the interceptor, with other
  requests running at every await, shown to extend a protocol run from the empty store.
- **Cache lock** (`CacheLock`, `CacheLockRuns`, `CacheLifetime`, `CacheService`). The same treatment of getOrSetWithLock.
  Locks and cached values share one key space, as in Redis.
- **Sessions and refresh tokens** (`Sessions`, `SessionRuns`, `SessionAnswers`). Sequential logins, refreshes and logouts on
  a clock that never goes back but may repeat an instant.
- **Room history** (`EventHistory`, `HistoryRuns`). The ZADD, trim and EXPIRE of a save are separate
  commands; those of different saves interleave freely and the set may lapse between any two.
- **Verification codes** (`Verification`, `VerificationRuns`, `VerificationAnswers`), **orphan reconciler** (`Orphans`),
  **throttler** (`Throttle`), **presence index** (`Presence`, and `PresenceExpiry` with lapsing keys),
  **metrics** (`Metrics`): classes over the stored state, proved against specification
  functions, and lemmas about all runs of those functions.
- **Trees** (`Json`, `JsonText`, `ActivityDiff`, `RequestHash`) and **key printing** (`CacheKey`, `Text`).
- `Redis`, `Runs`, `Wrappers` are shared.

Instants are in milliseconds, except where only their order matters.

## Facts worth knowing

- The throttler lets at most `2 * limit - 1` requests through in any interval of one window, one less
  than two full limits, and that number is reached.
- Redis key parts are sanitized, so requests whose parts differ only in `:` against `_` share a record.
- Replays are faithful in every run. Exclusion of handlers, deletion of one's own record only, and no
  handler beside a living outcome hold exactly when every request finishes within the 120 seconds.
- The cache lock excludes, and its removal hits only one's own lock, exactly when callers finish within the
  10 seconds and no cache key in use is `lock:` followed by another one. Cached values come from callbacks
  exactly under the latter condition, however slow the callers are.
- A refresh accepts a session in the very millisecond at which it expires. A customer gets a second live
  mobile session exactly when such a refresh meets another live session on the same device, as in the
  millisecond of a new login; an advancing clock prevents it, and nothing else needs one.
- getRecentEvents with a count of zero returns the whole history, because Redis reads the stop rank -1
  from the end; the number asked for is returned exactly for counts of at least one, or so far below zero
  that they reach past the set.
- The event of a save that nobody disturbs is lost, with the whole room, exactly when the room's old
  deadline passes between its ZADD and its EXPIRE.
- Tracking an already tracked socket breaks the connection counts until the next reset, and nothing else does.
- A socket cleared after its key had lapsed stays in its old rooms, and counts there again once it is
  marked anywhere.

## Model

| member | source | states |
|---|---|---|
| `Idempotency.SameKeyIffSameParts` | apps/api/src/common/idempotency/idempotency.service.ts:182-193 | two requests share a Redis key if and only if actor, scope and idempotency key agree up to white space around them and colons for underscores |
| `Idempotency.RedisKeyLayout` | apps/api/src/common/idempotency/idempotency.service.ts:182-193 | prefix, actor, scope and key in this order, joined by colons |
| `Idempotency.DistinctRequestsCanShareAKey` | apps/api/src/common/idempotency/idempotency.service.ts:191-193 | sanitizing is not injective: two different scopes share a key |
| `IdempotencyProtocol.StepKeepsInv` | apps/api/src/common/idempotency/idempotency.service.ts:54-133 | every command, fault and crash of every request keeps ownership of the record, exclusion, stored outcomes in the store as long as they live, and a faithful history, while no request outlives its record |
| `IdempotencyProtocol.RunKeepsHonest` | apps/api/src/common/idempotency/idempotency.service.ts:54-133 | in every run, timely or not, stored records agree with the history, replays repeat the outcome last stored, and what is stored was returned by a handler |
| `IdempotencyProtocol.RunKeepsInv` | apps/api/src/common/idempotency/idempotency.service.ts:54-133 | that invariant holds in every state of every timely interleaved run |
| `IdempotencyRuns.OneHolderPerKey` | apps/api/src/common/idempotency/idempotency.service.ts:72-82 | in every timely run at most one request per key is between NEW and its last store write |
| `IdempotencyRuns.ReplayRepeatsTheHandler` | apps/api/src/common/idempotency/idempotency.interceptor.ts:107-125 | in every run, however slow or faulty, every replay carries the status and body that a handler under the same key and hash returned and commitSuccess stored, within 24 hours, with no other outcome stored in between |
| `IdempotencyRuns.RepliesWereReturned` | apps/api/src/common/idempotency/idempotency.interceptor.ts:107-125 | in every run, whatever outcome a client is sent was returned by a handler of a request with its key and hash |
| `IdempotencyRuns.PendingTtlIsTheBound` | apps/api/src/common/idempotency/idempotency.service.ts:61-78 | exclusion, deletion of one's own record only, and no handler beside a living outcome each hold in all runs whose holders finish within a bound if and only if the bound is at most 120 seconds |
| `IdempotencyRuns.NoHandlerWhileOutcomeLives` | apps/api/src/common/idempotency/idempotency.service.ts:103-117 | in timely runs no handler begins under a key less than 24 hours after any outcome was stored under it |
| `IdempotencyRuns.FailureFreesTheKey` | apps/api/src/common/idempotency/idempotency.service.ts:120-133 | in timely runs a request whose handler threw always goes on to delete its own pending record, and the key is then free |
| `IdempotencyRuns.FailedRequestFreedTheKey` | apps/api/src/common/idempotency/idempotency.interceptor.ts:126-137 | in timely runs a request that held the key and ends in an error has deleted its own pending record and left the key vacant if and only if neither was its outcome stored all the same nor did commitFailure itself meet an error |
| `IdempotencyRuns.RetryAfterFailure` | apps/api/src/common/idempotency/idempotency.interceptor.ts:126-137 | in timely runs, whatever the others do, once a request failed the next begin on its key is NEW unless another request's SET NX took the key in between |
| `IdempotencyRuns.PendingRecordsLapse` | apps/api/src/common/idempotency/idempotency.service.ts:72-78 | in every run, crashes included, a pending record blocks its key for less than 120 seconds |
| `IdempotencyRuns.UndisturbedBegin` | apps/api/src/common/idempotency/idempotency.service.ts:54-90 | begin left alone: NEW with a fresh pending record on a free key; otherwise CONFLICT, REPLAY or PENDING by the record, and nothing written |
| `IdempotencyRuns.AnotherHashGivesConflict` | apps/api/src/common/idempotency/idempotency.service.ts:139-141 | in any run, timely or not, a request that only ever meets live records of another hash can end begin only with CONFLICT, or with an error or crash of its own |
| `IdempotencyRuns.SlowHandlerIsNotAlone` | apps/api/src/common/idempotency/idempotency.service.ts:72-82 | beyond the time bound a reachable run has two handlers of one key running at once |
| `IdempotencyOutcomes.FinishedWasStored` | apps/api/src/common/idempotency/idempotency.service.ts:92-118 | in every timely run a request that finishes has stored the outcome it sent |
| `IdempotencyOutcomes.FinishStep` | apps/api/src/common/idempotency/idempotency.service.ts:96-117 | in any run a request finishes only by writing the committed record for 24 hours, whatever its status, or by meeting a record of another hash |
| `IdempotencyOutcomes.StoredIsReplayed` | apps/api/src/common/idempotency/idempotency.service.ts:135-154 | less than 24 hours after an outcome was stored, with no other stored under the key since, the store holds it and either read of a begin replays it, or answers CONFLICT to another hash |
| `IdempotencyOutcomes.BeginReads` | apps/api/src/common/idempotency/idempotency.service.ts:54-90 | what the first and the second read of begin answer to each stored entry, writing nothing |
| `IdempotencyOutcomes.CommitReads` | apps/api/src/common/idempotency/idempotency.service.ts:92-107 | the read of commitSuccess keeps the creation instant of the record it meets and stops at another hash |
| `IdempotencyOutcomes.AbortReads` | apps/api/src/common/idempotency/idempotency.service.ts:120-132 | the read of commitFailure goes on to the deletion for its own pending record only |
| `IdempotencyOutcomes.ErrorsLeadOn` | apps/api/src/common/idempotency/idempotency.interceptor.ts:86-139 | where an error of each command leads, and what it may leave in the store |
| `IdempotencyService.Interceptor.Begin` | apps/api/src/common/idempotency/idempotency.service.ts:54-90 | the code, with other requests running at each await and any command free to throw, extends a protocol run from the empty store, and answers NEW exactly when that run has it holding the key |
| `IdempotencyService.Interceptor.CommitSuccess` | apps/api/src/common/idempotency/idempotency.service.ts:92-118 | the code takes the protocol's commit steps and ends finished with its outcome, or throws where the protocol turns to the abort |
| `IdempotencyService.Interceptor.CommitFailure` | apps/api/src/common/idempotency/idempotency.service.ts:120-133 | the code takes the protocol's abort steps, errors included, and ends failed |
| `IdempotencyService.Interceptor.Intercept` | apps/api/src/common/idempotency/idempotency.interceptor.ts:86-139 | a new request, whatever throws, extends a protocol run from the empty store; the client's reply is the one its final place there calls for, and any body sent was returned by a handler under its key and hash |
| `CacheLock.StepKeepsLocked` | apps/api/src/services/redis/redis.service.ts:49-104 | every command, callback, fault and invalidation keeps one lock holder per key, each with its own live lock entry |
| `CacheLock.RunKeepsInv` | apps/api/src/services/redis/redis.service.ts:49-104 | exclusion and the origin of cached values hold in every state of every timely run, if no key in use is the lock key of another |
| `CacheLockRuns.LockIsExclusiveAndOwn` | apps/api/src/services/redis/redis.service.ts:72-79 | in timely runs with LocksApart (no key in use is the lock key of another) at most one caller per key is between lock and unlock, and its unlock removes exactly the lock it set |
| `CacheLockRuns.LockIsSafeExactly` | apps/api/src/services/redis/redis.service.ts:67-103 | exclusion and own locks each hold in all runs whose callers finish within a bound if and only if LocksApart holds and the bound is at most 10 seconds, or no caller can hold at all |
| `CacheLockRuns.ReturnReleasesTheLock` | apps/api/src/services/redis/redis.service.ts:81-103 | a caller left alone: normal exit caches the value until the time to live of its call is over, returns it and leaves the lock free |
| `CacheLockRuns.ThrowReleasesTheLock` | apps/api/src/services/redis/redis.service.ts:92-103 | a caller left alone: a throwing callback caches nothing, passes the error on and leaves the lock free |
| `CacheLockRuns.EveryExitUnlocks` | apps/api/src/services/redis/redis.service.ts:92-103 | in any run, whatever the others do, a caller that held a lock and is done, with a value or an error, took a step that removed the lock, unless that very removal threw without effect |
| `CacheLockRuns.ProducedByACallback` | apps/api/src/services/redis/redis.service.ts:81-85 | a value counts as produced only when a callback returned it while holding the lock of that key |
| `CacheLockRuns.ProvenanceExactlyWhenLocksApart` | apps/api/src/services/redis/redis.service.ts:55-75 | every value returned in every run, slow callers included, was produced by a callback for its key, if and only if no key in use is the lock key of another; likewise in every timely run |
| `CacheLockRuns.SlowCallerUnlocksAnother` | apps/api/src/services/redis/redis.service.ts:95-103 | a caller that outlives its 10-second lock removes the lock of the next holder |
| `CacheLifetime.CachedForItsTtl` | apps/api/src/services/redis/redis.service.ts:55-62 | after a value was written, with nothing else writing its key, a look-up within the call's time to live returns it and runs no callback, and one from then on misses |
| `CacheLifetime.OthersKeepTheEntry` | apps/api/src/services/redis/redis.service.ts:49-104 | only an invalidation or write of the key, or a lock of that name, changes the entry of a key |
| `CacheLifetime.InvalidateStep` | apps/api/src/services/redis/redis.service.ts:106-113 | an invalidation removes the value, and a look-up after it misses |
| `CacheLifetime.LockStep` | apps/api/src/services/redis/redis.service.ts:67-79 | a free lock is taken for 10 seconds; a caller that finds it taken waits and looks again |
| `CacheLifetime.ThrowsExactlyWhen` | apps/api/src/services/redis/redis.service.ts:62-97 | a caller throws if and only if its callback or its SET NX does, or, without fallbackOnError, its look-up or its write |
| `CacheService.RedisCacheService.GetOrSetWithLock` | apps/api/src/services/redis/redis.service.ts:49-104 | the code, with other callers running and any command free to throw, extends a protocol run from the empty store and ends there in the result it returns |
| `CacheService.RedisCacheService.GetOrSet` | apps/api/src/services/redis/redis.service.ts:38-48 | a new call: with no key in use the lock key of another, a value it returns was produced by a callback for its key |
| `SessionRuns.StepKeepsInv` | apps/api/src/modules/auth/services/auth-session.service.ts:50-181 | every login, refresh and logout keeps mobile sessions on active devices of their owner, one active device per customer, and each row's token the last issued |
| `SessionRuns.RefreshKeepsOneLiveIff` | apps/api/src/modules/auth/auth.service.ts:523-526 | a refresh keeps one live mobile session per customer if and only if it does not prolong a session in the instant it expires beside another live one on its device |
| `SessionRuns.OneLiveExactlyWithoutRevival` | apps/api/src/modules/auth/services/auth-session.service.ts:71-88 | in a run every customer has at most one live mobile session throughout if and only if no refresh of the run revives a session in that way |
| `SessionRuns.OneLiveOnAdvancingClock` | apps/api/src/modules/auth/services/auth-session.service.ts:71-88 | in every run on a strictly advancing clock a customer has at most one live mobile session throughout |
| `SessionRuns.OneLiveMobileSession` | apps/api/src/modules/auth/services/auth-session.service.ts:71-88 | as long as no refresh revived a session, a customer has at most one unexpired mobile session at any later instant, on a clock that may repeat instants |
| `SessionRuns.LoginEndsEarlierMobileSessions` | apps/api/src/modules/auth/services/auth-session.service.ts:315-365 | in every run, after a customer's login from android or ios, in any letter case, no earlier mobile session of the customer is unexpired, on any device |
| `SessionRuns.InactiveDevicesHaveNoSessions` | apps/api/src/modules/auth/services/auth-session.service.ts:333-365 | in every run an inactive device has no session rows |
| `SessionRuns.MobileLoginTouchesOnlyItsOwn` | apps/api/src/modules/auth/services/auth-session.service.ts:71-102 | such a login leaves web sessions, admin sessions, and other customers' sessions and devices untouched |
| `SessionRuns.AcceptedTokenIsNewest` | apps/api/src/modules/auth/auth.service.ts:520-532 | in every run a refresh succeeds only with the last token issued for its session |
| `SessionRuns.StaleRefreshEndsTheSession` | apps/api/src/modules/auth/auth.service.ts:523-532 | an earlier token, or any token for an expired session, removes the session |
| `SessionRuns.GoneForGood` | apps/api/src/modules/auth/auth.service.ts:520-521 | a removed session never comes back and every later refresh of it fails |
| `SessionRuns.SameInstantRefreshRevives` | apps/api/src/modules/auth/auth.service.ts:523-526 | from any state that keeps the invariant, a refresh in the instant of a new login on the device leaves two live mobile sessions |
| `SessionRuns.RevivalIsReachable` | apps/api/src/modules/auth/auth.service.ts:523-526 | a run of two logins and a refresh reaches two live mobile sessions of one customer |
| `SessionAnswers.PhoneLogin` | apps/api/src/modules/auth/services/auth-session.service.ts:50-109 | in every run, row by row, the devices and sessions after a customer's login from a phone |
| `SessionAnswers.PlainLogin` | apps/api/src/modules/auth/services/auth-session.service.ts:90-115 | any other login adds its row in the table of its actor and changes nothing else |
| `SessionAnswers.RefreshRotatesExactlyWhen` | apps/api/src/modules/auth/auth.service.ts:510-567 | in every run a refresh puts its new token, expiry and context into the row if and only if the session is unexpired, the token is the last issued, and the actor exists and is not banned; a ban changes no table |
| `SessionAnswers.RefreshAnswers` | apps/api/src/modules/auth/auth.service.ts:510-548 | in every run each answer if and only if its own condition on rows and issued tokens, and which refusals end the session |
| `SessionAnswers.LogoutRemoves` | apps/api/src/modules/auth/services/auth-session.service.ts:207-227 | in every run a logout removes the session unless it names the other kind of actor, and touches nothing else |
| `Sessions.MobileTypesArePhones` | apps/api/src/modules/auth/services/auth-session.service.ts:17 | mobile device types are android and ios, up to the case of each letter |
| `Sessions.AuthSessionService.CreateSession` | apps/api/src/modules/auth/services/auth-session.service.ts:50-125 | the step-by-step code leaves exactly the tables the specification gives |
| `Sessions.AuthSessionService.FindOrCreateDevice` | apps/api/src/modules/auth/services/auth-session.service.ts:251-313 | finds or inserts the one row of the installation, reactivates it, and tells whether it had an active session |
| `Sessions.AuthSessionService.EnforceSingleMobileSession` | apps/api/src/modules/auth/services/auth-session.service.ts:333-365 | deactivates the customer's other active devices, clears their push tokens and deletes their sessions, nothing else |
| `Sessions.AuthService.RefreshSession` | apps/api/src/modules/auth/auth.service.ts:510-567 | answers and changes the tables branch by branch as specified: missing, not found, expired, mismatch, no actor, banned, rotated |
| `EventHistory.EventHistoryManager.SaveEvent` | packages/realtime-core/src/history/event-history-manager.ts:19-30 | its three commands enter the room's history in order, any commands of other calls between them, and what is stored is what the history leaves |
| `EventHistory.EventHistoryManager.ClearHistory` | packages/realtime-core/src/history/event-history-manager.ts:54-57 | one deletion enters the room's history |
| `EventHistory.EventHistoryManager.GetRecentEvents` | packages/realtime-core/src/history/event-history-manager.ts:46-52 | for every count, zero and negative ones included, which last entries are returned, oldest first |
| `EventHistory.EventHistoryManager.DeserializeEvents` | packages/realtime-core/src/history/event-history-manager.ts:59-69 | the entries that parse, in order |
| `HistoryRuns.SaveAlone` | packages/realtime-core/src/history/event-history-manager.ts:19-30 | a save left alone leaves the highest hundred with a new deadline, or loses the room if and only if an old deadline passes before its EXPIRE |
| `HistoryRuns.TrimBeforeZAdd` | packages/realtime-core/src/history/event-history-manager.ts:27-28 | trimming before an addition changes nothing once the result is trimmed |
| `HistoryRuns.RoomIsTrimmedOnce` | packages/realtime-core/src/history/event-history-manager.ts:19-30 | however saves interleave, once every save has trimmed the room equals one trim of the untrimmed set and is the hundred greatest of the remembered events |
| `HistoryRuns.RoomIsTrimmed` | packages/realtime-core/src/history/event-history-manager.ts:19-30 | in every interleaving of adds, trims, lapses and deletions the highest hundred stored are those of the untrimmed set, and the rest is part of it |
| `HistoryRuns.RoomIsSmall` | packages/realtime-core/src/history/event-history-manager.ts:27-28 | a room holds at most a hundred entries and one for each add not yet trimmed |
| `HistoryRuns.StoredAreTheGreatest` | packages/realtime-core/src/history/event-history-manager.ts:19-30 | in every interleaving the highest hundred stored are exactly the hundred greatest, by timestamp then text, of all distinct events added since the room was last empty |
| `HistoryRuns.NothingForgottenWithoutLapse` | packages/realtime-core/src/history/event-history-manager.ts:22-29 | without a deletion or a lapse those are all events ever added |
| `HistoryRuns.NoMissedEvents` | packages/realtime-core/src/history/event-history-manager.ts:33-43 | in every interleaving getEventsSince returns only such events from the instant on, in order, and all of them when at most a hundred were added or the oldest of the highest hundred stored is older |
| `HistoryRuns.RecentEventsAreTheLast` | packages/realtime-core/src/history/event-history-manager.ts:46-52 | the last stored events in ascending order, for every count; min(count, size) of them (none for a count below one) if and only if the count is at least one or reaches past the set |
| `Orphans.Reconciler.Reconcile` | apps/api/src/modules/notifications/notification-orphan-reconciler.service.ts:32-67 | the cursor loop terminates, leaves exactly the rows whose owner exists or is not a string, in order, and returns how many went |
| `Orphans.Reconciler.SweepPage` | apps/api/src/modules/notifications/notification-orphan-reconciler.service.ts:48-63 | one turn deletes the rows of the page's orphans everywhere, leaves none up to the page's last id, and shortens what lies ahead |
| `Orphans.Reconciler.FindOrphanUserIds` | apps/api/src/modules/notifications/notification-orphan-reconciler.service.ts:106-117 | exactly the given ids that no customer has |
| `Orphans.Reconciler.UserIds` | apps/api/src/modules/notifications/notification-orphan-reconciler.service.ts:48-54 | exactly the string owners of the page, each once |
| `Orphans.Reconciler.ReconcileOrphans` | apps/api/src/modules/notifications/notification-orphan-reconciler.service.ts:19-30 | both collections are reconciled and the total is what left them |
| `Orphans.KeptIsExact` | apps/api/src/modules/notifications/notification-orphan-reconciler.service.ts:57-59 | a row survives if and only if its owner exists or is not a string, order kept |
| `Orphans.KeptIsKept` | apps/api/src/modules/notifications/notification-orphan-reconciler.service.ts:32-67 | a second reconciliation deletes nothing |
| `Orphans.PageIsSwept` | apps/api/src/modules/notifications/notification-orphan-reconciler.service.ts:63 | moving the cursor to the last id of the page skips no orphan even when the cursor row itself is deleted |
| `Throttle.IpThrottlerGuard.CanActivate` | apps/api/src/common/guards/ip-throttler.guard.ts:51-88 | one bucket counts on while it lives or starts anew, others stay, and the request passes if the count is within the limit |
| `Throttle.LifetimeAdmitsLimit` | apps/api/src/common/guards/ip-throttler.guard.ts:72-87 | the n requests of one counter lifetime pass exactly min(n, limit) times |
| `Throttle.SlidingBound` | apps/api/src/common/guards/ip-throttler.guard.ts:72-87 | in every run, any half-open interval as long as the window passes at most 2 * limit - 1 requests |
| `Throttle.SlidingBoundIsReached` | apps/api/src/common/guards/ip-throttler.guard.ts:72-87 | for every limit and every window of two or more instants some run reaches that number |
| `Presence.RoomPresenceService.MarkPresent` | apps/api/src/services/realtime/notification-room-presence.service.ts:23-49 | both indexes after the operation |
| `Presence.RoomPresenceService.UnmarkPresent` | apps/api/src/services/realtime/notification-room-presence.service.ts:51-81 | both indexes after the operation, the socket key gone with its last room |
| `Presence.RoomPresenceService.ClearSocket` | apps/api/src/services/realtime/notification-room-presence.service.ts:83-103 | the socket leaves every room it lists, and its key goes |
| `Presence.RoomPresenceService.IsSurfacePresent` | apps/api/src/services/realtime/notification-room-presence.service.ts:105-123 | from any stored state: true if and only if a member's socket key exists; only members without one are pruned |
| `Presence.IndexesRefineTheRelation` | apps/api/src/services/realtime/notification-room-presence.service.ts:23-103 | after any run the room index and the socket index both equal the abstract relation, lists hold no duplicates and are never empty |
| `Presence.QueryAnswersTheRelation` | apps/api/src/services/realtime/notification-room-presence.service.ts:105-123 | after any run the query answers the relation and prunes nothing |
| `Presence.RoomKeysAreDistinct` | apps/api/src/services/realtime/notification-room-presence.service.ts:12-13 | with colon-free user ids, room keys are equal if and only if user and surface are |
| `PresenceExpiry.ClearedIsNotCounted` | apps/api/src/services/realtime/notification-room-presence.service.ts:83-119 | with keys lapsing at any moment, a cleared socket is counted nowhere until it is marked again |
| `PresenceExpiry.SocketKeyIsExact` | apps/api/src/services/realtime/notification-room-presence.service.ts:23-103 | with keys lapsing, a socket key exists and lists exactly the rooms marked and not unmarked since its last clear or lapse |
| `PresenceExpiry.ClearLeavesUnlisted` | apps/api/src/services/realtime/notification-room-presence.service.ts:83-103 | a clear leaves the socket in exactly the rooms its key does not list |
| `PresenceExpiry.LapsedRoomComesBack` | apps/api/src/services/realtime/notification-room-presence.service.ts:23-49 | a room left that way counts the socket again after a mark in another room |
| `ActivityDiff.ValuesAreEqual` | apps/api/src/services/activity/activity-record.service.ts:157-197 | terminates and is true if and only if the trees have one meaning: equal but for entry order at any depth |
| `ActivityDiff.OneSideIsEnough` | apps/api/src/services/activity/activity-record.service.ts:178-194 | checking one side's keys suffices once the key counts agree |
| `ActivityDiff.CollectChanges` | apps/api/src/services/activity/activity-record.service.ts:135-155 | appends exactly the structural diff to the shared list |
| `ActivityDiff.BuildChanges` | apps/api/src/services/activity/activity-record.service.ts:122-133 | the diff, or nothing without a previous value |
| `ActivityDiff.DiffIsExact` | apps/api/src/services/activity/activity-record.service.ts:141-154 | no recorded path is a prefix of another; each change holds the previous and the updated value at its path, and they differ |
| `ActivityDiff.DiffIsAPatch` | apps/api/src/services/activity/activity-record.service.ts:135-155 | applying all changes to the previous value gives the deep merge of the update into it |
| `ActivityDiff.NoChangesIffNoEffect` | apps/api/src/services/activity/activity-record.service.ts:151-153 | nothing is recorded if and only if that merge changes nothing |
| `Json.ReorderingKeepsMeaning` | apps/api/src/services/activity/activity-record.service.ts:178-194 | the meaning of an object ignores the order of its entries |
| `RequestHash.NormalizeKeepsMeaning` | apps/api/src/common/idempotency/request-hash.util.ts:7-31 | normalizing keeps the meaning and puts every object in key order |
| `RequestHash.CanonicalIsUnique` | apps/api/src/common/idempotency/request-hash.util.ts:16-28 | trees in key order at every depth are equal when their meanings are |
| `RequestHash.NormalFormsDecide` | apps/api/src/common/idempotency/request-hash.util.ts:7-31 | two trees normalize alike if and only if they differ only in entry order |
| `RequestHash.NormalizeIsIdempotent` | apps/api/src/common/idempotency/request-hash.util.ts:7-31 | normalizing twice is normalizing once |
| `JsonText.StringifyInjective` | apps/api/src/common/idempotency/request-hash.util.ts:41-46 | the JSON text of a tree, escapes included, determines the tree |
| `RequestHash.SameHashIffSameMeaning` | apps/api/src/common/idempotency/request-hash.util.ts:41-46 | with a collision-free digest two trees hash alike if and only if they differ only in entry order |
| `RequestHash.SameHashIffSameRequest` | apps/api/src/common/idempotency/request-hash.util.ts:48-55 | with a collision-free digest of the printed form, two requests hash alike if and only if method up to letter case, path, and query and body up to entry order agree |
| `CacheKey.KeysDecideRenderings` | apps/api/src/common/utils/cache-key.util.ts:28-38 | under one prefix and colon-free names two keys are equal if and only if all rendered values agree, though values may hold the separator |
| `CacheKey.EncodeInjective` | apps/api/src/common/utils/cache-key.util.ts:65 | percent-encoding of UTF-8 loses nothing |
| `CacheKey.KeysDecideTexts` | apps/api/src/common/utils/cache-key.util.ts:49-66 | for non-empty texts two keys are equal if and only if the segments are |
| `CacheKey.KeysDecideValues` | apps/api/src/common/utils/cache-key.util.ts:28-66 | two keys are equal if and only if the values are pairwise equal or of kinds the printer cannot tell apart, each such pair listed |
| `CacheKey.KeyLayout` | apps/api/src/common/utils/cache-key.util.ts:33-37 | names and renderings joined by a colon, segments by a hyphen, after the prefix |
| `CacheKey.KeyStartsWithPrefix` | apps/api/src/common/utils/cache-key.util.ts:29-31 | an empty prefix is refused, any other starts the key |
| `Verification.VerificationTokenService.CreateVerification` | apps/api/src/modules/auth/services/verification-token.service.ts:118-173 | earlier rows of the identifier and purpose go, the new row comes with the earlier of the two expiries |
| `Verification.VerificationTokenService.ConsumeByOtp` | apps/api/src/modules/auth/services/verification-token.service.ts:79-109 | the answer at whichever matching row was picked, one attempt more after a wrong code and no other change |
| `Verification.VerificationTokenService.ConsumeByToken` | apps/api/src/modules/auth/services/verification-token.service.ts:63-77 | unknown if and only if no row has the token; otherwise the answer at a row that has it |
| `VerificationRuns.RunKeepsLedger` | apps/api/src/modules/auth/services/verification-token.service.ts:63-203 | in every run each row is the latest code for its identifier and purpose and counts its wrong guesses |
| `VerificationRuns.OneRowPerPurpose` | apps/api/src/modules/auth/services/verification-token.service.ts:164-173 | at most one row per identifier and purpose, so limit(1) has one answer |
| `VerificationRuns.OnlyTheLatestOtp` | apps/api/src/modules/auth/services/verification-token.service.ts:84-108 | an accepted OTP is that of the latest code issued |
| `VerificationRuns.OnlyTheLatestToken` | apps/api/src/modules/auth/services/verification-token.service.ts:63-77 | an accepted token is that of the latest code issued |
| `VerificationRuns.SupersededTokenIsUnknown` | apps/api/src/modules/auth/services/verification-token.service.ts:63-77 | a token whose code was replaced by a later one meets no row |
| `VerificationRuns.AttemptsAreWrongGuesses` | apps/api/src/modules/auth/services/verification-token.service.ts:190-202 | attempts equals the wrong guesses made against the row, never exceeds the maximum, and at the maximum neither OTP nor token is accepted |
| `VerificationRuns.ConsumedIsUsedUp` | apps/api/src/modules/auth/services/verification-token.service.ts:111-116 | after a row was consumed no later OTP or token is accepted at it, in any run |
| `VerificationAnswers.OtpAcceptedExactlyWhen` | apps/api/src/modules/auth/services/verification-token.service.ts:79-109 | in every run an OTP is accepted if and only if it is the non-empty one of the latest code of the user and purpose, within both expiries, not consumed since, with fewer wrong guesses than the maximum; every other answer is given too |
| `VerificationAnswers.TokenAcceptedExactlyWhen` | apps/api/src/modules/auth/services/verification-token.service.ts:63-77 | the same for tokens |
| `VerificationAnswers.RunIsComplete` | apps/api/src/modules/auth/services/verification-token.service.ts:118-203 | in every run each latest code has its row, with its expiry, wrong guesses and consumption, and there is no other row |
| `Metrics.ConnectConserves` | packages/realtime-core/src/metrics/metrics-collector.ts:58-63 | the counts stay true if and only if the socket was not tracked already |
| `Metrics.DisconnectConserves` | packages/realtime-core/src/metrics/metrics-collector.ts:66-76 | the counts stay true and neither clamp changes a value |
| `Metrics.RunsConserve` | packages/realtime-core/src/metrics/metrics-collector.ts:58-149 | in every run, resets with open sockets included, active is the index size, each role count its sockets, and the role counts sum to active, if and only if no socket was tracked twice since the last reset |
| `Metrics.ClampsNeverBite` | packages/realtime-core/src/metrics/metrics-collector.ts:66-76 | in every run, reconnects included, neither Math.max changes a value |
| `Metrics.EventsConserve` | packages/realtime-core/src/metrics/metrics-collector.ts:79-149 | in every run events by type, events by priority and latency samples each sum to the total |
| `Metrics.CountersAreCounts` | packages/realtime-core/src/metrics/metrics-collector.ts:58-149 | total connections, events of each type and of each priority, failures and summed latency are those of their own calls since the last reset |
| `Metrics.IndexIsExact` | packages/realtime-core/src/metrics/metrics-collector.ts:58-76 | the index holds for each socket the user and role it last connected with |
| `Metrics.MetricsCollector.TrackDisconnection` | packages/realtime-core/src/metrics/metrics-collector.ts:66-76 | the whole new state, event metrics untouched |

## Left out

- Clients of Redis, MongoDB, Postgres and Socket.IO, reconnects, and store errors outside idempotency and getOrSetWithLock.
- bcrypt (with its 72-byte limit), SHA-256, JWT and randomness: hashes and tokens are injective or fresh values.
- The digits of a number in JSON text: any printer that gives distinct numbers distinct texts over number characters will do.
- Handlers reached without an idempotency key, header parsing and scope templates of the interceptor: no store is involved.
- `UndisturbedBegin`: the record's createdAt is the instant of the SET NX, not the slightly earlier one at which the service reads its clock.
- `GetOrSetWithLock`: the retry loop has no bound of its own in the service; the method takes a number of retries and reports when they run out. The protocol machine has no such bound.
- Concurrent logins, refreshes and OTP guesses: those services read and write without a transaction. A refresh reads its clock once in the model.
- Device rows deleted or deactivated by anybody but a login.
- The instants at which presence keys lapse: `PresenceExpiry` lets any key lapse at any moment.
- Texts in the presence store that do not parse: nothing in the service writes one.
- The crash between INCR and the first EXPIRE of the throttler, and the key strategies that name a bucket.
- `DiffIsExact`: an update key that names a member every object inherits (`constructor`, `toString`, `__proto__` and the like) has that member read as its previous value by the service; the model takes it as missing.
- Dates, class instances, explicit undefined, dotted path texts, `__proto__` keys and locale ties in tree comparison and hashing; numbers are taken up to Object.is.
- Cache keys under different name lists; HTTP methods beyond ASCII.
- Presence by zone and store, FCM calls, metric snapshots and average latency, controllers, mail and storage drivers, seeds and scripts.
