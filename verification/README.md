# MineFolio: verified models of its hardest parts

MineFolio is a personal finance application with a C backend and a Vue front end that also works
offline. This project models, in Dafny, the parts of it whose correctness rests on invariants, on
interleavings or on rounding, and proves what they are for.

| part | files | what it is about |
|---|---|---|
| offline sync | `SyncRecords`, `SyncProtocol`, `SyncColumns`, `SyncRenaming`, `SyncStore`, `SyncPull` | writes made offline get placeholder ids and a queue; a push replaces each placeholder by the id the server gives, everywhere; a pull merges by timestamp |
| token versions | `TokenCache` | the cache of token versions, in every interleaving of requests, clock and version changes |
| AI configuration | `Snapshot`, `SnapshotRuns` | the reference-counted configuration snapshot, in every interleaving of readers, reloads and shutdowns |
| rate limits | `RateLimit`, `RateLimitWindow`, `RateLimitRuns`, `RateLimitBursts`, `RateLimitLateBursts` | the ring buffer against the sliding window it stands for, with threads that wait for its lock |
| money | `Arith`, `Decimals`, `TxTypes`, `Position`, `Books`, `Audit`, `Ledger`, `LedgerLaws`, `TradeLaws`, `TxMoves`, `UnnoticedFailures`, `TradeRuns`, `NetWorthLaws` | posting with an audit log, positions at average cost, applying and reversing transactions, what they do to net worth |
| reports | `Valuation`, `AssetReport`, `FxPnl`, `ExpenseReport` | history rebuilt from the log, profit split into price and rate, percentages that add up |
| streams | `EventStream`, `Typewriter`, `OutputBuffer`, `ToolSpans`, `JsonText`, `ToolSpansJson`, `ToolSpansCut`, `CString`, `Utf8` | the event reader, the frame-driven writer, the trace buffers, cutting UTF-8 |

Where the source changes things step by step, the model is a class or a method on arrays with the same
fields, branches and loops; its contract equates the outcome with a function, and the lemmas are about
that function. Concurrent code is a state machine over atomic steps. The function form of an operation
(`Books.Applied`, `RateLimit.Admit`, `EventStream.Feed`, ...) is what the methods are proved against and
what the lemmas reason about, so it has no row of its own below. Every proof by induction is written
out; the automatic kind is switched off.

Conventions. Money is a count of minor units of its currency, because the callers build every amount
with the precision of its currency (`money_from_double`); quantities and prices count 10^-4. Days are day
numbers. A failing database call, allocation or request is an explicit input. A queue item's id is its
position in the queue. One push pass runs at a time, as the `syncing` flag sees to.

Findings that differ from what the code or its comments suggest, each proved below:

- A configured limit of 10 requests per (path, address) is kept only while at most 102 such keys are
  active per minute; with one more a burst gets 11 of one key through (`AuthBurst`). The tool limit of 120
  per user is kept for at most 2 active users (`McpBurst`).
- The limiters read the clock before they take their lock. When a request waits d seconds in between, the
  limit holds for intervals of 60 - d seconds and no longer ones: a wait of one second lets 11 requests of
  one key through in 60 (`AuthLimit`, `LateLockAdmitsMore`, `AuthLateLock`). And with any such wait it holds
  for at most 51 active keys, or a single active user: with 52 keys, or two users, one request too many
  gets through in 60 - d seconds (`AuthCrowd`, `McpCrowd`).
- A reversal converts at the rates of its own day. When these have moved, accounts in another currency than
  the transaction's keep the difference: 100.00 USD paid in at 7.00 and taken back at 7.10 leave a CNY
  account 10.00 short (`RatesMoveInBetween`). All accounts are restored exactly if what was posted to each
  is worth as much at both rates (`ReverseUndoesApply`). The cost of a position keeps the difference too,
  and more if a rollback takes off more than the cost there is (`BuysAddUp`).
- Balanced percentages add up to 100.00 for up to 11 groups; with 12 they may come to 100.06
  (`TwelveGroupsMayMiss`).
- A full sell that is rolled back takes the sale's price for the lost cost (`FullSellThenRollback`).
- A create that the server answers without an id leaves a placeholder behind that nothing removes
  (`AckStrandsExactlyWithoutId`).
- A token can be accepted a little less than five seconds after its version has been raised
  (`StaleAcceptance`).
- A recorded tool call whose entry comes to 256 characters or more, as for every name from 213 characters
  on, makes the recorded text no JSON, so that it is dropped when the trace is saved; for names without
  escapes nothing else does (`ReadableExactly`, `LongNameBreaks`).
- The last line of an event stream is ignored if no line end follows it (`UnterminatedIsIgnored`), as an
  unfinished last event is in the HTML standard; but an event type stays in force for later frames without
  one (`TypePersists`), and a data line in front of its event line gets the type before, unlike in section
  9.2.5 of that standard. The types are those of the standard exactly if in all such frames the last type
  given is the one meant (`TypesAreMeantExactly`).
- A buy marks the whole holding at its price, and a sell what is left at the last one, so a trade moves net
  worth by that revaluation, and keeps it only if that equals what was paid (`TradeMovesNet`,
  `BuyRevaluesTheRest`). Transfers do conserve net worth, up to fees (`TransfersConserveNetWorth`).
- If reading the position fails, a trade succeeds all the same: the money moves and the holding does not
  (`UnreadPositionCosts`). The check for a failed deletion of fee rows compares a result that is 0 or 1 with
  less than 0, so such a failure goes unnoticed too (`Ledger.Book.ReverseTx`).
- A trade with a fee and no funding account leaves the asset's balance below its market value by the fee
  (`TradeIsMarked`).
- A comment promises 3 to 10 characters a frame for 81 to 250 waiting; the code stops at 8 (`SpeedByBacklog`).
- The rate profit of holdings without cost has no counterpart in the report's totals (`TotalError`).

## Model

| member | source | states |
|---|---|---|
| SyncStore.Sync.LoadQueue | frontend/src/stores/sync.ts:70-84 | the in-memory queue is exactly the unsynced items, in queue order |
| SyncStore.Sync.Enqueue | frontend/src/stores/sync.ts:103-110 | the item is added last, unsynced and without conflict; nothing else changes |
| SyncStore.Sync.MarkSynced | frontend/src/stores/sync.ts:116-120 | exactly one item's synced flag changes, and the pending list follows |
| SyncStore.Sync.MarkConflict | frontend/src/stores/sync.ts:126-130 | exactly one item's conflict flag changes; it stays pending |
| SyncStore.Sync.NextLocalId | frontend/src/utils/offline-http.ts:51-57 | the smallest id from the clock value on that no row of the table has |
| SyncStore.Sync.WriteLocal | frontend/src/utils/offline-http.ts:66-89 | row and queue afterwards for create, update, delete and empty payloads |
| SyncStore.Sync.WriteOffline | frontend/src/utils/offline-http.ts:113-137 | which record id a failed write gets, and that row, queue item and id agree |
| SyncStore.Sync.RemapPayloads | frontend/src/stores/sync.ts:146-171 | exactly the unsynced items queued later change, in their foreign keys to the old id only |
| SyncStore.Sync.RemapRefs | frontend/src/stores/sync.ts:140-200 | asset_id of transactions and expenses and linked_asset_id of transactions that held an asset's old id, or account_id of assets that held an account's, hold the new one, in local rows and in later unsynced items; all other columns keep their values |
| SyncStore.Sync.Adopt | frontend/src/stores/sync.ts:229-243 | a server id replaces the placeholder in the row, in exactly those columns and in later items, or nothing changes when the id is taken |
| SyncStore.Sync.OnAnswer | frontend/src/stores/sync.ts:225-258 | what success, an authentication failure, a business error and a network error each do; after a create with a new id rows and queue follow column by column |
| SyncStore.Sync.PushLocal | frontend/src/stores/sync.ts:205-260 | the whole pass, with user writes during every await, is the specified sequence of sends over the live queue |
| SyncStore.PassIsARun | frontend/src/stores/sync.ts:205-260 | what the loop does is a run of the protocol's steps |
| SyncStore.PassTheorem | frontend/src/stores/sync.ts:205-260 | when every call of a pass succeeds: all its items are synced; one renaming, built from the answers, sends each queued placeholder to an id of its own that the server never gave out before; the server equals the queued operations so renamed, applied in order; and the local tables are the old ones so renamed, plus the writes made meanwhile |
| SyncProtocol.StartsWell | frontend/src/stores/sync.ts:53-60 | an empty device satisfies the invariant |
| SyncProtocol.WriteKeepsInv | frontend/src/utils/offline-http.ts:66-89 | an offline write keeps the invariant at any moment |
| SyncProtocol.AckKeepsStore | frontend/src/stores/sync.ts:225-249 | an acknowledged create keeps the invariant of tables and queue |
| SyncProtocol.RunKeepsInv | frontend/src/stores/sync.ts:205-296 | every run of writes, sends, answers, losses and pulls keeps the invariant |
| SyncProtocol.NoStalePlaceholder | frontend/src/stores/sync.ts:132-139 | in every run a placeholder occurs in a local id, a foreign key or an unsent item only while its own create is unacknowledged |
| SyncProtocol.AckKeepsForeignKeys | frontend/src/stores/sync.ts:140-200 | a foreign key that resolved before a remapping resolves after it, to the same record |
| SyncProtocol.AckStrandsExactlyWithoutId | frontend/src/stores/sync.ts:227-249 | an acknowledged create leaves its placeholder behind if and only if the answer carries no id |
| SyncProtocol.SyncedExactlyWhenAcked | frontend/src/stores/sync.ts:249 | over any run an item becomes synced exactly by a successful answer to its own call |
| SyncProtocol.AcknowledgedIsNeverResent | frontend/src/stores/sync.ts:70-84 | no acknowledged item is sent again, and no unacknowledged one leaves the queue |
| SyncColumns.NoStaleAssetId | frontend/src/stores/sync.ts:132-200 | at the end of every run, once an asset's create is acknowledged, its placeholder is in no asset_id or linked_asset_id of a transaction and in no asset_id of an expense, in the local rows or in what is still to be sent |
| SyncColumns.NoStaleAccountId | frontend/src/stores/sync.ts:175-200 | and that of an account in no account_id of an asset |
| SyncColumns.AckByColumn | frontend/src/stores/sync.ts:225-249 | after an acknowledged create exactly these columns that held the old id hold the new one, in local rows and in later unsynced items, and every other column of every row and item keeps its value |
| SyncColumns.WriteByColumn | frontend/src/utils/offline-http.ts:66-89 | an offline write changes its own row only: a delete marks it, anything else makes it alive with the written columns over those it had; the item is queued last, unsynced and without a conflict |
| SyncColumns.FailureByItem | frontend/src/stores/sync.ts:250-258 | a business error flags the one item, a network or authentication error changes nothing |
| SyncColumns.ServerByItem | frontend/src/stores/sync.ts:222-248 | what creates, updates and deletes do to the server's rows, and that they leave all others alone |
| SyncRenaming.AckIsInvisible | frontend/src/stores/sync.ts:229-243 | up to the final renaming of placeholders an acknowledgement changes nothing in the local tables |
| SyncRenaming.RunIsNamed | frontend/src/stores/sync.ts:225-249 | every run, lost answers included, has its renaming: the ids it gave to placeholders are new and pairwise distinct, agree with every answer, and none of those placeholders is left in the tables |
| SyncRenaming.RenamingIsInvisible | frontend/src/stores/sync.ts:205-296 | over any run, with failures and lost answers, the local tables end as the renamed writes and pulls alone make them of the renamed tables it began with |
| SyncRenaming.ViewOfServerIds | frontend/src/stores/sync.ts:205-260 | once nothing is pending the renamed tables are the local tables themselves |
| SyncRenaming.PassAppliesTheQueue | frontend/src/stores/sync.ts:205-260 | a pass of successful calls applies its items to the server in queue order, each queued placeholder replaced by the id it was given |
| SyncPull.Puller.UpsertLocal | frontend/src/stores/sync.ts:303-314 | the row is there and not deleted, has every allowed column of the record, and keeps its others; all other rows are as before |
| SyncPull.Puller.MergePage | frontend/src/stores/sync.ts:277-285 | a page's rows are merged in order by timestamp |
| SyncPull.Puller.PullTable | frontend/src/stores/sync.ts:270-293 | with honest paging the loop ends and merges each row of the snapshot once; a failing page keeps what came before it; the queue is untouched |
| SyncPull.Puller.PullRemote | frontend/src/stores/sync.ts:265-296 | the four tables are pulled in order, and a failure in one does not keep the others from being pulled |
| SyncPull.PullLeavesUnlisted | frontend/src/stores/sync.ts:277-285 | rows the server does not list stay as they are |
| SyncPull.PullNeverLowers | frontend/src/stores/sync.ts:280-284 | no local row's updated_at goes down |
| SyncPull.PullIsIdempotent | frontend/src/stores/sync.ts:265-296 | pulling the same snapshots of the four tables again, with the same failing pages, changes nothing in any of them |
| SyncPull.ServerWins | frontend/src/stores/sync.ts:262-264 | after a pull each listed row has the server's fields exactly if the server's was not older |
| SyncColumns.NoTimeIsOldest | frontend/src/stores/sync.ts:280-284 | a server row without a time replaces a local one without a time, and none with one |
| SyncPull.AllowedIsTheSchema | frontend/src/db/schema.ts:22-110 | the columns a pull stores are exactly those the local tables are created with, besides the id and the mark of deletion |
| SyncPull.FullPagesArrive | frontend/src/stores/sync.ts:271-292 | when the request for a page fails, exactly the full pages of 500 rows before it have arrived |
| TokenCache.Cache.Lookup | backend/src/middlewares/jwt_middleware.c:67-76 | a hit if and only if a live entry of the user has the token's version |
| TokenCache.Cache.Store | backend/src/middlewares/jwt_middleware.c:97-117 | the result goes to the user's slot, a new one, or the one the clock picks, and nowhere else |
| TokenCache.Cache.Validate | backend/src/middlewares/jwt_middleware.c:57-120 | undisturbed, a token is valid if and only if a live entry or the database has its version, and the cache changes only on a miss; `PutIsAnswered` says for how long |
| TokenCache.PutKeepsUsersDistinct | backend/src/middlewares/jwt_middleware.c:98-113 | cached user ids stay pairwise distinct |
| TokenCache.PutIsAnswered | backend/src/middlewares/jwt_middleware.c:67-117 | what is stored for a user is answered for exactly the next 5000 ms, if the user was found; of other users at most one is forgotten, and only when 128 are cached |
| TokenProtocol.StartsWell | backend/src/middlewares/jwt_middleware.c:39-41 | the empty cache satisfies the invariant |
| TokenProtocol.RunKeepsInv | backend/src/middlewares/jwt_middleware.c:57-120 | every interleaving of requests, ticks and version changes keeps the invariant |
| TokenProtocol.RequestsGoOn | backend/src/middlewares/jwt_middleware.c:57-120 | in every reachable state each undecided request can take its next step |
| TokenProtocol.AcceptedWasCurrent | backend/src/middlewares/jwt_middleware.c:57-120 | an accepted token's version was the database's at an instant later than the request's clock minus 5000 ms |
| TokenProtocol.RevokedIsRefused | backend/src/middlewares/jwt_middleware.c:20-28 | over any run that only raises versions, a token whose version was surpassed 5000 ms or more before the request is refused |
| TokenProtocol.RemovedIsRefused | backend/src/middlewares/jwt_middleware.c:83-96 | over any run, a removed user who is not created anew is refused from 5000 ms after the removal on, whatever the version |
| TokenProtocol.StepKeepsGrowing | backend/src/application/auth/usecases.c:333-334 | raising versions above all earlier ones makes a growing history |
| TokenProtocol.RunKeepsGrowing | backend/src/application/auth/usecases.c:333-334 | over any run in which each change raises a user's version above all earlier ones, the history of every user grows |
| TokenProtocol.RefusalRestsOnOwnRead | backend/src/middlewares/jwt_middleware.c:78-119 | in every interleaving a refused request read the database itself, no earlier than it began, and the query failed or its version was not the one held then |
| TokenProtocol.CurrentIsAccepted | backend/src/middlewares/jwt_middleware.c:78-119 | a version in force from the request on is accepted whatever is cached, unless its own query failed |
| TokenProtocol.StaleAcceptance | backend/src/middlewares/jwt_middleware.c:24-28 | the 5 s are needed: a run that accepts a version exactly 4999 ms after it was raised |
| Snapshot.StartsWell | backend/src/services/ai_service.c:40-41 | without a snapshot the invariant holds |
| Snapshot.RunKeepsInv | backend/src/services/ai_service.c:43-112 | in every run each count equals the shares held plus the writer's |
| Snapshot.HeldIsAlive | backend/src/services/ai_service.c:79-89 | what a reader holds or has just seen installed is not freed and has a positive count |
| Snapshot.ZeroIsFinal | backend/src/services/ai_service.c:65-72 | a count of zero never leaves zero |
| Snapshot.FreedOnlyOnceAndUnused | backend/src/services/ai_service.c:95-112 | a snapshot is freed at most once, and only when nobody has a share of it |
| Snapshot.RetiredIsFreed | backend/src/services/ai_service.c:231-268 | a replaced snapshot without readers is freed, or one thread's next step frees it |
| Snapshot.QuiescentLeavesOne | backend/src/services/ai_service.c:231-268 | when all threads are done exactly the installed snapshot is left |
| Snapshot.ThreadsGoOn | backend/src/services/ai_service.c:79-268 | in every reachable state each thread inside one of the functions can take its next step |
| Snapshot.IdleGoesOn | backend/src/services/ai_service.c:82-262 | a thread at rest waits for nothing but the lock |
| SnapshotRuns.MadeIsInstalled | backend/src/services/ai_service.c:231-249 | in every interleaving, when the thread that made a snapshot leaves ai_init that snapshot is installed and not freed, and the one before no longer is installed |
| SnapshotRuns.FailureKeepsInstalled | backend/src/services/ai_service.c:241-249 | without memory for a new one the old snapshot stays installed |
| SnapshotRuns.ShutdownLeavesNothing | backend/src/services/ai_service.c:259-264 | when a thread drops the lock in ai_shutdown nothing is installed |
| SnapshotRuns.ReaderGetsInstalled | backend/src/services/ai_service.c:79-93 | a reader gets exactly what was installed when it took the lock |
| SnapshotRuns.ReadersGetTheNewOne | backend/src/services/ai_service.c:79-249 | after a reload every reader that comes before the next reload or shutdown holds the new snapshot, not freed |
| RateLimit.Limiter.EvictOld | backend/src/middlewares/rate_limit.c:73-80 | exactly the entries older than the window leave the ring |
| RateLimit.Limiter.CountMatches | backend/src/middlewares/rate_limit.c:110-121 | the matches among the scanned entries are counted |
| RateLimit.Limiter.Request | backend/src/middlewares/rate_limit.c:107-149 | the ring's contents afterwards and the decision, wrap-around and overflow included |
| RateLimitWindow.RingIsSuffix | backend/src/middlewares/rate_limit.c:134-145 | whatever the load, the ring holds the most recent admitted requests |
| RateLimitWindow.RefusalIsJustified | backend/src/middlewares/rate_limit.c:123-132 | whatever the load, a request is refused only if the limit was admitted in the last 60 s |
| RateLimitWindow.Pigeonhole | backend/src/middlewares/rate_limit.c:18-34 | entries of few keys with few of each are few |
| RateLimitWindow.RefinesWindow | backend/src/middlewares/rate_limit.c:87-150 | let captured times step back by at most d seconds in lock order and few enough keys be active: the ring is what is left of the admitted requests and drops no live one; a request is admitted only if fewer than the limit were in the last 60 - d s, refused only if the limit was in the last 60 s; no closed interval of 60 - d s exceeds the limit |
| RateLimitRuns.WaitBoundsLag | backend/src/middlewares/rate_limit.c:105-107 | in every run of threads that read the clock and then wait for the mutex, times step back in lock order by no more than the longest wait |
| RateLimitRuns.CountTogetherExactly | backend/src/middlewares/rate_limit.c:103-118 | requests count together if and only if path and address agree in their first 63 characters, a missing address being the local one |
| RateLimitRuns.AuthLimit | backend/src/middlewares/rate_limit.c:22-34 | with waits of at most d s and at most 102 active (path, address) pairs, or 51 with waits of 1 s or more: at most 10 requests per pair in any 60 - d s |
| RateLimitRuns.McpLimit | backend/src/middlewares/rate_limit.c:161-167 | with waits of at most d s and at most 2 active users, or 1 with waits of 1 s or more: at most 120 requests per user in any 60 - d s |
| RateLimitRuns.LateLockAdmitsMore | backend/src/middlewares/rate_limit.c:105-107 | 60 - d is exact: with two keys and one wait of d s, limit + 1 requests of a key pass within one second more |
| RateLimitRuns.AuthLateLock | backend/src/middlewares/rate_limit.c:105-107 | a run with one wait of a second lets 11 requests of one pair pass in 60 s |
| RateLimitBursts.OneKeyTooMany | backend/src/middlewares/rate_limit.c:134-138 | the number of active keys is exact: for any distinct keys, one more than there is room for, a run without waits passes limit + 1 requests of the first within a second |
| RateLimitBursts.AuthRingHolds | backend/src/middlewares/rate_limit.c:134-145 | of requests of different addresses the ring remembers exactly the newest 1024 |
| RateLimitBursts.McpRingHolds | backend/src/middlewares/rate_limit.c:269-285 | of different users the newest 256 |
| RateLimitBursts.AuthBurst | backend/src/middlewares/rate_limit.c:134-138 | 103 addresses on one path: 11 requests of the first pass within a second |
| RateLimitBursts.McpBurst | backend/src/middlewares/rate_limit.c:269-273 | three users: 121 requests of the first pass within a second |
| RateLimitLateBursts.LateCrowd | backend/src/middlewares/rate_limit.c:105-149 | the number of keys is needed with waits as well: for any configuration whose capacity is below limit * (2k - 1) and any longest wait d >= 1, a run of k keys gets limit + 1 requests of one of them through in 60 - d s |
| RateLimitLateBursts.AuthCrowd | backend/src/middlewares/rate_limit.c:22-34 | 52 addresses on one path and waits of at most d >= 1 s: 11 requests of the first in 60 - d s |
| RateLimitLateBursts.McpCrowd | backend/src/middlewares/rate_limit.c:161-167 | two users and waits of at most d >= 1 s: 121 requests of the first in 60 - d s |
| Decimals.HalfUpNear | backend/src/core/financial/decimal.c:644-748 | half-up rounding gives a nearest integer, ties away from zero |
| Decimals.HalfUpIs | backend/src/core/financial/decimal.c:644-748 | and that property determines it |
| Decimals.ConvertOdd | backend/src/services/market/exchange_rate_service.c:132-148 | converting the opposite amount gives the opposite result |
| Decimals.DivNear | backend/src/core/ledger/ledger_engine.c:157-160 | quotients are rounded to the nearest, for any signs and scales |
| Decimals.MinorUnits | backend/src/common/balance.c:68-80 | how many decimals each currency has |
| Decimals.NoCodeIsYuan | backend/src/common/balance.c:74-80 | money without a currency code counts as CNY in every conversion |
| TxTypes.FindType | backend/src/common/tx_types.c:22-34 | exactly the ten registered types have an entry, and which of them move money into the asset, into the linked account and into the statistics |
| TxTypes.PairCancels | backend/src/common/tx_types.c:36-82 | a type's two registry deltas cancel if and only if it is no fee, income or loss, or the amount is zero |
| Position.LiveBuysAddUp | backend/src/common/balance.c:246-251 | after any run of buys and rollbacks of live buys, in any order, each rollback at any amount: the quantity is the base plus the live buys, its clamp never bites; the cost is the base plus the live buys, plus what rollbacks took off less than was paid, plus what the clamp cut off, which is nothing if and only if no rollback took off more than there was |
| Position.UnboughtRestores | backend/src/common/balance.c:429-443 | a buy rolled back at once restores quantity and cost if and only if neither was negative |
| Position.SoldWithin | backend/src/core/ledger/ledger_engine.c:125-183 | a sell succeeds if and only if the quantity is there, takes exactly it, and leaves a cost between zero and the old one |
| Position.ShareError | backend/src/core/ledger/ledger_engine.c:157-167 | the cost share is within half a minor unit plus half of 10^-12 of the cost of the exact proportion |
| Position.MarketValueNear | backend/src/common/balance.c:293-301 | the market value is the nearest minor unit to net value times quantity |
| Position.RollbackError | backend/src/common/balance.c:444-459 | the same bound for what rolling back a partial sell restores |
| Position.SellThenRollback | backend/src/common/balance.c:444-459 | a partial sell and its rollback give the quantity back exactly and the cost within the composed rounding bound |
| Position.FullSellThenRollback | backend/src/common/balance.c:455-457 | a full sell and its rollback restore the holding if and only if the sale's value rounds to the old cost |
| Position.CostStaysPaidFor | backend/src/core/ledger/ledger_engine.c:125-183 | over any run of buys and sells quantity and cost stay non-negative and the cost never exceeds what was paid |
| Position.NothingHeldCostsNothing | backend/src/core/ledger/ledger_engine.c:143-155 | once everything is sold, in however many parts, no cost is left |
| Audit.PostKeepsAudit | backend/src/common/balance.c:90-150 | each log's balance_after is the opening balance plus the prefix sum of deltas, and each balance the total |
| Audit.ApplyKeepsAudit | backend/src/core/ledger/ledger_engine.c:319-670 | applying a transaction keeps that |
| Audit.ReverseKeepsAudit | backend/src/core/ledger/ledger_engine.c:672-845 | and so does reversing one |
| Audit.BackwardsIsHistory | backend/src/services/report_asset_service.c:173-178 | today's balance less the later deltas is the balance_after of the last log on or before the day |
| Ledger.Book.SignedDelta | backend/src/common/balance.c:77-87 | the delta in the asset's currency, turned round for liabilities |
| Ledger.Book.ApplyDelta | backend/src/common/balance.c:30-158 | return code, new balance and log; any failing call or foreign asset leaves the tables unchanged |
| Ledger.Book.ApplyPosition | backend/src/common/balance.c:187-320 | the new holding and the delta to its market value; nothing and success when the position cannot be read; nothing and an error when too much is sold or the update fails |
| Ledger.Book.RollbackPosition | backend/src/common/balance.c:366-492 | the holding with the trade taken back, and the delta; nothing and success when the position cannot be read; nothing and an error when the update fails |
| Ledger.Book.ApplyTx | backend/src/core/ledger/ledger_engine.c:319-670 | unchanged on failure, else the transaction, up to the named unnoticed failures; `TxMoves` says what that is for each type |
| Ledger.Book.ReverseTx | backend/src/core/ledger/ledger_engine.c:672-845 | the same for a reversal: unchanged on failure; on success reversed in full, its fee rows removed, except for failed reads of fee rows and position and a failed deletion, whose outcomes are stated |
| TxMoves.RefusedExactly | backend/src/common/balance.c:52-72 | a posting of the ledger is refused if and only if it moves something and its account is not there or not the user's |
| TxMoves.AcceptedExactly | backend/src/core/ledger/ledger_engine.c:319-670 | a transaction is accepted if and only if it names a user and an account, its type is known and no loss, the row to overwrite is there, a sell is covered and every account that has to move is the user's own |
| TxMoves.MainAccountGains | backend/src/core/ledger/ledger_engine.c:610-632 | deposits, incoming transfers, interest and income add exactly the amount to the main account, withdrawals and outgoing transfers take it off, and so do unlinked fees; a fee on top comes off unless another account pays it; all turned round for debts |
| TxMoves.LinkedAccountGains | backend/src/core/ledger/ledger_engine.c:634-660 | the linked account pays for deposits, incoming transfers, interest, fees and buys and is paid by withdrawals, outgoing transfers, income and sells, less the fee on top; turned round for debts |
| TxMoves.OthersGainNothing | backend/src/core/ledger/ledger_engine.c:554-666 | no other account changes at all |
| TxMoves.FeeIsRecorded | backend/src/core/ledger/ledger_engine.c:554-600 | a transaction with a fee leaves two rows, the second being the fee charged to the paying account, with no fee of its own |
| TxMoves.AppliedLogs | backend/src/common/balance.c:128-148 | one log entry for each of fee, main and linked posting that moves something, in this order, with its own account and source and the row, user and day |
| TxMoves.ReversedLogs | backend/src/core/ledger/ledger_engine.c:705-840 | the same for a reversal: fees given back, main, linked |
| TxMoves.FeesWithoutAccount | backend/src/core/ledger/ledger_engine.c:705-760 | fee rows that name no account are passed over and do not keep a reversal from succeeding |
| UnnoticedFailures.UnstoredFeeRow | backend/src/core/ledger/ledger_engine.c:554-600 | when the fee's row cannot be stored, balances, positions and log are as with it, and only that row is missing |
| UnnoticedFailures.UndeletedFeeRows | backend/src/core/ledger/ledger_engine.c:705-760 | when the fee rows cannot be deleted, everything else is reversed as with it, and no row goes |
| UnnoticedFailures.UnreadFeeRows | backend/src/core/ledger/ledger_engine.c:705-760 | when the fee rows cannot be read, no fee is given back and no row goes |
| UnnoticedFailures.UnreadPositionStays | backend/src/common/balance.c:380-395 | a reversal that cannot read the position, nor the fee rows, leaves the traded asset as it is |
| TxMoves.BuyInDollars | backend/src/common/balance.c:215-251 | a buy in another currency adds its quantity, amount and fee at the rate to the cost, and sets the net value to the price at the rate |
| LedgerLaws.ReverseUndoesApply | backend/src/core/ledger/ledger_engine.c:672-845 | reversing a transaction that is no trade, at any rates, succeeds, drops its fee row, and leaves each account off by its postings' worth at the rates of the application less at those of the reversal; all are restored if and only if these are equal, as they are at equal rates or in the account's own currency |
| LedgerLaws.RatesMoveInBetween | backend/src/common/balance.c:77-80 | 100.00 USD paid into a CNY account at 7.00 and taken back at 7.10 leave it 10.00 CNY short |
| LedgerLaws.BuyTakenBack | backend/src/common/balance.c:429-443 | a buy taken back at any rates restores the quantity if and only if it was not negative, and the cost if and only if it was not negative and as much was taken off as was paid, or it was zero and more was; the net value stays that of the buy |
| LedgerLaws.PositionIsMarked | backend/src/common/balance.c:293-301 | once the returned delta is posted, current_value is the rounded net value times quantity |
| NetWorthLaws.PostChangesNet | backend/src/common/balance.c:83-98 | a posting adds exactly its amount to assets less liabilities, for liabilities too |
| NetWorthLaws.ApplyChangesWorth | backend/src/core/ledger/ledger_engine.c:470-670 | applying any transaction moves total net worth by exactly its effect: a trade by the revaluation of its holding less what was paid, any other by its registry deltas; and by minus the fee |
| NetWorthLaws.ApplyChangesNet | backend/src/core/ledger/ledger_engine.c:554-666 | the same in the units of each currency, also when a failed call went unnoticed |
| NetWorthLaws.TradeMovesNet | backend/src/core/ledger/ledger_engine.c:489-660 | a trade in one currency moves the net by market value of the new holding less old balance less what was paid, and leaves it unchanged if and only if these are equal |
| NetWorthLaws.BuyRevaluesTheRest | backend/src/common/balance.c:237-301 | buying one unit for 10.00 beside ten held at 5.00 adds 50.00 of net worth |
| NetWorthLaws.UnreadPositionCosts | backend/src/common/balance.c:200-211 | when reading the position fails the trade succeeds, the holding stays and the owner is poorer by what was paid |
| NetWorthLaws.RunChangesNetWorth | backend/src/core/ledger/ledger_engine.c:319-670 | over any run of transactions, trades included, total net worth moves by the sum of their effects |
| NetWorthLaws.TransfersConserveNetWorth | backend/src/core/ledger/ledger_engine.c:554-666 | over any run of deposits, withdrawals, interest and transfers between accounts of one currency each, total net worth falls by exactly the fees |
| TradeLaws.TradeIsMarked | backend/src/core/ledger/ledger_engine.c:489-660 | after a trade, with a new row or an old one, the asset's balance is the market value of its new holding, less its fee if no other account pays it, and with its own payment if it is its own funding account |
| TradeLaws.ReverseTradeGoesThrough | backend/src/core/ledger/ledger_engine.c:672-845 | an applied trade can always be reversed right after it, at any rates |
| TradeLaws.ReverseTradeRestoresOthers | backend/src/core/ledger/ledger_engine.c:705-840 | and that leaves every other account off by its fee and payment at the rates of the trade less at those of the reversal, so restored if and only if these are equal, as they are in its own currency |
| TradeLaws.ReverseTradeIsMarked | backend/src/core/ledger/ledger_engine.c:760-830 | reversing a trade at any later time and any rates puts the traded asset at the market value of the holding with the trade taken back, less what it gives back itself if it was its own funding account |
| TradeRuns.BuysAddUp | backend/src/core/ledger/ledger_engine.c:319-845 | over any run of transactions and reversals on the tables, each at its own rates, in which an asset is only bought and no buy is reversed twice: its quantity is that at the start plus the buys still live, its cost likewise plus what moved rates and the clamp at zero did, and every live buy is still found in its row |
| TradeRuns.OwnCurrencyAddsUp | backend/src/common/balance.c:399-443 | when the asset is bought in its own currency rates do nothing: its cost is that at the start plus amount and fee of the live buys |
| TradeRuns.StepMarks | backend/src/common/balance.c:293-301 | in every state of such a run, a buy or its reversal paid for by another account leaves the asset's balance at the market value of what it then holds |
| AssetReport.SamplesSpanPeriod | backend/src/services/report_asset_service.c:51-81 | the five sample days run in order from the first day of the period, of 1 to 365 days or else 30, to today |
| AssetReport.OldLogsDoNotMatter | backend/src/services/report_asset_service.c:127-147 | logs before the first sample make no difference |
| AssetReport.Trend | backend/src/services/report_asset_service.c:163-186 | the five points are the two sides of the rebuilt balances over all logs |
| AssetReport.TrendIsHistory | backend/src/services/report_asset_service.c:163-186 | each sample is the net worth that the audit log states for its day |
| AssetReport.Summary | backend/src/services/report_asset_service.c:395-481 | totals and signed change of the summary |
| AssetReport.SummaryAgreesWithLog | backend/src/services/report_asset_service.c:446-484 | net worth less the 30-day change is the net worth the log states for the day before the window |
| AssetReport.SummaryAgreesWithTrend | backend/src/services/report_asset_service.c:446-484 | the summary's net worth less its change equals the trend's point for the day before the window, plus the worth of the assets created since, which no such point has |
| AssetReport.ReportsAgreeAtRates | backend/src/services/report_asset_service.c:446-484 | at any rates per currency, and with every asset older than the window, the two are the same number |
| FxPnl.SplitError | backend/src/services/report_asset_service.c:770-795 | price and rate profit together miss the profit in the base currency by at most 2 minor units, for rates of any precision |
| FxPnl.WithoutCost | backend/src/services/report_asset_service.c:782-787 | without a cost the split goes over by exactly its rate profit |
| FxPnl.ConversionNear | backend/src/services/report_asset_service.c:783-795 | a conversion is within half a minor unit of amount times rate, or three quarters for products of more than 18 decimals |
| FxPnl.ValueIs | backend/src/services/report_asset_service.c:747-755 | the value of a row is its current value, else net value times quantity to the nearest minor unit |
| FxPnl.TotalsAreSums | backend/src/services/report_asset_service.c:757-801 | the market total is the sum of the values converted at today's rate, the cost total that of the costs at the rate at purchase or else today's, the price profit that of value less cost at today's rate, and combined is price plus rate profit |
| FxPnl.RateProfitFollowsRates | backend/src/services/report_asset_service.c:762-789 | one more row adds no rate profit without a rate at purchase; with one it adds none below zero when the rate rose and none above when it fell |
| FxPnl.Report | backend/src/services/report_asset_service.c:732-801 | the loop's totals are those of the rows, with combined equal to price plus rate part |
| FxPnl.TotalError | backend/src/services/report_asset_service.c:797-801 | combined profit misses the sum of converted values less that of converted costs by at most 2 units per holding with a cost, besides the rate profit without cost |
| ExpenseReport.GroupRows | backend/src/services/report_expense_service.c:497-523 | groups and total, with the cap of 128 groups and 127 characters |
| ExpenseReport.GroupingKeepsTotal | backend/src/services/report_expense_service.c:497-523 | every amount is in exactly one group, or among those dropped |
| ExpenseReport.OneGroupPerName | backend/src/services/report_expense_service.c:508-522 | with at most 128 names of up to 127 characters there is one group per name and it holds the sum of its rows |
| ExpenseReport.GroupNamesAreCut | backend/src/services/report_expense_service.c:513-520 | every group is named after one of its rows, in at most 127 characters |
| ExpenseReport.SortGroups | backend/src/services/report_expense_service.c:526-535 | a descending permutation |
| ExpenseReport.Percentages | backend/src/services/report_expense_service.c:537-561 | rounded percentages with the difference added to the largest group if it is at most 0.05 |
| ExpenseReport.AddsUpExactlyWithinTolerance | backend/src/services/report_expense_service.c:556-561 | the result adds up to 100.00 if and only if rounding was off by at most 0.05 |
| ExpenseReport.PercentagesAddUp | backend/src/services/report_expense_service.c:537-561 | with at most 11 groups of a positive total the percentages add up to 100.00 |
| ExpenseReport.NoneIsNegative | backend/src/services/report_expense_service.c:537-561 | for non-negative amounts no percentage is negative, in any report of up to 128 groups |
| ExpenseReport.TwelveGroupsMayMiss | backend/src/services/report_expense_service.c:556-561 | with 12 groups they may add up to 100.06 |
| ExpenseReport.OnlyFirstIsCorrected | backend/src/services/report_expense_service.c:537-561 | in a sorted report every percentage is the nearest hundredth, except that the first takes the correction; without a positive total all are zero |
| ExpenseReport.CategoryReport | backend/src/services/report_expense_service.c:444-575 | the whole report: a descending permutation of the groups; percentages to the nearest hundredth but for the first, all zero without a positive total, adding up for plain rows and never negative for non-negative ones |
| EventStream.Read | frontend/src/api/ai.ts:320-366 | the loop's events, buffer and event type are those of feeding the chunks one by one |
| EventStream.FeedTwice | frontend/src/api/ai.ts:328-361 | feeding two pieces is feeding them in one |
| EventStream.ChunkingDoesNotMatter | frontend/src/api/ai.ts:324-361 | events and leftover depend on the text only, not on its chunks |
| EventStream.FramesAreRead | frontend/src/api/ai.ts:544-582 | text made of frames with one-line data, with or without an event line, before or behind the data, each line with its own spacing and line end, yields one event a frame in order, wherever it is cut: with the frame's data and the last type given before the data |
| EventStream.UnterminatedIsIgnored | frontend/src/api/ai.ts:329-330 | text without a line end yields nothing and stays in the buffer |
| EventStream.BadDataIsSkipped | frontend/src/api/ai.ts:335-339 | a data line that is empty or no JSON yields nothing and leaves the type in force |
| EventStream.SpacesAre | frontend/src/api/ai.ts:331-336 | what trim takes off: the white space and line ends of ECMA-262 |
| EventStream.TypePersists | frontend/src/api/ai.ts:333-341 | the type in force is the last one given, however many frames ago, and the default before any |
| EventStream.UntypedIsDefaultExactly | frontend/src/api/ai.ts:333-341 | an event without an event line has the default type if and only if no type was given before, or the last one given was the default or empty |
| EventStream.TypesAreMeantExactly | frontend/src/api/ai.ts:331-341 | all events have the type of their own frame, or the default, if and only if in each frame whose event line is missing or late the last type given is that one |
| Typewriter.Step | frontend/src/utils/typewriter.ts:92-109 | a step shows between 1 and 20 characters and never more than there are |
| Typewriter.SpeedByBacklog | frontend/src/utils/typewriter.ts:84-109 | the speed for each size of the backlog, while streaming and at the end |
| Typewriter.SmoothStreamWriter.Push | frontend/src/utils/typewriter.ts:59-65 | text is appended while open and dropped when closed; a frame is requested |
| Typewriter.SmoothStreamWriter.Tick | frontend/src/utils/typewriter.ts:112-153 | a frame only appends to the target; with text waiting 3 * buffer + pause strictly falls and the next frame is requested; the last one closes and tells all waiters |
| Typewriter.SmoothStreamWriter.Finish | frontend/src/utils/typewriter.ts:165-177 | a waiter is told at once if nothing waits, and later otherwise |
| Typewriter.SmoothStreamWriter.FlushNow | frontend/src/utils/typewriter.ts:182-188 | everything pushed is shown and every waiter has been told exactly once |
| Typewriter.Drain | frontend/src/utils/typewriter.ts:112-177 | whatever the random choices, a finishing writer ends within 3 * buffer + pause frames, with everything shown and each waiter told exactly once |
| OutputBuffer.Output.NewSize | backend/src/common/ai_trace.c:181-184 | the doubled size has room and is less than twice what is needed |
| OutputBuffer.Output.Append | backend/src/common/ai_trace.c:171-197 | the content grows by the chunk, or nothing changes without memory; all outgrown buffers together stay below the present capacity |
| OutputBuffer.Output.ReadsAsAppended | backend/src/common/ai_trace.c:193-195 | the C string is the concatenation of all chunks |
| ToolSpans.Spans.AddToolSpan | backend/src/common/ai_trace.c:54-88 | the buffer's text after a call, cut off where the buffer or the entry ends |
| ToolSpans.HoldsPrefix | backend/src/common/ai_trace.c:60-64 | the buffer holds exactly a first part of the calls as a bracketed list, and stops only when an entry might not fit |
| ToolSpans.RecordedExactlyWhileRoom | backend/src/common/ai_trace.c:60-64 | a call is recorded if and only if the text so far is shorter than 2816 of 3072 characters |
| ToolSpansJson.ParsesRendered | backend/src/common/ai_trace.c:65-87 | reading the array back gives the calls, for any names that need no escape |
| ToolSpansJson.BufferParses | backend/src/common/ai_trace.c:54-88 | at all times the buffer parses as the calls recorded so far |
| ToolSpansCut.ReadableExactly | backend/src/common/ai_trace.c:54-88 | for plain names and any calls: the buffer is JSON (RFC 8259) if and only if every entry written before recording stopped was shorter than 256 characters, and it then reads back as the calls written |
| ToolSpansCut.LongNameBreaks | backend/src/common/ai_trace.c:65-72 | a written call with a name of 213 characters or more makes the buffer no JSON at all, whatever the numbers |
| Utf8.Truncate | backend/src/services/ai_service.c:138-185 | the text becomes the prefix up to the computed cut, and nothing behind its terminator changes |
| Utf8.FindCut | backend/src/services/ai_service.c:144-182 | the scan, which reads nothing behind the terminator |
| Utf8.NeverSplits | backend/src/services/ai_service.c:163-173 | whatever the bytes, the cut is never inside a character |
| Utf8.StrayBytes | backend/src/services/ai_service.c:150-162 | a byte that begins no sequence is passed over as one character; first bytes that RFC 3629 rules out count for what they announce |
| Utf8.KeepsCharacters | backend/src/services/ai_service.c:175-181 | in well-formed text whole characters are kept, within both limits |
| Utf8.KeepsLongest | backend/src/services/ai_service.c:175-181 | and no other such prefix is longer |
| Utf8.CutIsStable | backend/src/services/ai_service.c:138-185 | truncating again with the same limits changes nothing |

## Left out

- SQL text, HTTP, JSON building, curl, cryptography, the user interface, configuration files and CSV import.
- The savepoint implementation: a scope is the tables saved at its start and put back on failure; the ledger ignores the result of its final commit, and so does the model.
- 128-bit overflow of decimals, and IEEE doubles and SQLite REAL storage: amounts are exact integers and reports use exact reals or integers.
- Column precision: a database that stores two decimals for an asset in bitcoin would round; the model does not.
- FIFO lots: every asset uses average cost, and the extra queries for the cost method are not made.
- Edits of current_value that write no log (the audit is about balances changed by postings).
- Case folding of currency and type codes, notes, categories, ledgers and dates of transactions.
- LedgerLaws.ReverseUndoesApply: is about the reversal right after the application, with no failed call in between; TradeLaws.ReverseTradeGoesThrough and ReverseTradeRestoresOthers likewise.
- TradeRuns.BuysAddUp: sells of the asset are not in the run; what a sell does to the cost is in Position.CostStaysPaidFor.
- RateLimitLateBursts.LateCrowd: for a configuration with limit * (2k - 1) <= capacity < limit * 2k, whether k keys are too many under waits is not decided; neither limiter is one.
- The one loop that finds percentages, their sum and the largest group is two loops here.
- Position.SellThenRollback: for currencies with up to 6 or exactly 8 decimals, which are all there are.
- FxPnl.SplitError: for base currencies with fewer than 18 decimals; none has more than 8.
- Sync: expense_tags, reset, the un-paged accounts list with 500 or more rows, tables without an API and queue items whose payload is no JSON, NOT NULL and foreign key constraints of the local database, and other clients writing to the server during a pass.
- SyncStore.PassTheorem: no offline create takes a placeholder that has been replaced before; such ids come from the clock, so it would have to be set back.
- SyncProtocol.RunKeepsInv: offline writes refer to rows then in the local tables, server ids are fresh and no placeholders, and listed rows refer to server ids.
- Snapshot callers that return early without releasing; a client here acquires and then releases at most once. An address is not reused for a later snapshot.
- Memory and locking at the level of the C memory model: a step under a lock, and an atomic operation, is one step.
- RateLimitRuns.AuthLimit: the clock starts above zero and is not set back; the ring's zero timestamp stands for an unset slot.
- EventStream.Read: decoding of bytes, the request, and picking fields out of the parsed JSON; whether a text parses is a parameter.
- Typewriter: the real time between frames; the browser calls the frame it was asked for, once, unless cancelled. The call to schedule in finish has no effect, because a frame is always requested already while text waits.
- OutputBuffer.Output.Append: a failing first allocation is not modelled.
- JsonText: decides which texts are JSON, as the program hands the buffer to a general parser; that parser itself is not part of this model.
- ToolSpans: numbers are unbounded, and escaping of names is not modelled because the program does none.
- Report by category in the asset summary, currency conversion in the expense reports (amounts come converted), and the percentage of change.
