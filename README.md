# whale_worker, modelled in Dafny

The whale worker polls Polymarket's Data API for recent large trades and keeps
them only if they are new. The selection walks the trades newest first, stops
at the resumable cursor (the transaction hash of the newest trade handled last
time) and skips hashes in a 15-minute dedup set. As written, the fetch itself
drops the cursor's trade, so that stop never happens (first row of
"## Findings"). For each new trade it:

- looks up the market's metadata (a MongoDB cache with a 24-hour window, filled
  from the Gamma API in one batch);
- matches the trade against every subscriber's alert filter;
- queues one Telegram message per matching subscriber that has a chat.

A single dispatcher throttles sends, globally and per chat. It makes at most
three attempts per message, so at most two retries, pausing after Telegram's
429 and timeout answers. On a 403 or 400 answer it calls `_deactivate_chat`,
whose write fails as written, so the chat stays active (second row of
"## Findings").

The model keeps the program's structure, one module per source file:

| module | source file | form |
|---|---|---|
| `Types` | `whale_worker/types.py` | datatypes; fill key, aggregation key and `from_fills` as functions with lemmas |
| `Filters` | `whale_worker/filters.py` | the gates as predicates; the matching loop as a method |
| `Db` | `whale_worker/db.py` | the collections as fields of a `Database` class; each helper is a method specified by a pure rule |
| `Categorization` | `whale_worker/categorization.py` | keyword inference, the per-tag cache and the per-market union as methods, each specified by a pure function |
| `PolymarketClient` | `whale_worker/polymarket_client.py` | response normalisation; HTTP answers are a `Response` datatype given as input |
| `Notifications` | `whale_worker/notifications.py` | message fields as functions; the fan-out loops as methods |
| `Dispatcher` | `whale_worker/notification_queue.py` | classes `NotificationQueue` (items, rate-limit state, running flag) and `Registry` (the singleton); the retry loop is specified by a function over Telegram's answers |
| `Worker` | `whale_worker/main.py` | class `Worker`, holding the state `run_worker` keeps between polls |
| `Time`, `Text`, `Seqs`, `Wrappers` | — | a clock that `sleep` advances; the Python string and list operations used (ASCII `lower`/`upper`, `strip`, `split`, `sorted`); `Option`/`Result` |

Each I/O call becomes an input value or a store field:

- an HTTP answer is a `Response` value;
- a Telegram answer is an `Attempt` value;
- a MongoDB collection is a field of `Db.Database`;
- the current time is `Time.Clock.now`, a real number of seconds.

## Model

| member | source | states |
|---|---|---|
| Types.FillKeyDecodes | whale_worker/types.py:26-35 | when no field holds ':', splitting the fill key at ':' gives back its seven fields, with "None" for a missing or empty condition or outcome |
| Types.FillKeyInjective | whale_worker/types.py:26-35 | two colon-free trades with equal fill keys agree on hash, wallet, side, printed size and price, and condition and outcome text |
| Types.Normalized | whale_worker/types.py:47-48 | a condition or outcome enters the aggregation key exactly when it is present and non-empty, and then unchanged |
| Types.AggregationKeyRefinesFillKey | whale_worker/types.py:37-50 | aggregation keys are equal iff hash, wallet, side and the normalised condition and outcome are equal; equal keys give equal first five fill-key fields |
| Types.MaxTimestamp | whale_worker/types.py:88 | the result is at least every fill's timestamp and equals one of them |
| Types.FromFills | whale_worker/types.py:67-101 | fails iff the list is empty; otherwise copies hash, wallet, side, condition and outcome from the first fill; total size and notional are the sums; fill count is the length; the timestamp is the maximum |
| Types.VwapScales | whale_worker/types.py:87 | with a positive total size, VWAP times size gives back the notional |
| Types.FromFillsVwap | whale_worker/types.py:87 | VWAP times total size is the total notional when the size is positive, and VWAP is 0 otherwise |
| Types.SumsAppend | whale_worker/types.py:85-86 | size and notional sums distribute over concatenation |
| Types.FromFillsAppend | whale_worker/types.py:84-100 | aggregating two non-empty batches together adds sizes, notionals and counts and takes the larger timestamp |
| Types.NotionalBetween | whale_worker/types.py:85-86 | with non-negative sizes and every price in [lo, hi], the notional sum lies between lo and hi times the size sum |
| Types.VwapBounds | whale_worker/types.py:87 | a notional between lo and hi times a positive size gives a VWAP in [lo, hi] |
| Types.VwapWithinPriceRange | whale_worker/types.py:87 | the aggregate's VWAP lies within the fills' price range (or is 0 when the total size is not positive) |
| Types.SingleFill | whale_worker/types.py:78-100 | one fill with positive size aggregates to its own price, size, notional and timestamp, with count 1 |
| Filters.ViewOfTrade | whale_worker/types.py:21-24 | the notional a filter sees is size times price; price, side and condition are the trade's |
| Filters.ViewOfAggregate | whale_worker/filters.py:136-145 | the aggregated variant sees the total notional and the VWAP in place of notional and price |
| Filters.MatchesView | whale_worker/filters.py:8-82 | a match implies an enabled filter, notional at least the minimum, price in the inclusive range and a listed side |
| Filters.LowerAll | whale_worker/filters.py:49 | the lowered list has the same length and lowers each entry |
| Filters.ExcludedByLoopIff | whale_worker/filters.py:54-62 | the exclude loop rejects iff some excluded entry rejects the market (sports flag or equal legacy category) |
| Filters.LoweredContains | whale_worker/filters.py:74 | a word is in the lowered list iff some entry lowers to it |
| Filters.OverlapIff | whale_worker/filters.py:68-72 | the two id sets intersect iff some id is in both lists |
| Filters.MatchesIffAllGates | whale_worker/filters.py:33-82 | the early-return chain matches iff every gate holds, so the order of the checks does not matter |
| Filters.DisabledNeverMatches | whale_worker/filters.py:33-34 | a disabled filter never matches |
| Filters.MatchMeetsThresholds | whale_worker/filters.py:36-46 | a match has notional at least the minimum, price inside the inclusive range and side in the filter's sides |
| Filters.SportsExcluded | whale_worker/filters.py:48-51 | "sports" excluded in any letter case rejects every sports market |
| Filters.LegacyCategoryExcluded | whale_worker/filters.py:60-62 | a legacy category equal, ignoring case, to an excluded entry rejects the market |
| Filters.IncludeListRequired | whale_worker/filters.py:64-75 | with a non-empty category filter, a match has a shared tag id or the market category among the filter entries, ignoring case |
| Filters.MarketsFilterRequired | whale_worker/filters.py:77-79 | with a non-empty market list a match has its condition in it; an empty list makes the result independent of the condition |
| Filters.SelectedCategoriesIgnored | whale_worker/filters.py:8-82 | the result does not depend on `selected_categories` or the chat id |
| Filters.MatchingForSnoc | whale_worker/filters.py:101-105 | one more filter appends it to the matches exactly when it matches |
| Filters.MatchingForMembers | whale_worker/filters.py:101-105 | a filter is among the matches iff it is in the input and passes every gate |
| Filters.CollectMatching | whale_worker/filters.py:101-105 | the loop returns the order-preserving subsequence of matching filters |
| Filters.GetMatchingUsersForTrade | whale_worker/filters.py:85-105 | exactly the matching filters, in input order |
| Filters.GetMatchingUsersForAggregatedTrade | whale_worker/filters.py:185-205 | the same, with total notional and VWAP in place of notional and price |
| Db.NormalizeCanonical | whale_worker/db.py:141-147 | a recognised excluded value maps to one of the 13 canonical categories |
| Db.NormalizedIff | whale_worker/db.py:141-147 | a category is in the normalised set iff some excluded value maps to it |
| Db.NormalizeAll | whale_worker/db.py:141-147 | the normalisation loop builds that set |
| Db.ExcludedCanonicalIff | whale_worker/db.py:141-147 | an excluded value counts when its stripped lower-case form is in the map, or it is spelled exactly like a canonical name |
| Db.AllCategoriesDistinct | whale_worker/db.py:118-122 | the canonical list has no duplicates |
| Db.MigratedSelection | whale_worker/db.py:149-153 | the migrated selection has no duplicates and holds exactly the canonical categories that were not excluded |
| Db.MigrationOnlyWhenSelectionEmpty | whale_worker/db.py:114-153 | migration runs only with an empty selection and a non-empty exclude list, and then keeps canonical order; otherwise the selection is unchanged |
| Db.FindActiveAccount | whale_worker/db.py:98-101 | finds an active account of the user, or reports that none exists |
| Db.LoadedFiltersHaveAccounts | whale_worker/db.py:88-171 | every loaded filter has a non-empty user id, is enabled and carries the chat id of an active account of that user |
| Db.SkippedConfigs | whale_worker/db.py:93-105 | configs with an empty user id or no active account yield no filter |
| Db.FilterDefaults | whale_worker/db.py:155-167 | missing thresholds default to min notional 0, min price 0, max price 1 and sides BUY and SELL |
| Db.BuildUserFilter | whale_worker/db.py:155-167 | the filter carries the config's user id and enabled flag, the account's chat id and the exclude list (or none); a non-empty selection is kept as given |
| Db.FiltersFromStore | whale_worker/db.py:74-171 | at most one filter per config |
| Db.FiltersFromStoreHas | whale_worker/db.py:88-171 | every filter built from one config is among the loaded filters |
| Db.Deactivated | whale_worker/notification_queue.py:235-238 | the intended `update_one`: every account keeps its user and chat id, and only the first account with that chat id has `isActive` cleared |
| Db.DeactivatedOnly | whale_worker/notification_queue.py:235-238 | when exactly one account carries the chat id, no account with that chat id is active after the intended write |
| Db.DeactivatedChatGetsNoFilter | whale_worker/db.py:98-107 | when exactly one account carries the chat id, no filter loaded after the intended write carries that chat id |
| Db.ProcessedWindow | whale_worker/db.py:243-296 | a key marked at t with a ttl in minutes is seen exactly while now < t + 60·ttl; other keys are unaffected |
| Db.MarkerRoundTrip | whale_worker/db.py:190-240 | with no document there is no marker; a stored marker reads back with its timestamp and hash |
| Db.MarketFreshness | whale_worker/db.py:363-384 | a market stored at t is served iff it is younger than 24 hours, and then under the requested condition id |
| Db.GetOrCache | whale_worker/db.py:433-512 | non-empty cached data wins; otherwise non-empty provided data is stored and returned; otherwise the empty value |
| Db.GetOrCacheStable | whale_worker/db.py:446-451 | once a non-empty value is returned, later calls return it again whatever they provide |
| Db.Database.CheckFilterReloadSignal | whale_worker/db.py:52-62 | reports whether the signal document exists |
| Db.Database.ClearFilterReloadSignal | whale_worker/db.py:65-71 | removes the signal |
| Db.Database.GetAllUserFilters | whale_worker/db.py:74-171 | the join of enabled configs with active accounts, migration applied |
| Db.Database.GetLastProcessedTradeMarker | whale_worker/db.py:190-213 | reads the single marker document |
| Db.Database.SetLastProcessedTradeMarker | whale_worker/db.py:216-240 | upserts the single marker document with the given timestamp and hash |
| Db.Database.MarkTradeAsProcessed | whale_worker/db.py:243-274 | upserts one dedup record expiring ttl minutes from now |
| Db.Database.IsTradeProcessed | whale_worker/db.py:277-296 | reports a record whose expiry is after now |
| Db.Database.GetOrUpsertMarket | whale_worker/db.py:340-430 | a fresh (or non-datetime-stamped) entry is returned and provided data ignored; otherwise provided data is stored and returned; otherwise none |
| Db.Database.GetOrCacheSportsTagIds | whale_worker/db.py:433-471 | the cached-or-provided rule over the sports id document |
| Db.Database.GetOrCacheTagsDictionary | whale_worker/db.py:474-512 | the cached-or-provided rule over the tags dictionary document |
| Db.Database.DeactivateChat | whale_worker/notification_queue.py:235-238 | the intended write: the first account with that chat id becomes inactive |
| Categorization.KeywordTableMatchesCanonicalList | whale_worker/categorization.py:14-38 | the keyword table's categories are the canonical 13, in the canonical order |
| Categorization.InferFromMembership | whale_worker/categorization.py:64-78 | a category is inferred iff it is a table entry one of whose keywords is a substring of the search text |
| Categorization.InferFromDistinct | whale_worker/categorization.py:73-76 | inference never repeats a category |
| Categorization.InferFrom | whale_worker/categorization.py:64-78 | at most one category per table entry, and never "Mentions" |
| Categorization.InferredCategoriesShape | whale_worker/categorization.py:57-78 | the result never holds "Mentions", has no duplicates and holds only canonical categories |
| Categorization.AnyKeywordIn | whale_worker/categorization.py:73-76 | the keyword loop is true iff some keyword occurs in the text |
| Categorization.InferCategoriesForTag | whale_worker/categorization.py:44-78 | the categories whose keywords occur in lower(label) + " " + lower(slug), in table order |
| Categorization.CategoriesForTagStable | whale_worker/categorization.py:102-131 | answering for one tag changes no other tag's answer, nor a repeat for the same tag |
| Categorization.GetCategoriesForTag | whale_worker/categorization.py:81-133 | returns the cached or inferred categories and persists an inference |
| Categorization.CachedCategoriesWin | whale_worker/categorization.py:103-107 | a non-empty cached list is returned unchanged and nothing is written |
| Categorization.EmptyEntryReinferred | whale_worker/categorization.py:105-131 | a missing or empty entry is inferred and stored under the tag id |
| Categorization.InDerivedSnoc | whale_worker/categorization.py:166-178 | one more tag adds its categories, and "Sports" when it is a sports tag |
| Categorization.AnswerStable | whale_worker/categorization.py:173 | persisting one tag's inference does not change the answer for any tag |
| Categorization.ListOf | whale_worker/categorization.py:181 | a set becomes a duplicate-free list with the same members |
| Categorization.SortedList | whale_worker/categorization.py:181 | the categories come back strictly sorted with the same members |
| Categorization.DeriveStep | whale_worker/categorization.py:166-178 | one loop iteration keeps the collected set equal to the union over the tags seen |
| Categorization.DeriveCategoriesForMarket | whale_worker/categorization.py:136-181 | a strictly sorted list of the union of the tags' categories, plus "Sports" when some tag is a sports tag |
| PolymarketClient.TradeQuery | whale_worker/polymarket_client.py:46-61 | fixed parameters always; filterAmount iff the minimum is positive; minTimestamp iff the marker has a non-zero timestamp, set to it |
| PolymarketClient.ToTrade | whale_worker/polymarket_client.py:88-114 | the trade carries the record's hash, the side upper-cased and the wallet lower-cased (or "") |
| PolymarketClient.Collect | whale_worker/polymarket_client.py:73-115 | at most one trade per record |
| PolymarketClient.CollectAsWritten | whale_worker/polymarket_client.py:73-115 | the record loop with the marker's hash as the skipped hash; at most one trade per record |
| PolymarketClient.CollectGrows | whale_worker/polymarket_client.py:73-115 | later records never remove a trade already collected |
| PolymarketClient.CollectKeepsFirst | whale_worker/polymarket_client.py:75-115 | the first valid record with a hash gives a trade unless its hash is the skipped one |
| PolymarketClient.ClaimedIff | whale_worker/polymarket_client.py:75-82 | a hash is claimed iff some record carries it non-empty |
| PolymarketClient.CollectSound | whale_worker/polymarket_client.py:73-115 | every output trade is well formed (positive size, price and timestamp, BUY or SELL), carries a claimed hash and not the skipped one, and hashes are distinct |
| PolymarketClient.FirstInvalidRecordBlocksHash | whale_worker/polymarket_client.py:80-99 | when the first record with a hash is invalid, no trade with that hash is output |
| PolymarketClient.CollectPrefixClaims | whale_worker/polymarket_client.py:79-82 | later records cannot add a trade for a hash an earlier record claimed |
| PolymarketClient.ClaimedMonotone | whale_worker/polymarket_client.py:79-82 | the claimed set only grows |
| PolymarketClient.InsertDesc | whale_worker/polymarket_client.py:118 | inserting adds exactly the one trade |
| PolymarketClient.SortNewestFirst | whale_worker/polymarket_client.py:118 | sorting keeps length and members |
| PolymarketClient.InsertDescPermutes | whale_worker/polymarket_client.py:118 | inserting adds the trade to the multiset |
| PolymarketClient.SortNewestFirstPermutes | whale_worker/polymarket_client.py:118 | sorting is a permutation |
| PolymarketClient.InsertDescOrdered | whale_worker/polymarket_client.py:118 | inserting keeps timestamps non-increasing |
| PolymarketClient.SortNewestFirstOrdered | whale_worker/polymarket_client.py:118 | the sorted trades are newest first, with the same members |
| PolymarketClient.InsertDescHashes | whale_worker/polymarket_client.py:118 | inserting a trade with a new hash keeps hashes distinct |
| PolymarketClient.SortKeepsHashesDistinct | whale_worker/polymarket_client.py:118 | sorting keeps hashes distinct |
| PolymarketClient.RecentTrades | whale_worker/polymarket_client.py:63-120 | it fails iff the answer is not OK, returning that answer; an OK answer gives at most one trade per record |
| PolymarketClient.RecentTradesShape | whale_worker/polymarket_client.py:63-120 | an OK answer gives trades that are newest first, distinct by hash and well formed, and none carries the marker's hash |
| PolymarketClient.FetchRecentTrades | whale_worker/polymarket_client.py:63-137 | the record loop, including the skip of the marker's hash, and the sort compute `RecentTrades(resp, marker)` |
| PolymarketClient.RequestRecentTrades | whale_worker/polymarket_client.py:14-120 | the request is sent with the query parameters of `TradeQuery`, and the answer is normalised as `RecentTrades` does |
| PolymarketClient.RecentTradesKeepingCursor | whale_worker/polymarket_client.py:63-120 | the corrected fetch: fails iff the answer is not OK; at most one trade per record |
| PolymarketClient.AsWrittenDropsCursor | whale_worker/polymarket_client.py:84-86 | as written, no output trade carries the marker's hash |
| PolymarketClient.CorrectedKeepsCursor | whale_worker/polymarket_client.py:84-86 | a valid cursor record is kept by the corrected fetch and dropped by the as-written one |
| PolymarketClient.SportsIdsIff | whale_worker/polymarket_client.py:163-170 | an id is a sports id iff it is a piece of some sport's non-empty tags string |
| PolymarketClient.TagIdsShape | whale_worker/polymarket_client.py:169 | each piece is non-empty, comma-free and stripped |
| PolymarketClient.FetchSportsTagIds | whale_worker/polymarket_client.py:140-177 | the union of the pieces for an OK answer, the empty set otherwise |
| PolymarketClient.IdTextInjectiveOnNumbers | whale_worker/polymarket_client.py:204 | `str(id)` of numbers is injective and non-empty; `str(None)` is "None" |
| PolymarketClient.TagsDictKeys | whale_worker/polymarket_client.py:201-213 | the keys are exactly the non-empty `str(id)` values of the tags |
| PolymarketClient.TagsDictLastWins | whale_worker/polymarket_client.py:203-213 | each entry comes from the last tag with that key |
| PolymarketClient.FetchTagsDictionary | whale_worker/polymarket_client.py:180-220 | that dictionary for an OK answer, the empty map otherwise |
| PolymarketClient.Title | whale_worker/polymarket_client.py:272 | question, else title, else name, else "Unknown Market"; never empty |
| PolymarketClient.RawTagIds | whale_worker/polymarket_client.py:283-288 | only non-empty ids are kept |
| PolymarketClient.DictionaryLabelsExtend | whale_worker/polymarket_client.py:303-310 | dictionary labels are appended after the raw labels, distinct, non-empty and new, and every labelled tag id contributes |
| PolymarketClient.NoDictionaryLabels | whale_worker/polymarket_client.py:304 | with no dictionary or no ids the labels are unchanged |
| PolymarketClient.KeywordCategoryIff | whale_worker/polymarket_client.py:316-326 | a keyword category exists iff some tag's label has a keyword; it comes from the first such tag, politics words first |
| PolymarketClient.LegacyCategoryIff | whale_worker/polymarket_client.py:312-326 | the category is "sports" iff the market is sports; otherwise the keyword category |
| PolymarketClient.MarketMetadataShape | whale_worker/polymarket_client.py:259-357 | metadata exists iff the answer is OK with a first market whose tags are a list; sports iff a tag id is a sports id; category "sports" iff sports |
| PolymarketClient.ReadTags | whale_worker/polymarket_client.py:279-296 | the tag loop reads ids and labels |
| PolymarketClient.IsSportsMarket | whale_worker/polymarket_client.py:299-301 | sports iff both sets are non-empty and intersect |
| PolymarketClient.AddDictionaryLabels | whale_worker/polymarket_client.py:303-310 | the dictionary label loop |
| PolymarketClient.InferLegacyCategory | whale_worker/polymarket_client.py:312-326 | the legacy category loop |
| PolymarketClient.FetchMarketMetadata | whale_worker/polymarket_client.py:223-357 | the metadata of the first market, or none for an empty, failed or 404 answer |
| Notifications.WalletDisplayShape | whale_worker/notifications.py:28 | a wallet of at most 10 characters is shown whole; a longer one as its first 6, "..." and its last 4 |
| Notifications.MarketLinkChoice | whale_worker/notifications.py:31-35 | the slug link when there is a slug, else the condition link when there is a condition id, else the base URL |
| Notifications.CategoryInfoChoice | whale_worker/notifications.py:44-48 | the sports label for sports markets; else, for a non-empty category, its `capitalize()`: the first character upper-cased and every later one lower-cased; else empty |
| Notifications.BuildTradeAlertMessage | whale_worker/notifications.py:11-69 | the message carries the market title, the trade's price and size, and size times price as notional; it is not aggregated and has no fill-count suffix |
| Notifications.BuildAggregatedAlertMessage | whale_worker/notifications.py:136-199 | the message carries the totals and the VWAP; it is aggregated and shows a fill-count suffix iff more than one fill was combined |
| Notifications.FillCountShownIff | whale_worker/notifications.py:180-182 | the fill-count suffix appears iff the count exceeds 1 |
| Notifications.DeliveriesSnoc | whale_worker/notifications.py:120-128 | one more user adds a delivery exactly when the user has a chat |
| Notifications.Deliveries | whale_worker/notifications.py:120-128 | at most one delivery per user |
| Notifications.DeliveriesFollowUsers | whale_worker/notifications.py:120-128 | the deliveries are the users with a chat, in input order, each with that chat and the message |
| Notifications.QueueOne | whale_worker/notifications.py:121-128 | queues for a user iff the user has a chat id |
| Notifications.QueueAt | whale_worker/notifications.py:120-128 | one iteration of the fan-out loop keeps the queue equal to the start plus the deliveries of the users seen, and counts one more queued exactly when a delivery was added |
| Notifications.QueueForUsers | whale_worker/notifications.py:116-128 | appends those deliveries to the queue; queued plus skipped is the number of users |
| Notifications.SendAlertsForTrade | whale_worker/notifications.py:91-133 | nothing for no users; otherwise one message built from the first user, queued for every user with a chat, in order |
| Notifications.SendAlertsForAggregatedTrade | whale_worker/notifications.py:202-244 | the same for an aggregated trade |
| Notifications.SendAlertToChat | whale_worker/notifications.py:73-88 | queues the message and returns true |
| Dispatcher.ThrottledTimeIsEarliest | whale_worker/notification_queue.py:101-128 | the send time is the earliest time at least now, 0.034 s after the last send, and 1 s after the chat's last send |
| Dispatcher.ThrottledTime | whale_worker/notification_queue.py:101-128 | the send time is never before now |
| Dispatcher.Pause | whale_worker/notification_queue.py:168-217 | only a readable 429, or a timeout with an attempt left, pauses |
| Dispatcher.Send | whale_worker/notification_queue.py:160-222 | a deactivating send never succeeds; pauses never outnumber attempts, and attempts never exceed the ones left |
| Dispatcher.SendBounded | whale_worker/notification_queue.py:160-222 | one to three attempts, at most one non-negative pause per attempt |
| Dispatcher.SendSucceedsIff | whale_worker/notification_queue.py:163-201 | a send succeeds iff some attempt within three answers ok after only retryable answers |
| Dispatcher.SendDeactivatesIff | whale_worker/notification_queue.py:181-191 | the chat is deactivated iff some attempt answers 403 or 400 after only retryable answers, and the send then fails |
| Dispatcher.ImmediateFailure | whale_worker/notification_queue.py:177-210 | an unreadable 429, another HTTP error, another exception or ok=false ends after one attempt without a pause |
| Dispatcher.RetryAfterExample | whale_worker/notification_queue.py:169-176 | two 429s with retry_after 5 then ok take three attempts and sleep 5 s twice |
| Dispatcher.TimeoutsExhaust | whale_worker/notification_queue.py:211-217 | three timeouts fail after three attempts with two 1 s pauses |
| Dispatcher.AsWrittenDeactivationKeepsAlerting | whale_worker/notification_queue.py:231-243 | for every store in which a chat is the only account of an enabled user: that chat is loaded as an alert target, and it would not be after the intended write; as written the write never happens |
| Dispatcher.SendToBlockedChatAsWritten | whale_worker/notification_queue.py:181-243 | a send that Telegram answers with 403 or 400 fails, and the filters loaded afterwards are the same as before |
| Dispatcher.NotificationQueue.constructor | whale_worker/notification_queue.py:26-40 | an empty, stopped queue with no send history |
| Dispatcher.NotificationQueue.Start | whale_worker/notification_queue.py:42-50 | the queue runs afterwards, whether or not it ran before |
| Dispatcher.NotificationQueue.Stop | whale_worker/notification_queue.py:52-57 | the queue is stopped |
| Dispatcher.NotificationQueue.Enqueue | whale_worker/notification_queue.py:59-67 | appends the item at the back |
| Dispatcher.NotificationQueue.ApplyRateLimits | whale_worker/notification_queue.py:101-128 | sleeps to the throttled time and records it as the global and the chat's last send; other chats unchanged |
| Dispatcher.NotificationQueue.DeactivateChat | whale_worker/notification_queue.py:224-243 | the intended write: the first account with that chat id becomes inactive |
| Dispatcher.NotificationQueue.DeactivateChatAsWritten | whale_worker/notification_queue.py:231-243 | as written, the store is unchanged |
| Dispatcher.NotificationQueue.SendMessage | whale_worker/notification_queue.py:130-222 | without a token it fails and the clock is unchanged; otherwise it returns the retry machine's outcome and sleeps its pauses; the accounts are unchanged in both cases, since the deactivating write fails |
| Dispatcher.NotificationQueue.SendMessageDeactivating | whale_worker/notification_queue.py:130-238 | the corrected send: as `SendMessage`, and a deactivating outcome applies the intended write |
| Dispatcher.NotificationQueue.SendStep | whale_worker/notification_queue.py:163-220 | one attempt either pauses and continues or ends with the machine's result; the accounts are unchanged |
| Dispatcher.NotificationQueue.HandleAnswer | whale_worker/notification_queue.py:168-220 | one answer gives its pause and its success; a 403 or 400 goes through the as-written deactivation, so the accounts are unchanged |
| Dispatcher.NotificationQueue.WorkerStep | whale_worker/notification_queue.py:69-99 | a stopped queue does nothing; an empty one waits 1 s; otherwise the oldest item is taken, the send time is the throttled time and is recorded globally and for the chat, the clock ends at that time plus the send's pauses, and the result is the send's; the accounts are always unchanged |
| Dispatcher.Registry.constructor | whale_worker/notification_queue.py:247 | no queue exists yet |
| Dispatcher.Registry.GetNotificationQueue | whale_worker/notification_queue.py:250-261 | the first call creates and starts one queue; later calls return that same queue |
| Dispatcher.Registry.EnqueueNotification | whale_worker/notification_queue.py:264-276 | appends the item to the single queue, creating it when needed |
| Worker.ReloadDecision | whale_worker/main.py:124-135 | reload iff the signal is present or the interval has elapsed; the reason is the signal iff it is present |
| Worker.ByUserIdLastWins | whale_worker/main.py:150 | the dictionary maps a user id to the last filter with that id |
| Worker.ByUserIdKeys | whale_worker/main.py:150 | its keys are the user ids present |
| Worker.SameFiltersUnchanged | whale_worker/main.py:145-160 | the same filters, with sides reordered, are not a change |
| Worker.ThresholdChangeDetected | whale_worker/main.py:145-160 | changing one user's minimum notional is a change |
| Worker.CursorIndex | whale_worker/main.py:203-207 | the position of the first trade with the cursor hash, or the length |
| Worker.SelectNew | whale_worker/main.py:199-218 | the selection is no longer than the trades fetched |
| Worker.SelectNewCutsAtCursor | whale_worker/main.py:202-213 | with a cursor, the selection is the selection without one on the trades before the cursor trade |
| Worker.SelectNewMembers | whale_worker/main.py:214-218 | without a cursor, a trade is selected iff it is not in the dedup set |
| Worker.SelectNewUnprocessed | whale_worker/main.py:199-218 | every selected trade is fetched and unprocessed |
| Worker.SelectNewBeforeCursor | whale_worker/main.py:202-213 | every selected trade comes strictly before the first cursor-hash trade |
| Worker.SelectNewMissingCursor | whale_worker/main.py:202-213 | a cursor no fetched trade carries selects exactly what no cursor selects |
| Worker.PollTrades | whale_worker/main.py:182-218 | a failed fetch selects nothing; otherwise every selected trade was fetched and is not in the dedup set |
| Worker.AsWrittenCursorNeverStops | whale_worker/polymarket_client.py:84-86 | with the as-written fetch, the poll's selection is the same as with no cursor at all |
| Worker.MissingIdsShape | whale_worker/main.py:227-239 | the missing ids are distinct, exactly the uncached non-empty condition ids of the trades, in first-seen order |
| Worker.MissingIds | whale_worker/main.py:227-239 | at most one missing id per trade |
| Worker.CollectSnoc | whale_worker/main.py:230-239 | one more trade adds its uncached condition once and extends its group |
| Worker.TradesInNone | whale_worker/main.py:228-239 | a condition no trade has gets an empty group |
| Worker.StoredBatchServes | whale_worker/main.py:250-252 | after storing the batch, every fetched condition is served and other entries are unchanged |
| Worker.MarkedAllSeen | whale_worker/main.py:257-260 | within 15 minutes after marking, every processed trade is seen |
| Worker.ProcessedPrefix | whale_worker/main.py:257-309 | one more trade marks its hash and adds its alerts |
| Worker.AlertsGoToMatchingUsers | whale_worker/main.py:264-299 | every alert goes to the chat of a filter that a processed trade with a cached market passes |
| Worker.MarkedFirstSnoc | whale_worker/main.py:257-260 | a trade's lookup or match after its mark keeps mark-before-match |
| Worker.MarkedAfter | whale_worker/main.py:257-299 | the lookup and match events of a marked trade keep mark-before-match |
| Worker.NoReprocessingWithinTtl | whale_worker/main.py:209-260 | a poll within 15 minutes selects no trade processed in this one |
| Worker.NextMarker | whale_worker/main.py:311-319 | no new trade keeps the marker; otherwise the marker holds the timestamp and hash of a new trade |
| Worker.CursorKeepsMarkerMonotone | whale_worker/main.py:202-218 | with the cursor trade present in newest-first order, selected trades are no older than the marker, and the marker never moves back |
| Worker.CollectPair | whale_worker/polymarket_client.py:73-115 | two valid records give one trade when the first hash is skipped and two otherwise |
| Worker.AsWrittenMarkerRegresses | whale_worker/polymarket_client.py:84-86 | as written, with an empty dedup set, a poll whose answer holds the cursor trade and an older trade selects the older one and moves the marker back |
| Worker.AsWrittenMarkerRegressesExample | whale_worker/polymarket_client.py:84-86 | the same poll with concrete trades at timestamps 1000 and 900 |
| Worker.CorrectedMarkerHolds | whale_worker/main.py:202-207 | with the corrected fetch, which keeps the cursor trade, the same answer selects nothing and the marker stays put |
| Worker.Worker.constructor | whale_worker/main.py:66-112 | start-up: sports ids and tags from cache or fetched (stored when non-empty), filters loaded, reload time now, marker read |
| Worker.Worker.LoadStartup | whale_worker/main.py:75-107 | the same loads as one step |
| Worker.Worker.LoadSportsTagIds | whale_worker/main.py:79-87 | cached sports ids, else fetched ones, stored when non-empty |
| Worker.Worker.LoadTagsDictionary | whale_worker/main.py:80-93 | cached tags dictionary, else the fetched one, stored when non-empty |
| Worker.Worker.DetectFiltersChanged | whale_worker/main.py:144-160 | the comparison loop computes whether the filters changed |
| Worker.Worker.ReloadStep | whale_worker/main.py:124-180 | reloads when due; a failed load keeps filters and reload time; the signal is cleared only after a successful signal-driven reload |
| Worker.Worker.SelectNewTrades | whale_worker/main.py:199-221 | the cursor-and-dedup selection; whether the cursor was seen |
| Worker.Worker.CollectMissingConditionIds | whale_worker/main.py:227-239 | the missing ids and, for each, the trades with that condition |
| Worker.Worker.CollectStep | whale_worker/main.py:230-239 | one iteration of that loop |
| Worker.Worker.StoreBatch | whale_worker/main.py:250-252 | stores the fetched batch |
| Worker.Worker.AlertTrade | whale_worker/main.py:264-299 | a trade with a condition looks up its market; a cached market is matched and its alerts queued |
| Worker.Worker.ProcessTrade | whale_worker/main.py:257-309 | marks the trade first, then looks up, matches and queues |
| Worker.Worker.ProcessAt | whale_worker/main.py:257-309 | one iteration keeps marked set and queue equal to those of the prefix |
| Worker.Worker.ProcessNewTrades | whale_worker/main.py:256-309 | marks every new trade and queues all their alerts, in order |
| Worker.Worker.AdvanceMarker | whale_worker/main.py:311-319 | the marker becomes the first new trade's when there is one, stored with now; otherwise unchanged |
| Worker.Worker.PrepareMarkets | whale_worker/main.py:241-254 | ready iff nothing is missing or the batch came back; the batch is stored |
| Worker.Worker.ProcessAndAdvance | whale_worker/main.py:256-319 | processing then marker advance |
| Worker.Worker.FetchAndProcess | whale_worker/main.py:182-326 | fetches as written; a failed fetch or batch changes nothing; otherwise the new trades are marked, alerted and the marker advanced |
| Worker.Worker.PollCycle | whale_worker/main.py:118-330 | one poll with the as-written fetch: reload step, fetch and process, then sleep the poll interval |

## Left out

- The network and MongoDB are not modelled. Each HTTP answer is a `Response` value given as input, and each Telegram answer an `Attempt`. The collections are fields of `Db.Database`, a single-threaded in-memory store, so MongoDB errors and the TTL deletion itself are left out. Expiry is read only through `expiresAt > now`.
- Threads are left out: the worker thread, the lock, the one-second `queue.get` timeout as a blocking call, the `join(timeout=5.0)`, and `task_done` bookkeeping beyond one counter. `WorkerStep` is one sequential pass of `_worker_loop`. The loop's catch-all exception handler is not modelled.
- Wall-clock time is `Time.Clock.now`, a real number that only `sleep` advances. The clock is fixed within one poll, and `Time.Clock.Sleep` requires a non-negative duration, as Python's `time.sleep` does.
- Floats are modelled as exact `real` arithmetic: no rounding, infinity or NaN. The `repr` of a float, in the fill key and in the `filterAmount` query value, is the parameter `repr`. Record fields are not parsed: a `TradeRecord` already holds `size` and `price` as reals and `timestamp` as an integer.
- PolymarketClient.FetchRecentTrades: a size, price or timestamp that `float()` or `int()` cannot convert (`whale_worker/polymarket_client.py:89-91`) raises. The raise passes the re-raise at `:134-136`, so the whole fetch fails, and with it the poll (`whale_worker/main.py:323`), not only that record. The model has no such record and cannot show this failure.
- PolymarketClient.FetchRecentTrades: the truncation of a fractional timestamp by `int()` is not modelled; the timestamp arrives as an integer.
- Number and percent formatting (`:,.2f`, `.1%`) and all log lines are left out. An alert message is a structured `AlertMessage` with the same fields; the HTML template text is not rebuilt.
- Case mapping is ASCII only (`lower`, `upper`, `capitalize`). Python's full Unicode mapping is not modelled.
- JSON values other than the shapes the code inspects are left out. A record's field is absent, falsy or its string; tag ids are `IdAbsent`/`IdNull`/`IdInt`/`IdStr`. On non-string `side` or `proxyWallet` values the original raises, and that path is reduced to the absent case.
- `fetch_market_metadata_batch` is imported at `whale_worker/main.py:23` but is not defined in `whale_worker/polymarket_client.py`. Its answer is the input `batch`: `None` stands for the failure that ends the poll, and a list of pairs stands for the partial map it returns.
- `FILTER_RELOAD_INTERVAL_SECONDS` is read at `whale_worker/main.py:104`, but `whale_worker/config.py` does not define it. The interval is the `reloadInterval` parameter.
- The Telegram bot token is the `token` parameter; the rest of `whale_worker/config.py` (environment loading and the presence check) is not part of this model.
- `ensure_processed_trades_ttl_index` and the Mongo client singletons (`whale_worker/db.py:13-49`, `:299-337`) are schema and connection bootstrap, and are left out.
- `get_telegram_chats_for_user` only raises `NotImplementedError`, and `whale_worker/db_categorization.py` is all stubs, so neither is modelled. `whale_worker/example_implementation.py` is not part of this model.
- Audit timestamps (`createdAt`, `processedAt`, `inferredAt`) are not stored.
- The main loop deduplicates by transaction hash (`whale_worker/main.py:210`, `:260`) and never aggregates fills. The model does the same; `Types.FromFills` and the aggregated filter and alert variants are modelled as library functions. `Trade.get_fill_key` is documented at `whale_worker/types.py:26-35` as the key for fill-level dedup, but the main loop marks the transaction hash instead, and it marks each trade before its lookup (`whale_worker/main.py:257-260`). The model follows the main loop.
- `Categorization.DeriveCategoriesForMarket` is not called from `whale_worker/main.py`, so the poll cycle does not call it either.
- `selected_categories` is loaded and migrated, but the filter engine never reads it. `Filters.SelectedCategoriesIgnored` proves that independence.
- Worker.Worker.PollCycle: the `seen_cursor` flag is only logged, so `SelectNewTrades` returns it but nothing depends on it.
- Worker.Worker.PollCycle: the `events` ghost log records mark-before-match ordering as the `MarkedFirst` invariant of `Worker.Valid`. The contract does not list one event per new trade.
- PolymarketClient.SortNewestFirst: this is insertion sort. It is proved a permutation that is newest first and keeps hashes distinct. The stability of Python's `list.sort` for equal timestamps is not proved.
- Worker.Worker.constructor: requires a non-negative poll interval, because `time.sleep` raises on a negative one.
- Dispatcher.NotificationQueue.WorkerStep: takes one item per call. The unbounded `while self.running` loop is the caller's repetition.

## Findings

| source | as written | input that shows it | evidently intended | confidence | as-written member | corrected member |
|---|---|---|---|---|---|---|
| whale_worker/polymarket_client.py:84-86 | the fetch drops every record whose hash equals the marker's hash, so the cursor break at `whale_worker/main.py:205-207` can never fire | marker (1000, "a"); the answer holds valid trades "a" at 1000 and "b" at 900, and the dedup set is empty (15 minutes have passed). The request sends `minTimestamp=1000` (`whale_worker/polymarket_client.py:59-61`), so "b" arrives only if the API ignores that lower bound. Without that assumption, if "b" is also at 1000 and its dedup entry has expired, the cursor still does not stop the selection (`Worker.AsWrittenCursorNeverStops`), and "b" is selected again | keep the cursor trade in the batch, so that the poll loop stops at it and selects only newer trades | medium, not executed | Worker.AsWrittenMarkerRegresses | Worker.CorrectedMarkerHolds |
| whale_worker/notification_queue.py:233 | `db.collection('telegramAccounts')` calls a `Collection` named "collection", which is not callable. The `TypeError` is swallowed at lines 242-243, so the account stays active | any chat that answers 403 or 400 | set `isActive` to false on the `telegramAccounts` document with that chat id, so that the user is no longer loaded as an alert target | high, not executed | Dispatcher.NotificationQueue.DeactivateChatAsWritten | Dispatcher.NotificationQueue.DeactivateChat |

For the first row:

- `Worker.Worker.PollCycle` fetches as written, through `PolymarketClient.FetchRecentTrades`.
- `PolymarketClient.AsWrittenDropsCursor` shows that no fetched trade carries the marker's hash.
- `Worker.AsWrittenCursorNeverStops` shows that the poll then selects as if there were no cursor.
- `Worker.AsWrittenMarkerRegresses` and its concrete example show the marker moving back.
- The corrected fetch is `PolymarketClient.RecentTradesKeepingCursor`. `PolymarketClient.CorrectedKeepsCursor` shows it keeps the cursor trade. `Worker.CursorKeepsMarkerMonotone` and `Worker.CorrectedMarkerHolds` show the marker then never moves back.

For the second row:

- `Dispatcher.NotificationQueue.SendMessage` and `Dispatcher.NotificationQueue.WorkerStep` go through `DeactivateChatAsWritten`, so they leave the accounts unchanged.
- `Dispatcher.SendToBlockedChatAsWritten` shows that the filters loaded after a blocked send are the same as before.
- `Dispatcher.AsWrittenDeactivationKeepsAlerting` shows that such a store keeps the blocked chat as an alert target.
- The corrected send is `Dispatcher.NotificationQueue.SendMessageDeactivating`, which applies `Db.Deactivated`: only the first account with that chat id is cleared.
- When exactly one account carries the chat id, `Db.DeactivatedChatGetsNoFilter` proves that no filter carries that chat afterwards.
