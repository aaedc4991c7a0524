# Verified model of the gateway's stateful core

The gateway relays LLM requests to upstream channels. This project models the parts of it that hold
state or make a decision under concurrency, arbitrary map order or arbitrary input, and proves what
they promise. Each module follows one component.

| module | component |
|---|---|
| `RelayLogs`, `RelayLogQueue`, `RelayLogBounds` | the write-behind queue of relay logs: bounded admission, flush in three phases, clear |
| `LikeFilter`, `RelayLogListing`, `RelayLogRequests`, `RelayLogOrder` | listing relay logs: the in-memory matcher against the escaped LIKE filter, pages, cursor, and the order of a running queue |
| `HourlyLedger`, `LedgerRows`, `Leaderboard`, `SiteModelHistory` | additive hourly caches in front of a table, and the queries over both |
| `StatsSave`, `DayRollover` | saving cached counters by dirty id, and the day rollover beside a running save |
| `Backfill`, `BackfillCounts` | the keyset-paged projection of old relay logs into the leaderboard |
| `OutlierWindow`, `OutlierCandidates`, `OutlierReaping`, `OutlierSharing` | the 20-slot ring per (channel, model), channel aggregation, what later readers notice of a reap, and reports beside a reap |
| `ProtocolGate`, `ProtocolResolver`, `PlanOutcomes` | the conversion gate and the choice of the upstream protocol |
| `PolicyRevisions`, `PolicyReads`, `PolicyContents` | optimistic commits of policy revisions beside writes that are no commits, and reading the active one back |
| `UsageScanner`, `UsageLimits` | cutting the `"usage":{...}` object out of a byte stream |
| `Heartbeat`, `HeartbeatProgress` | the hand-over between the early-heartbeat goroutine and the handler |
| `HeaderTemplate`, `HeaderRules` | validating and rendering client-header templates |
| `AttemptBudget` | the per-request budget of providers and wires |
| `Text`, `Sorting`, `Selecting`, `Wrappers` | library behaviour the components rely on |

## How it is modelled

A concurrent component is a `State` datatype with one `Next` step per critical section or atomic
action; a run is any sequence of steps, so a theorem about `Run` is a theorem about every
interleaving. The code that changes state in place is a class whose methods are proved equal to the
steps (`Model() == Next(old(Model()), step)`) and whose loops are the loops of the source. Iteration
over a Go map is an arbitrary pick from a shrinking key set, so results are proved for every order.
The database is a sequence or a map whose statements succeed or fail as a whole; the outcome is a
parameter.

Methods and lemmas share the functions that specify them. What these functions mean is stated a second time, in the
fields of the data and in numbers, by the modules `RelayLogBounds`, `RelayLogRequests`, `LedgerRows`, `BackfillCounts`,
`OutlierCandidates`, `PlanOutcomes`, `PolicyContents`, `UsageLimits`, `HeartbeatProgress` and `HeaderRules`.

## Where a promise holds only under a condition

The code is kept as it is; each of these has an exact condition and, for most, a concrete input that fails.

- One page request over overlapping queue and table is the slice a reader expects if and only if no row
  before it was repeated and none in it is (or nothing new follows), or rows were repeated before it and it
  is rightly empty (`PageExactExactlyWhen`, for tables with unique ids). All pages of all sizes are right
  together if and only if the repeated rows are listed last (`PagesExactExactlyWhen`).
- A cursor page in the same situation may be short and report no further page
  (`CursorPageExact`, `FlushEndsEnumerationEarly`).
- Following the cursor with one given limit lists everything exactly once if and only if each page ends on
  a boundary: exactly the rows behind it are older than its last row (`EnumerationExactlyWhen`). For all
  limits together that is a list strictly descending in (time, id) (`CursorCompleteness`). Queue and table
  give that exactly when the queue is in this order and newer than the table (`ListedDescendsExactlyWhen`),
  which holds in every run that queues logs in this order (`InOrderRunsListAll`). But a row carries the time
  its request started and is queued when it ended: a request that started earlier and ended later is listed
  first, and read one row at a time it hides the one that ended before it (`LateFinisherHidesRow`).
- A row answers every keyword alike from queue and table exactly when each of its fields, as Go lower-cases
  it, is found in a field as the database lower-cases it, in the sense of the keyword mode
  (`AgreeExactlyWhen`). The table never matches more (`TableMatchesNoMore`); with a LOWER that folds ASCII
  only, a channel named with a capital E acute is listed while queued and not once flushed
  (`AccentedRowVanishes`).
- The first `"usage":` is missed exactly when an odd number of `"usage` stands directly before it
  (`FirstKeyFoundExactlyWhen`, `RepeatedKeyIsMissed`), and a key standing where an object should follow
  hides the one behind it (`SecondKeyIsMissed`). `Reference` says what is captured from any stream.
- The ring considers the same samples as the whole history exactly when enough of its samples are fresh or
  no older report is (`RingSeesEnough`); the statistics are then equal, and may happen to be equal
  otherwise. With non-decreasing report times it always does (`RingIsHistory`).
- A report's sample counts exactly when its window was not reaped or cleared between look-up and recording
  (`ReportCountsExactlyWhen`); a window that was just created is always old enough to be reaped
  (`FirstReportIsReaped`).
- A reap is invisible to later readers, whatever single reports, clears and further reaps follow, exactly
  when it is off or its ttl covers the time window (`ReapInvisibleExactlyWhen`, `ReapTooEager`). Channel-wide
  reports show it: all answers stay the same exactly when no such report comes from a channel with a reaped
  window other than the reporting one (`ReapSeenExactlyWhen`, `ChannelReportShowsReap`,
  `ReapedWindowMissesReport`).
- A channel-wide report reaches each window that is known from the start of its walk to the end
  (`KnownWindowGetsSample`), a window removed meanwhile for nobody to see, and creates none (`FanOutReaches`).
- The backfill sees a finished request exactly when it started at or after the query start; one that ran
  longer than the 24-hour lookback can be lost (`ScannedWhen`, `LongRequestIsLost`).
- A history bucket contains its hour exactly when the hour is not before 1970 or lies on a boundary
  (`BucketAligned`), because Go's remainder keeps the sign of the dividend.
- An error answered as JSON stays free of heartbeats in every continuation exactly when the SSE header is
  already out, so that it becomes an event, or the heartbeat goroutine has left its loop
  (`JsonAloneExactlyWhen`). A Hand or Stop before it guarantees that (`HandOverKeepsJsonAlone`); without one
  the header can join the JSON body (`HeaderJoinsEarlyAnswer`), and the early failures of the handler call none.
- Writing a daily snapshot loses no day exactly when its day is not over, will be stored again, or had no
  update since the snapshot (`SnapshotWriteKeepsExactlyWhen`); over a whole run no day is ever lost exactly
  when each snapshot written is harmless in this sense (`DaysKeptExactlyWhen`). One save at a time guarantees
  that (`NoDayForgotten`); a rollover save beside a regular save can lose updates (`OverlappingSavesLoseUpdate`).
- The policy read back is the one the winning commit projected (`ReadBackIsProjection`). Groups and presets
  are also written without a commit (creating, updating, deleting a group or preset, activating a preset, an
  import), so it need not be that of the current tables: it is, at every moment of a run, exactly when each
  write from outside leaves the projection as it is and each commit's five statements saw what it leaves
  (`UpToDateExactlyWhen`, `QuietCommitIsHarmless`); a new group is unread until the next commit
  (`NewGroupIsUnread`).
- Reading the policy statement by statement gives the active revision's own policy when a revision is active;
  at revision 0 it gives the first statement's policy exactly when each later statement read the same as it
  would have then (`SplitRead`, `FirstCommitShowsThrough`), and a deletion in between can give a policy that
  never was (`TornRead`).
- The slow removal by id agrees with the fast prefix drop exactly when no later entry repeats an id
  (`FastDropIsSlowFilter`).

One comment in the source differs from its code: the doc comment of `StatsLeaderboardHourlySaveDB`
says that requests arriving while the database is busy stay in the live cache; `recordLeaderboardEvent`
takes the read side of the flush lock, so they wait until the flush is over. The model follows the code.

## Model

| member | source | states |
|---|---|---|
| `RelayLogQueue.ExactlyOnce` | internal/op/log.go:144-273 | over every interleaving of enqueues, flush phases, failed writes and clears, the byte counter is exact, both bounds hold and every accepted log is exactly one of written, waiting or cleared; without a clear the accepted logs are the written ones followed by the unwritten ones, in enqueue order |
| `RelayLogQueue.StepKeepsConsistent` | internal/op/log.go:144-281 | every step keeps: bytes equal the sum of estimates, at most 5000 entries and 64 MiB, and a copied batch is still the head of the queue |
| `RelayLogQueue.StepKeepsFifo` | internal/op/log.go:215-273 | no enqueue or flush phase reorders, loses or duplicates a log |
| `RelayLogQueue.StepConserves` | internal/op/log.go:144-273 | every step, clears included, conserves the multiset of accepted logs |
| `RelayLogQueue.HeadApplies` | internal/op/log.go:243-248 | while the flush lock is held the batch is the queue's head, so the prefix drop always applies and leaves the exact byte count |
| `RelayLogQueue.FastDropIsSlowFilter` | internal/op/log.go:246-262 | filtering by flushed id gives the queue of the prefix drop if and only if no later entry has an id of the batch; distinct ids imply it |
| `RelayLogQueue.ClearWaitsForFlush` | internal/op/log.go:1016-1023 | no clear and no second flush takes effect between a flush's copy and its removal |
| `RelayLogQueue.QueueAndTableOverlap` | internal/op/log.go:222-273 | with unique ids no unwritten log is in the table, and while a written batch is still queued each of its rows is in both places |
| `RelayLogBounds.AdmittedExactlyWhen` | internal/op/log.go:144-159 | in every reachable state a log joins the queue if and only if fewer than 5000 are queued and it fits beside them into 64 MiB; otherwise only the drop counter moves |
| `RelayLogBounds.BareLog` | internal/op/log.go:161-169 | a log without texts and attempts is charged 256 bytes |
| `RelayLogBounds.TextsCount` | internal/op/log.go:161-169 | every byte of each of the seven texts is charged once |
| `RelayLogBounds.AttemptsCount` | internal/op/log.go:161-169 | an attempt is charged 96 bytes and its three texts |
| `RelayLogBounds.BatchTaken` | internal/op/log.go:215-233 | a flush takes the first 200 logs, or as many as it was told to, or all there are |
| `RelayLogBounds.BatchInserted` | internal/op/log.go:236-239 | a failed insert gives the batch up, a good one appends it to the table |
| `RelayLogBounds.ClearRemovesIds` | internal/op/log.go:1016-1060 | clearing removes exactly the rows with one of the ids |
| `RelayLogQueue.Writer.Admit` | internal/op/log.go:144-159 | a log is refused and counted as dropped exactly when an entry or byte bound would be exceeded, else appended, and a full batch raises the flush signal |
| `RelayLogQueue.Writer.CopyPrefix` | internal/op/log.go:216-233 | copies the first batch-size entries, all if there are fewer, and changes nothing on an empty queue |
| `RelayLogQueue.Writer.Insert` | internal/op/log.go:236-239 | a failed insert leaves table and queue as they were |
| `RelayLogQueue.Writer.Remove` | internal/op/log.go:243-271 | both branches of the removal with their byte accounting |
| `RelayLogQueue.KeepUnflushed` | internal/op/log.go:250-261 | keeps exactly the entries not flushed, in order, and recounts their bytes |
| `RelayLogQueue.Writer.FlushPendingBatch` | internal/op/log.go:215-273 | an undisturbed flush moves exactly one batch from the queue's head to the table's end, or changes neither |
| `RelayLogQueue.Writer.DrainPending` | internal/op/log.go:192-213 | draining keeps table ++ queue; without an error it takes maxBatches times 200 logs or all there are, and raises the signal again when some are left |
| `RelayLogQueue.Writer.DrainOnce` | internal/op/log.go:19-28 | one drain of the background writer empties any queue the bounds allow, because 25 batches of 200 make 5000 |
| `RelayLogQueue.Writer.FlushPending` | internal/op/log.go:283-297 | the flush on shutdown ends, keeps table ++ queue, and stops early only at a failing batch; without one it leaves the queue empty |
| `RelayLogQueue.Writer.BeginClear` | internal/op/log.go:1016-1023 | a clear empties the queue and its byte count under the flush lock |
| `LikeFilter.EscapeIsPerByte` | internal/op/log.go:900-905 | the three sequential replacements put one `#` before each special byte and touch nothing else |
| `LikeFilter.ContainsAt` | internal/op/log.go:935-937 | the substring test means an occurrence at some position |
| `LikeFilter.EscapedIsLiteral` | internal/op/log.go:896-905 | an escaped keyword in a LIKE pattern consumes exactly the keyword, for every continuation of the pattern |
| `LikeFilter.PrefixPatternIsHasPrefix` | internal/op/log.go:886-887 | a text matches escape(k)% if and only if it starts with k |
| `LikeFilter.ContainsPatternIsContains` | internal/op/log.go:870-872 | a text matches %escape(k)% if and only if it contains k |
| `LikeFilter.LogMatchesKeyword` | internal/op/log.go:915-946 | the loop finds a match if and only if some searched field of the mode and scope matches, for any lower-casing |
| `LikeFilter.FiltersAgree` | internal/op/log.go:823-894 | a row is accepted by the in-memory filter if and only if it is accepted by the WHERE clause, for all filters, modes and scopes and any lower-casing, wherever database and program lower-case the searched fields alike |
| `LikeFilter.AgreeExactlyWhen` | internal/op/log.go:853-894 | for every mode and scope a row answers all keywords alike from queue and table if and only if each lower-cased field is found, in the sense of the mode, in a field as the database lower-cases it |
| `LikeFilter.TableMatchesNoMore` | internal/op/log.go:853-894 | what the table matches the queue matches too, so flushing a row never makes it appear |
| `LikeFilter.AccentedRowVanishes` | internal/op/log.go:853-946 | with a LOWER for ASCII only, a row under a channel named É is found by that name in the queue, in every mode, and not in the table |
| `RelayLogListing.CollectPending` | internal/op/log.go:761-776 | the matching queued rows, newest first |
| `RelayLogListing.AppendDedupedById` | internal/op/log.go:720-738 | appends, in order, the table rows whose id is not in memory |
| `RelayLogListing.SqlMatchingIsMatching` | internal/op/log.go:823-894 | the table selects what the in-memory filter would, so flushing a row changes no listing |
| `RelayLogListing.ListPage` | internal/op/log.go:555-613 | a page request's rows and total for every page number and size, the count and the rows read from the table in two statements; with queue and table disjoint the rows are the page-th slice of queue matches followed by table matches |
| `RelayLogRequests.PageBegins` | internal/op/log.go:525-555 | with disjoint sources page p answers the rows behind p - 1 full pages; pages below 1 are page 1, sizes outside 1 to 100 are 20 |
| `RelayLogRequests.PagesReadOn` | internal/op/log.go:525-611 | the answers to pages 1 to n laid end to end are the first n times pageSize rows |
| `RelayLogRequests.ListedWithoutKeyword` | internal/op/log.go:823-862 | without a keyword the listing holds exactly the rows of queue and table inside the time bounds, in the channels and of the status asked for |
| `RelayLogRequests.QueuedByKeyword` | internal/op/log.go:823-946 | a queued row is listed by keyword if and only if it is selected and one of its names, or where asked for its error or contents, equals, begins with or contains it |
| `RelayLogRequests.StoredByKeyword` | internal/op/log.go:845-894 | a stored row is listed by the same fields as the database lower-cases them |
| `RelayLogListing.CutPage` | internal/op/log.go:573-611 | the slice arithmetic over the two sources |
| `RelayLogListing.PageOfOneList` | internal/op/log.go:573-611 | two disjoint sources are paged as one list |
| `RelayLogListing.PagesExactExactlyWhen` | internal/op/log.go:573-611 | with overlapping sources the pages of all sizes together are the slices of the distinct rows if and only if no table-only row is listed behind a repeated one |
| `RelayLogListing.PageExactExactlyWhen` | internal/op/log.go:573-611 | one page request is the slice of the distinct rows if and only if nothing before or in it was repeated (or nothing new follows), or rows were repeated before it and it is rightly empty; the table's ids are unique |
| `RelayLogListing.PagesTile` | internal/op/log.go:555-611 | the first n pages laid end to end are the first n times size rows: nothing skipped or repeated |
| `RelayLogListing.ListCursor` | internal/op/log.go:616-656 | one cursor request: rows, hasMore and next cursor |
| `RelayLogRequests.CursorRequest` | internal/op/log.go:515-523 | with disjoint sources a cursor request answers the first rows admitted, as many as its limit, the page size without one, or 20, and names the last one's time and id if and only if more follow |
| `RelayLogRequests.OlderMeans` | internal/op/log.go:658-682 | what a time bound, an id bound, both or none admit |
| `RelayLogListing.CursorPageExact` | internal/op/log.go:616-656 | the cursor page is the one over distinct matches if and only if the rows read repeat none from memory or nothing new lies behind them |
| `RelayLogListing.FlushEndsEnumerationEarly` | internal/op/log.go:616-656 | one repeated row can end an enumeration although a row follows |
| `RelayLogListing.CursorPageOfOneList` | internal/op/log.go:616-656 | with disjoint sources every cursor page is exact |
| `RelayLogListing.NextCursorAdvances` | internal/op/log.go:658-669 | following the next cursor strictly shrinks what is left, so every enumeration ends |
| `RelayLogListing.EnumerateSuffix` | internal/op/log.go:616-669 | on a descending list an enumeration from any position yields exactly the rest |
| `RelayLogListing.SingleStepsDescend` | internal/op/log.go:658-669 | reading one row at a time yields a strictly descending sequence, whatever the list |
| `RelayLogListing.CursorCompleteness` | internal/op/log.go:616-669 | for all limits together the enumeration yields every match exactly once if and only if the list is strictly descending in (time, id) |
| `RelayLogListing.EnumerationExactlyWhen` | internal/op/log.go:616-669 | for one given limit the enumeration of rows with unique ids yields every match exactly once if and only if each page ends where exactly the rows behind it are older than its last row |
| `RelayLogListing.LateFinisherHidesRow` | internal/relay/metrics.go:245-255 | a request that started earlier and ended later than another is queued behind it with the smaller time; read one row at a time, the listing shows it and never the one that ended before it |
| `RelayLogOrder.ListedDescendsExactlyWhen` | internal/op/log.go:716-776 | with the table in its query order, the listing is strictly descending for every filter if and only if the queue ascends and everything queued is newer than the table |
| `RelayLogOrder.StoreIncreases` | internal/op/log.go:144-273 | over every run that enqueues in (time, id) order, with failed writes, refusals and clears, table followed by unwritten queue stays in that order |
| `RelayLogOrder.InOrderRunsListAll` | internal/op/log.go:616-669 | in every state of such a run without a written batch still queued, every listing is descending and every cursor enumeration yields each match exactly once |
| `HourlyLedger.LedgerConserves` | internal/op/stats_leaderboard.go:94-188 | over every run of records, flushes and failed flushes, table + cache + snapshot equals the recorded events for every selection of keys and every counter; outside a flush nothing is detached |
| `HourlyLedger.StepKeepsBalance` | internal/op/stats_site_model.go:44-179 | one record, detach or settled flush neither loses nor double-counts |
| `HourlyLedger.LedgerKeepsLatest` | internal/op/stats_leaderboard.go:135-137 | the newest request time of every key survives every run |
| `HourlyLedger.MergeAddsTotals` | internal/op/stats_leaderboard.go:169-186 | merging a snapshot into cache or table adds its totals exactly once |
| `HourlyLedger.RecordAllAddsToTotal` | internal/op/stats_leaderboard.go:110-138 | recording adds exactly the recorded counters to any selection of keys |
| `HourlyLedger.TotalSplit` | internal/op/stats_leaderboard.go:160-163 | sums over a map do not depend on its iteration order |
| `HourlyLedger.CountsDetermine` | internal/model/stats.go:59-67 | the seven counters determine the metrics, so equal sums per counter mean equal rows |
| `HourlyLedger.MergeRows` | internal/op/stats_site_model_query.go:111-144 | merging row by row in any order gives the merged map |
| `LedgerRows.RowOfEntries` | internal/op/stats_leaderboard.go:110-138 | a row exists exactly for keys with an entry, with the date of the first and the last name that is not empty |
| `LedgerRows.FlushedRow` | internal/op/stats_leaderboard.go:190-212 | a flushed row gives the stored one its name and date and the newer time and adds its counters; other rows stay |
| `LedgerRows.RestoredRow` | internal/op/stats_leaderboard.go:169-186 | a row put back after a failed flush gives its name if it has one, keeps the cached date, and adds its counters |
| `LedgerRows.FirstEvent` | internal/op/stats_leaderboard.go:94-188 | an empty ledger records its first event, a flush detaches it, stores it when the write succeeds and puts it back when it fails |
| `HourlyLedger.HourlyCache.RecordEvent` | internal/op/stats_leaderboard.go:94-139 | an event updates every row it touches as one step |
| `HourlyLedger.HourlyCache.DetachCache` | internal/op/stats_leaderboard.go:149-158 | a flush takes the whole cache, and nothing when it is empty |
| `HourlyLedger.HourlyCache.SettleFlush` | internal/op/stats_leaderboard.go:160-212 | success adds the snapshot to the table, failure merges it back into the cache |
| `Leaderboard.HistoryIsEvents` | internal/op/stats_leaderboard.go:94-138 | each event that got past the lock contributes its three entries once |
| `Leaderboard.EntryMeans` | internal/op/stats_leaderboard.go:98-138 | an event counts for its model, its channel and its requested model in the hour of its time, with its metrics, date and shown name |
| `Leaderboard.LiveRowsAreExact` | internal/op/stats_leaderboard.go:94-188 | between flushes table + cache hold, for every item and window, exactly the sum of its own requests |
| `Leaderboard.DimensionsAgree` | internal/op/stats_leaderboard.go:100-108 | in every reachable state, mid-flush included, each of the three dimensions totals all counted requests |
| `Leaderboard.LoadRows` | internal/op/stats_leaderboard_query.go:86-108 | the rows of one dimension and window, none missed or repeated, in any map order |
| `Leaderboard.AggregateRows` | internal/op/stats_leaderboard_query.go:110-136 | one result per key with the exact sum of its rows and their newest request time |
| `Leaderboard.Query` | internal/op/stats_leaderboard_query.go:47-74 | a query between flushes shows, for exactly the items that have a row, the sum of their live requests in the window plus their backfilled rows, and the newest of their request times |
| `Leaderboard.SortRows` | internal/op/stats_leaderboard_query.go:138-147 | every row once, more requests first and then by key, and this order is the only one |
| `SiteModelHistory.LoadSeries` | internal/op/stats_site_model_query.go:82-144 | a series is exactly the merged row of each of its hours, ascending, and its totals are table plus cache |
| `SiteModelHistory.MergedHour` | internal/op/stats_site_model_query.go:111-144 | the row of an hour adds the counts of table and cache and has the newer of their times |
| `SiteModelHistory.GatherSeries` | internal/op/stats_site_model_query.go:146-177 | grouping a map in any order yields each hour of the series once, ascending |
| `SiteModelHistory.SeriesIsExact` | internal/op/stats_site_model.go:44-179 | over every run of attempts, flushes and failed flushes a series counts exactly its own attempts in the window, ignoring unbound channels, and between flushes table and cache alone hold them |
| `SiteModelHistory.AttemptCounts` | internal/op/stats_site_model.go:46-88 | an attempt adds its metrics to the one row of its hour, binding and model, or to none without channel, model or binding |
| `SiteModelHistory.BucketAligned` | internal/op/stats_site_model_query.go:225-240 | bucket starts are multiples of the span and contain their hour exactly when the hour is not before 1970 or lies on a boundary |
| `SiteModelHistory.BuildBuckets` | internal/op/stats_site_model_query.go:225-250 | ascending distinct buckets, one for each occupied time, each with exactly the counts of its own hours |
| `SiteModelHistory.BucketsConserve` | internal/op/stats_site_model_query.go:225-250 | bucket sums equal the totals of the hours |
| `SiteModelHistory.AtMost31Buckets` | internal/op/stats_site_model_query.go:252-268 | any series within 2161 hours needs at most 31 buckets |
| `SiteModelHistory.BuildSummary` | internal/op/stats_site_model_query.go:189-223 | totals, newest request time with its fallback, buckets adding up to the totals, and hourly, six-hour, daily or weekly buckets for series within a day, a week, thirty days or more |
| `StatsSave.StepKeepsInvariant` | internal/op/stats.go:99-148 | a cached row that differs from its table row is always dirty, in flight or about to be marked, whatever interleaves |
| `StatsSave.SavesForgetNothing` | internal/op/stats.go:99-260 | the same over every run of updates and saves failing at any stage, with the cache equal to the sum of the updates |
| `StatsSave.SettledTableIsExact` | internal/op/stats.go:171-328 | once nothing is dirty or pending every table row is exactly the sum of its updates: failures and retries lost and double-counted nothing |
| `StatsSave.StatsStore.Update` | internal/op/stats.go:358-429 | an update changes one cached row and marks exactly its id |
| `StatsSave.StatsStore.WriteRows` | internal/op/stats.go:204-219 | writes the cached rows of the detached ids in one statement, which is skipped when there are none |
| `StatsSave.StatsStore.WriteTables` | internal/op/stats.go:204-250 | each of the three tables written whole, in order, up to the first failure; a table without rows cannot fail |
| `StatsSave.StatsStore.Save` | internal/op/stats.go:99-148 | exactly which tables a save gets to write and when it succeeds; a successful one leaves table and cache equal and nothing dirty, a failed one keeps every dirty id |
| `StatsSave.DailyStats.Update` | internal/op/stats.go:330-346 | the current day is always the sum of its updates, and a finished day reaches table or queue |
| `StatsSave.DailyStats.Rollover` | internal/op/stats.go:262-304 | the finished day's snapshot is stored, or queued when its save failed |
| `StatsSave.DailyStats.SaveToday` | internal/op/stats.go:184-186 | the regular save stores the current day (the snapshot it may be is in `DayRollover`) |
| `StatsSave.DailyStats.StoreDays` | internal/op/stats.go:68-76 | stores queued days in order up to the first failure |
| `StatsSave.DailyStats.FlushQueue` | internal/op/stats.go:59-77 | the days not stored go back in order in front of those queued meanwhile, and no day is lost |
| `DayRollover.SnapshotWriteKeepsExactlyWhen` | internal/op/stats.go:99-148 | writing a snapshot taken earlier loses no day if and only if its day is still current, will be stored again, or had no update since |
| `DayRollover.DayStepKeeps` | internal/op/stats.go:59-77 | a step loses no day, whatever runs beside it, if and only if it does not write a harmful snapshot; the queue is detached whole and stored day by day, the rest put back at a failure |
| `DayRollover.DaysKeptExactlyWhen` | internal/op/stats.go:93-148 | over every run of overlapping updates and saves no day is lost at any moment if and only if every snapshot written is harmless |
| `DayRollover.NoDayForgotten` | internal/op/stats.go:99-148 | with one save at a time every snapshot is harmless, however stale, so no day with updates is lost |
| `DayRollover.SettledDays` | internal/op/stats.go:262-304 | once no save is in progress or due every earlier day is exact in queue or table |
| `DayRollover.OverlappingSavesLoseUpdate` | internal/op/stats.go:262-346 | a regular save that read 5 and writes after the rollover save stored 7 leaves 5 |
| `Backfill.CursorSkips` | internal/op/stats_leaderboard_backfill.go:139-151 | moving the (time, id) cursor to the n-th row leaves exactly the rows behind it |
| `Backfill.LoadPage` | internal/op/stats_leaderboard_backfill.go:139-151 | a page is a prefix of what is left, and a short page is all of it |
| `Backfill.Collect` | internal/op/stats_leaderboard_backfill.go:102-137 | for every page size the paged scan ends and equals one fold over the whole table |
| `Backfill.AddBatch` | internal/op/stats_leaderboard_backfill.go:122-127 | a page extends the fold by its rows that finished in the window |
| `Backfill.AddBackfillLog` | internal/op/stats_leaderboard_backfill.go:207-280 | one log adds its three dimension entries |
| `Backfill.LastAttemptModelMeans` | internal/op/stats_leaderboard_backfill.go:282-296 | a log without its own model is attributed to the last attempt really made that named one, or to the requested model when there is none |
| `Backfill.LastAttemptChannelMeans` | internal/op/stats_leaderboard_backfill.go:298-318 | a log without a channel is attributed to the last attempt really made, or to the unassigned channel |
| `Backfill.EachDimensionCountsOnce` | internal/op/stats_leaderboard_backfill.go:207-280 | every counted log is in each dimension exactly once |
| `BackfillCounts.DimensionCounters` | internal/op/stats_leaderboard_backfill.go:102-233 | in each dimension the seven counters are: number of counted logs that succeeded, number of the others, sums of input tokens, output tokens, cost and waiting time, and 0 output cost; a log counts if it started in the lookback and ended in the window |
| `BackfillCounts.ItemCounters` | internal/op/stats_leaderboard_backfill.go:207-280 | the same for the row of every item and every window, over the logs attributed to the item |
| `BackfillCounts.LogIsAttributed` | internal/op/stats_leaderboard_backfill.go:207-318 | a log counts for the model it names, else the last attempt made that named one, else the requested one or "unknown"; for its channel, else that of the last attempt made, else channel 0; at the time it ended |
| `Backfill.ScannedWhen` | internal/op/stats_leaderboard_backfill.go:102-151 | a log finishing in the window is scanned if and only if it started at or after the query start, which a duration of at most 24 hours guarantees |
| `Backfill.LongRequestIsLost` | internal/op/stats_leaderboard_backfill.go:22-22 | a request one second longer than the lookback is missed |
| `OutlierWindow.Configured` | internal/outlierwindow/window.go:82-99 | field by field: a legal setting is kept whatever the others are, an illegal one becomes its default, and the capacity is capped at 20 |
| `OutlierWindow.RingSeesEnough` | internal/outlierwindow/window.go:259-269 | the exact condition under which the last 20 reports give the samples of the whole history |
| `OutlierWindow.RingIsHistory` | internal/outlierwindow/window.go:153-294 | with non-decreasing times the ring's statistics equal those of the unbounded history for every capacity up to 20 |
| `OutlierWindow.RingWindow.Record` | internal/outlierwindow/window.go:153-162 | slot j modulo 20 holds report j for the last 20 reports |
| `OutlierWindow.RingWindow.Ordered` | internal/outlierwindow/window.go:240-253 | reads the ring from oldest to newest, wrapped or not |
| `OutlierWindow.RingWindow.Evaluate` | internal/outlierwindow/window.go:255-294 | returns the statistics of the unbounded history when times do not decrease |
| `OutlierWindow.Accumulate` | internal/outlierwindow/window.go:271-293 | the loops compute failure count, trailing failures, last success and gate 1 |
| `OutlierCandidates.CandidateExactlyWhen` | internal/outlierwindow/window.go:229-237 | a window is a candidate if and only if it has enough samples, failures reach the rate times the samples, and the last consecFails samples all failed or none succeeded at a nonzero time |
| `OutlierCandidates.StatsMean` | internal/outlierwindow/window.go:271-291 | number of failed samples, run of failures at the end, time of the last success and of the last sample, and the rate, read off the samples |
| `OutlierCandidates.ConsideredMeans` | internal/outlierwindow/window.go:259-269 | the last capacity samples among those later than now minus the time window |
| `OutlierCandidates.WindowAnswers` | internal/outlierwindow/window.go:176-182 | a known window answers for its last 20 reports, an unknown one with nothing |
| `OutlierWindow.WindowStore.Configure` | internal/outlierwindow/window.go:82-99 | changing the settings keeps every window's history |
| `OutlierWindow.WindowStore.Report` | internal/outlierwindow/window.go:115-123 | adds one sample to one window, created if missing, and to no other |
| `OutlierWindow.WindowStore.ReportChannel` | internal/outlierwindow/window.go:130-151 | adds exactly one sample to the reporting window and to every known window of the channel, in any map order |
| `OutlierCandidates.ChannelReportMeans` | internal/outlierwindow/window.go:130-151 | the reporting window and the channel's other known windows get the sample once, no other window changes |
| `OutlierWindow.WindowStore.Evaluate` | internal/outlierwindow/window.go:176-182 | a window's statistics, or none for an unknown one |
| `OutlierWindow.WindowStore.EvaluateChannel` | internal/outlierwindow/window.go:188-225 | sums and maxima over the channel's windows whatever the iteration order, and gate 1 on them |
| `OutlierCandidates.ChannelCandidateExactlyWhen` | internal/outlierwindow/window.go:188-237 | a channel is a candidate if and only if its windows have enough samples together, enough of these failed, and one window's run of failures is long enough or no window has a success |
| `OutlierCandidates.ChannelSums` | internal/outlierwindow/window.go:206-207 | samples and failures add up window by window, whichever is taken first |
| `OutlierCandidates.ChannelMaxima` | internal/outlierwindow/window.go:208-216 | run of failures and times are the largest of the channel's windows |
| `OutlierCandidates.ChannelStatsMean` | internal/outlierwindow/window.go:219-224 | the channel's statistics are its sums and maxima with the rate of the sums |
| `OutlierWindow.AggregateSplit` | internal/outlierwindow/window.go:192-217 | the channel aggregate does not depend on which window comes first |
| `OutlierWindow.WindowStore.ClearChannel` | internal/outlierwindow/window.go:302-309 | removes the channel's windows and no other |
| `OutlierWindow.WindowStore.Reap` | internal/outlierwindow/window.go:312-334 | removes exactly the windows last seen before now - ttl and counts them |
| `OutlierCandidates.ReapMeans` | internal/outlierwindow/window.go:312-334 | a window stays, unchanged, exactly when reaping is off or its newest sample is not older than the ttl |
| `OutlierReaping.ReapUnseen` | internal/outlierwindow/window.go:312-334 | after a reap with a sufficient ttl, any later run whose channel-wide reports miss no reaped window gives the same single and channel-wide answers |
| `OutlierReaping.ReapTooEager` | internal/outlierwindow/window.go:312-334 | a shorter ttl changes some later answer |
| `OutlierReaping.ReapInvisibleExactlyWhen` | internal/outlierwindow/window.go:312-334 | no later reader notices a reap, whatever single reports, clears and reaps follow it, if and only if it is off or its ttl covers the time window |
| `OutlierReaping.ReapSeenExactlyWhen` | internal/outlierwindow/window.go:130-151 | over any run after such a reap, channel-wide reports included, all answers are the same at every moment and time of asking if and only if no channel-wide report misses a window only the unreaped store still has |
| `OutlierReaping.ChannelReportShowsReap` | internal/outlierwindow/window.go:130-151 | one channel-wide report after the reap leaves all answers the same if and only if no reaped key but its own belongs to its channel |
| `OutlierReaping.ReapedWindowMissesReport` | internal/relay/failure_scope.go:150-159 | an idle and a live window of one channel: after the reap all answers are the same, after the live one reports for the channel they are not |
| `OutlierReaping.StatsDecideAggregate` | internal/outlierwindow/window.go:188-225 | stores whose windows answer alike aggregate alike, windows without statistics present or not |
| `OutlierSharing.RunIsSound` | internal/outlierwindow/window.go:104-162 | over every interleaving of look-ups, recordings, reaps and clears no two keys share a window |
| `OutlierSharing.LinkedUntilRemoved` | internal/outlierwindow/window.go:104-111 | a window stays the one readers of its key see until the key is taken out of the store, and from then on no reader sees it |
| `OutlierSharing.ReportCountsExactlyWhen` | internal/outlierwindow/window.go:115-123 | a report's sample is in the window readers see at the end of any run if and only if its key was never taken out since the look-up; otherwise it is in a window nobody will ever see |
| `OutlierSharing.FanOutReaches` | internal/outlierwindow/window.go:139-150 | where the walk of a channel-wide report meets a window, its sample fares as a single report's; where the key is absent nothing is created or recorded |
| `OutlierSharing.KnownWindowGetsSample` | internal/outlierwindow/window.go:139-150 | a window known from the start of the walk to the end has the sample, wherever the walk met it and whatever ran beside it |
| `OutlierSharing.FirstReportIsReaped` | internal/outlierwindow/window.go:312-334 | a reap between creation and first recording always takes the new window |
| `ProtocolGate.GateAdmits` | internal/protocolroute/gate.go:38-83 | exactly which conversions pass: protocol-bound features stay home, tools never cross between Responses and Anthropic |
| `ProtocolGate.LosslessIsPassthrough` | internal/protocolroute/gate.go:87-101 | lossless is exactly raw passthrough, which never changes the protocol; legacy mode is exactly a refusal |
| `ProtocolResolver.ResolveManualRules` | internal/protocolroute/policy.go:108-159 | the first forcing scope wins; otherwise all preferences of the scopes that group auto does not silence |
| `ProtocolResolver.LadderIsMaximum` | internal/protocolroute/resolver.go:133-157 | adding all signals, profiles in any order, leaves each protocol its strongest signal as read off the ladder |
| `ProtocolResolver.CollectCandidates` | internal/protocolroute/resolver.go:132-157 | the candidate map holds exactly the strongest signal of every protocol that has one |
| `ProtocolResolver.KeepSafe` | internal/protocolroute/resolver.go:160-178 | keeps exactly the candidates passing adapter, profile, conversion switch and gate, in any map order |
| `ProtocolResolver.BestOf` | internal/protocolroute/resolver.go:190-204 | sorting yields the maximum by score, previous protocol, name |
| `ProtocolResolver.ResolveScored` | internal/protocolroute/resolver.go:126-206 | the scored branch answers the specification |
| `ProtocolResolver.ResolvePrimary` | internal/protocolroute/resolver.go:69-206 | for every map order the decision is the one the order-free specification allows, all refusals included |
| `ProtocolResolver.BestIsUnique` | internal/protocolroute/resolver.go:192-202 | at most one protocol is best |
| `ProtocolResolver.AnswerIsUnique` | internal/protocolroute/resolver.go:69-206 | two runs on the same input decide the same |
| `ProtocolResolver.AdaptivePlansAreSafe` | internal/protocolroute/resolver.go:69-244 | every adaptive plan, forced or scored, passed adapter, profile, switch and gate, and its mode says whether it translates |
| `ProtocolResolver.RefusedExactlyWhen` | internal/protocolroute/resolver.go:180-188 | without a force an adaptive channel is refused if and only if no candidate is safe and legacy is not eligible |
| `PlanOutcomes.PlansHaveProfile` | internal/protocolroute/policy.go:163-170 | every adaptive plan is for a protocol with an enabled entry for the channel, or without an entry and equal to the channel's type, and such a protocol is never refused for the lack of a profile |
| `PlanOutcomes.ScoredOutcome` | internal/protocolroute/resolver.go:126-206 | without a force the plan is for a passing protocol with a claim of 800, 700, 625, 600, 500 or 499, going before every other by score, previous protocol and name; without any the legacy plan or a refusal; all fields of the plan |
| `PlanOutcomes.ForcedOutcome` | internal/protocolroute/resolver.go:92-124 | a forced protocol is planned with priority 900 or refused for conversion, adapter, profile or gate, in this order, each stated on the snapshot |
| `PlanOutcomes.LegacyOutcome` | internal/protocolroute/resolver.go:73-90 | multimodal or embedding requests and channels of other types get the legacy plan, or the refusal that applies |
| `PlanOutcomes.ForceMeans` | internal/protocolroute/policy.go:108-159 | which rule forces which protocol, group before key before channel, the lower two not under automatic |
| `PlanOutcomes.SignalIsStrongestClaim` | internal/protocolroute/resolver.go:132-157 | a protocol's signal is the strongest of what speaks for it |
| `PlanOutcomes.AdaptivePlanMeans` | internal/protocolroute/resolver.go:208-244 | what a plan copies, the configuration of the profile or an empty one, and the mode: translated, normalized for chat, else passed through |
| `PolicyRevisions.RevisionsAreLinear` | internal/op/protocol_route_service.go:51-120 | for any number of interleaved committers and any writes from outside the revisions are a gapless chain, each changing the version it found by its own write and holding the projection its five statements read |
| `PolicyRevisions.StepKeepsInvariant` | internal/op/protocol_route_service.go:51-120 | every step of every transaction and every write from outside keeps chain, versions and winners |
| `PolicyRevisions.CommitKeepsInvariant` | internal/op/protocol_route_service.go:86-114 | a won commit keeps them |
| `PolicyRevisions.SawOneRevision` | internal/op/protocol_route_service.go:51-120 | every version a winner could have looked at, from its load to its effect, is of the revision it replaced |
| `PolicyRevisions.QuietCommit` | internal/op/protocol_route_service.go:69-114 | a commit whose statements all saw the version it changes stores the projection of exactly the tables it leaves |
| `PolicyRevisions.OneWinner` | internal/op/protocol_route_service.go:98-110 | at most one committer wins an expected revision |
| `PolicyRevisions.WinsExactlyWhen` | internal/op/protocol_route_service.go:95-113 | a transaction that has read its projection wins if and only if the database does not fail, nobody committed since its load and its revision number is free; else the database stays |
| `PolicyRevisions.LosersChangeNothing` | internal/op/protocol_route_service.go:58-110 | only a winning commit, which advances the revision by one, and a write from outside, which touches the tables alone, change the database |
| `PolicyRevisions.RevisionNumberIsFree` | internal/op/protocol_route_service.go:95-97 | the unique revision number never refuses a commit the revision check accepts |
| `PolicyRevisions.ChannelsAreGrouped` | internal/op/protocol_route_payload.go:65-145 | the projection lists each channel once, exactly if it has a row, with all its rows in query order |
| `PolicyRevisions.BuildChannels` | internal/op/protocol_route_payload.go:65-145 | the loop with its index map computes that grouping |
| `PolicyRevisions.NormalizeIsIdempotent` | internal/op/protocol_route_payload.go:161-177 | normalizing a stored payload again changes nothing |
| `PolicyRevisions.ProjectionHolds` | internal/op/protocol_route_payload.go:65-177 | a payload has the flags, mode, lists, groups, presets and channel rows of the tables, with the seven default signals for an empty ranking order |
| `PolicyContents.ChannelsInOrder` | internal/op/protocol_route_payload.go:86-120 | the channels stand in the order in which their rows first appear |
| `PolicyContents.ChannelRows` | internal/op/protocol_route_payload.go:86-119 | a listed channel has exactly its own rows in query order, and each channel with a row is listed |
| `PolicyReads.ReadBackIsProjection` | internal/op/protocol_route_payload.go:30-63 | in every reachable state the active policy read back is the one the winning commit projected; at revision 0 it is that of the tables |
| `PolicyContents.ReadBackHolds` | internal/op/protocol_route_payload.go:30-63 | in every reachable state a read succeeds and its payload holds, field by field, the tables the winning commit read, or at revision 0 the tables |
| `PolicyContents.RevisionRow` | internal/op/protocol_route_service.go:73-97 | the row of revision r is numbered r, follows r - 1 and carries the digest of a payload that holds the tables its commit read |
| `PolicyContents.ReadMeans` | internal/op/protocol_route_payload.go:46-62 | a missing row, a wrong digest, an undecodable payload and another schema are refused in this order; anything else is returned but for a missing allowlist and an empty ranking order |
| `PolicyReads.UpToDateExactlyWhen` | internal/op/group.go:67-80 | a reader gets the policy of the current tables at every moment of a run if and only if every write from outside after the first commit leaves the projection as it is and every commit projected what it left |
| `PolicyReads.QuietCommitIsHarmless` | internal/op/protocol_route_payload.go:65-145 | a commit whose five statements saw the version it changes projects what it leaves |
| `PolicyReads.NewGroupIsUnread` | internal/op/group.go:67-80 | after a commit, creating a group leaves the policy read back as it was and makes it differ from that of the tables |
| `PolicyReads.SplitRead` | internal/op/protocol_route_payload.go:30-63 | read statement by statement with any commits and outside writes in between, an active revision above 0 gives its own policy; revision 0 gives the first statement's policy if and only if every later statement read the same as it would have then |
| `PolicyReads.TornRead` | internal/op/group.go:258-288 | a group deleted between the statements for groups and presets gives a policy of no version |
| `PolicyReads.FirstCommitShowsThrough` | internal/op/protocol_route_payload.go:38-44 | the first commit between the two statements is returned under revision 0 |
| `PolicyReads.ReReadAfterWin` | internal/op/protocol_route_service.go:86-120 | after a won commit the re-read returns the winner's revision or a later one, complete in itself |
| `PolicyRevisions.PolicyStore.CommitMutation` | internal/op/protocol_route_service.go:51-120 | one undisturbed commit: when it wins, its conflict error, its new state, and the state it returns, which holds the changed tables field by field |
| `UsageScanner.Scanner.Feed` | internal/relay/images_proxy.go:236-325 | feeding a chunk is stepping through its bytes, early returns included |
| `UsageScanner.ChunkingIsIrrelevant` | internal/relay/images_proxy.go:236-325 | the result does not depend on how the stream is split |
| `UsageScanner.TrackFits` | internal/relay/images_proxy.go:307-323 | what the match index remembers: the longest pattern prefix at the end, and how many key copies precede it |
| `UsageScanner.SearchState` | internal/relay/images_proxy.go:307-323 | the scanner's whole state after any text without a found key |
| `UsageScanner.FirstKeyFoundExactlyWhen` | internal/relay/images_proxy.go:307-323 | the first key is found if and only if an even number of key copies stands directly before it |
| `UsageScanner.FirstKeyFoundWithoutRepeat` | internal/relay/images_proxy.go:307-323 | without `"usage"u` in the input the first key is always found |
| `UsageScanner.RepeatedKeyIsMissed` | internal/relay/images_proxy.go:318-323 | `"usage"usage":` is missed |
| `UsageScanner.OpenMeans` | internal/relay/images_proxy.go:271-284 | an open text is one none of whose prefixes is balanced |
| `UsageScanner.CollectState` | internal/relay/images_proxy.go:246-287 | depth, string and escape flags are those of the text collected so far |
| `UsageScanner.ObjectIsCut` | internal/relay/images_proxy.go:246-287 | the buffer handed over is the shortest balanced prefix, ignoring braces in strings; above 64 KiB it is given up |
| `UsageScanner.BlanksAreSkipped` | internal/relay/images_proxy.go:289-305 | blanks between key and object do not matter |
| `UsageScanner.UsageIsCaptured` | internal/relay/images_proxy.go:236-325 | end to end: any split of prefix, first key, blanks, object and rest captures exactly the object |
| `UsageLimits.ObjectIsCaptured` | internal/relay/images_proxy.go:231-305 | an object behind the key is captured whole up to 65536 bytes and given up beyond; spaces, tabs and line ends before it do not matter |
| `UsageLimits.OnlyBlanksMaySeparate` | internal/relay/images_proxy.go:289-305 | exactly space, tab, line feed and carriage return may stand between key and object |
| `UsageLimits.TextStep` | internal/relay/images_proxy.go:252-284 | a quote opens or closes a text unless an odd number of backslashes escapes it; braces count outside of texts |
| `UsageLimits.OddBackslashesMeans` | internal/relay/images_proxy.go:252-284 | the number of backslashes at the end decides |
| `UsageScanner.KeyWithoutObject` | internal/relay/images_proxy.go:289-305 | a key, blanks and any byte but a brace bring the scanner back to its start, that byte dropped |
| `UsageScanner.ScannerIsReference` | internal/relay/images_proxy.go:236-325 | for every stream the captured object is the one the reference picks: from the first key on, the shortest balanced object, else on behind the byte that was none |
| `UsageScanner.CapturedIsReference` | internal/relay/images_proxy.go:236-325 | the same for every splitting of the stream into chunks |
| `UsageScanner.SecondKeyIsMissed` | internal/relay/images_proxy.go:289-305 | `"usage":"usage":{}` captures nothing |
| `Heartbeat.StepKeepsInvariant` | internal/relay/heartbeat.go:34-183 | mutex ownership, hand-over progress and header order survive every atomic step, the handler's unlocked JSON answer included |
| `Heartbeat.Reachable` | internal/relay/heartbeat.go:34-183 | they hold in every interleaving, JSON answers before any hand-over included |
| `Heartbeat.HeadersOnceAndFirst` | internal/relay/heartbeat.go:105-124 | in every interleaving the SSE header is written at most once, and heartbeats and error events only after it; a JSON answer may still stand before it, which the next rows settle |
| `Heartbeat.JsonAloneExactlyWhen` | internal/relay/heartbeat.go:169-183 | an error answer is not mixed with goroutine output in any continuation if and only if the header is already out or the goroutine has left its loop |
| `Heartbeat.HeaderJoinsEarlyAnswer` | internal/relay/relay_handler.go:147-147 | an early failure answers JSON and the delay then ends before the deferred Stop: the header follows the JSON body |
| `Heartbeat.HandOverKeepsJsonAlone` | internal/relay/heartbeat.go:126-152 | when every error answer saw the header out or came after a Hand or Stop, no goroutine output ever joins a JSON answer |
| `Heartbeat.SilentAfterReturn` | internal/relay/heartbeat.go:126-152 | after a Hand or Stop returned only the handler adds output |
| `Heartbeat.StepsDrop` | internal/relay/heartbeat.go:52-101 | while a call waits every goroutine step brings it closer to its end |
| `Heartbeat.WaitEnds` | internal/relay/heartbeat.go:126-152 | in every interleaving eight goroutine steps and one of the handler end a wait, whatever the selects pick and the writes do |
| `Heartbeat.CallReturns` | internal/relay/heartbeat.go:126-152 | from call to return: three handler steps, then eight goroutine steps, then one handler step, with anything in between |
| `Heartbeat.MutexIsGivenBack` | internal/relay/heartbeat.go:105-124 | a mutex held by the goroutine is free after at most four of its steps, so an error event is never blocked for good |
| `HeartbeatProgress.LeftAloneItBeats` | internal/relay/heartbeat.go:52-101 | left alone the goroutine writes the header once and then a heartbeat for every tick, for any number of ticks |
| `HeartbeatProgress.FailedWriteEnds` | internal/relay/heartbeat.go:72-98 | a failed write gives the mutex back and ends the goroutine |
| `HeartbeatProgress.ErrorIsAnswered` | internal/relay/heartbeat.go:161-183 | an error is answered once, as an event under the mutex when the header is out, else as JSON |
| `HeartbeatProgress.CallsTell` | internal/relay/heartbeat.go:126-152 | Hand and Stop set their flags, cancel and wait; a second Hand returns at once, a later Stop waits |
| `HeartbeatProgress.DisabledStaysSilent` | internal/relay/heartbeat.go:34-47 | with heartbeats disabled the goroutine does nothing and Hand returns at once |
| `HeartbeatProgress.DisabledStops` | internal/relay/heartbeat.go:139-152 | with heartbeats disabled Stop returns after its wait |
| `HeartbeatProgress.DisabledAnswers` | internal/relay/heartbeat.go:177-183 | with heartbeats disabled an error is answered as JSON |
| `HeartbeatProgress.CancelledEnds` | internal/relay/heartbeat.go:57-84 | a goroutine that waits when its request is cancelled may leave and is then finished |
| `HeartbeatProgress.AnswerAfterReturn` | internal/relay/heartbeat.go:126-152 | the handler writes its own answer once a Hand or Stop has returned and not inside a call |
| `HeartbeatProgress.ToldGoroutineWritesNothing` | internal/relay/heartbeat.go:64-71 | a goroutine told before its check or while it waits for the mutex writes nothing |
| `HeaderTemplate.SplitIsFaithful` | internal/headerutil/client_header_template.go:173-190 | a split loses no text, and finds the first placeholder and its first closing brace |
| `HeaderTemplate.IndexMeans` | internal/headerutil/client_header_template.go:177-184 | the search returns the first occurrence |
| `HeaderTemplate.WalkTemplate` | internal/headerutil/client_header_template.go:173-211 | the loop ends and equals the recursive walk |
| `HeaderTemplate.ParseIsFaithful` | internal/headerutil/client_header_template.go:173-211 | the segments render back to the value, and no literal hides a placeholder |
| `HeaderTemplate.WalkIsRendering` | internal/headerutil/client_header_template.go:173-211 | the output is the literals with the replacements in between, never rescanned; an unparsable value is refused |
| `HeaderTemplate.RenderedWhen` | internal/headerutil/client_header_template.go:173-211 | rendering succeeds if and only if every placeholder is replaced |
| `HeaderTemplate.ValidationIsIdentity` | internal/headerutil/client_header_template.go:103-106 | without a resolver every accepted value comes back unchanged |
| `HeaderTemplate.RenderTemplate` | internal/headerutil/client_header_template.go:108-136 | the rendered value, or the reason it is skipped |
| `HeaderTemplate.RendersExactlyWhen` | internal/headerutil/client_header_template.go:103-136 | the walk over a value succeeds if and only if it validates and the client supplied a legal header for each placeholder |
| `HeaderTemplate.RenderedIsLegal` | internal/headerutil/client_header_template.go:108-136 | with legal values put in, the result is a legal header value if and only if the literals are |
| `HeaderTemplate.AppliedExactlyWhen` | internal/headerutil/client_header_template.go:103-136 | end to end: a template is applied if and only if it validates, its literal text is legal and each placeholder has a legal header; a value without a placeholder always is |
| `HeaderRules.PlaceholderCopies` | internal/headerutil/client_header_template.go:19-136 | a header is copied if and only if its name is one, it is no credential, cookie, hop-by-hop or forwarding header in whatever case, and the client sent it with a legal value; otherwise the first failing condition is the reason |
| `HeaderRules.TrimMeans` | internal/headerutil/client_header_template.go:73-75 | trimming takes white space from both ends and nothing else |
| `HeaderRules.LowerMeans` | internal/headerutil/client_header_template.go:78-84 | lower-casing a name changes its ASCII capitals and nothing else |
| `AttemptBudget.BudgetOverCalls` | internal/relay/attempt_budget.go:58-122 | over any calls: wires are the successes and within their limit, providers within theirs and at most the wires, numbered 1..k in order of first success |
| `AttemptBudget.CallKeepsAccounts` | internal/relay/attempt_budget.go:106-122 | one call keeps those accounts, and a refused one changes nothing |
| `AttemptBudget.FirstEntriesAreDistinct` | internal/relay/attempt_budget.go:106-122 | first entries are the distinct values, so the numbering is a bijection |
| `AttemptBudget.PreflightIsExact` | internal/relay/attempt_budget.go:88-101 | while wires remain the preflight predicts exactly which calls succeed |
| `AttemptBudget.AcceptedExactlyWhen` | internal/relay/attempt_budget.go:88-122 | after any calls the next is refused for lack of wires exactly when the successes used them up, and else succeeds exactly when its channel has succeeded before or fewer channels than allowed have |
| `AttemptBudget.KnownProviderStaysUsable` | internal/relay/attempt_budget.go:93-122 | a provider entered once keeps its number and is refused later only for lack of wires |
| `AttemptBudget.RelayAttemptBudget.constructor` | internal/relay/attempt_budget.go:58-72 | non-positive limits fall back to the defaults |
| `AttemptBudget.RelayAttemptBudget.CanUseProvider` | internal/relay/attempt_budget.go:93-101 | a known provider, or room for a new one |
| `AttemptBudget.RelayAttemptBudget.TryStartWire` | internal/relay/attempt_budget.go:106-122 | which limit refuses a call, and the new state |
| `AttemptBudget.RelayAttemptBudget.TryUnknownReplay` | internal/relay/attempt_budget.go:128-138 | one replay of unknown outcome per request |

## Left out

- Relay logs: drop warnings, subscribers, stream tokens, the recent buffer's trimming, retention cleanup, reading one log by id, and the light copies without content.
- Relay logs: the writer's select loop over ticker, signal and shutdown; each of its branches is modelled.
- Relay-log keyword modes: the guardrails that reject or warn about slow searches; the filter is taken after they ran.
- LikeFilter.FiltersAgree: it is the case where both sides lower-case the searched fields alike; AgreeExactlyWhen has the exact condition for folding character by character.
- HourlyLedger.MergeRows: costs are real numbers, so rounding of floating-point sums is not modelled.
- Leaderboard.AggregateRows: display names are not modelled, because their tie-break depends on the order in which rows arrive.
- Leaderboard.Query: the calendar window is given as its first hour, and coverage and name normalization are not modelled; a channel's key text is represented by its id.
- SiteModelHistory.LoadSeries: one series at a time; the grouping of several accounts into one answer is not modelled.
- SiteModelHistory.SeriesIsExact: deleting a site or an account also deletes its hourly rows; that is not among the steps, so the sums hold for accounts that stay.
- StatsSave.StepKeepsInvariant: one counter stands for a row's counters; two saves at once, deletions, imports and cache refresh are not modelled, and the read-add-write of one cached row is one step.
- StatsSave.StatsStore.Save: the total and hourly rows are written as one stage without contents, since they are overwritten whole by the next save; the hourly ledgers are a stage here and modelled in HourlyLedger.
- StatsSave.DailyStats.Update: the class runs one call after another, and overlapping saves are in DayRollover; calendar dates are numbers that do not go backwards.
- DayRollover.NoDayForgotten: one counter stands for a day's counters, and one regular save at a time flushes the queue.
- Backfill.Collect: a database error or a cancelled context ends the scan with an error and without a result; coverage bookkeeping and replacing the stored rows are not modelled.
- OutlierWindow.WindowStore.Report: the class runs one call after another, and interleaved reports and reaps are in OutlierSharing; the recovery from panics is not modelled.
- OutlierWindow.RingWindow.Evaluate: failure rates are exact fractions, not floating point.
- ProtocolResolver.ResolvePrimary: plan fields that are only copied (header policy beyond a map of texts, attempt kind) and the snapshot's mode and learning flags are not modelled.
- PolicyReads.ReadBackIsProjection: assumes that decoding an encoded payload gives it back, since the JSON codec and the digest are parameters.
- PolicyRevisions.PolicyStore.CommitMutation: nobody interferes, the interleaved commit being a run of steps; actor, timestamps, a missing config row and publishing the runtime snapshot are not modelled.
- UsageScanner.Scanner.Feed: decoding the captured object is not modelled; the buffer handed to the decoder is.
- Heartbeat.Reachable: timers may fire at any time, one handler thread calls Hand, Stop and the error writer, and a JSON answer is one write, so its bytes are not interleaved with the goroutine's.
- HeaderTemplate.RenderTemplate: looking up a header by name is a parameter; library checks on names and values are written out for characters.
- AttemptBudget.RelayAttemptBudget.TryStartWire: an absent budget, which accepts every call, and the trace of the stop reason are not modelled.
- Transport, handlers, proxies, migrations, SQL text, the balancer, the transformers, settings and the web interface.
