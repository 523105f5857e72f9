# A Dafny model of devtrace

devtrace scores GitHub contributors. It spends a small pool of API tokens, drains a priority queue of
contributors, folds hourly archive files into database tables and serves an API behind a rate limiter.
This project models the stateful and arithmetic core of that service and proves what it guarantees over
whole runs. `dafny verify dfyconfig.toml` checks everything.

## How the model is built

Where the Go code updates fields in place the model is a class with those fields, and its methods keep
the loops of the original; each method is proved against functions or predicates over an immutable value
of the same state, and the theorems are about runs of those. Where goroutines interleave, the model is a
step relation and the theorems hold for every sequence of steps. SQL tables are maps keyed by their
conflict columns and a transaction is one step that happens in full or not at all.

Time is a number: nanoseconds for the token pool, the minting protocol and the digest sweep, seconds for
the activity table, whole hours for the ingest and backfill cursors, any unit for the rate limiter and
the queue. Every clock read is a parameter. What the network, GitHub, the mint endpoint, the archive, the
mail service and the database answer are parameters too, as are the bot test and the order in which a Go
map is walked.

| file | what it models |
|---|---|
| `TokenPool.dfy`, `PoolClient.dfy`, `Pacing.dfy` | the token pool, the rotation of one call over it, the scorer's pause |
| `Installation.dfy` | double-checked minting by any number of callers |
| `ScoringQueue.dfy`, `BatchDrain.dfy` | the scoring queue and the concurrent drain of one batch |
| `ScoringVerdict.dfy` | from the outcome of a rotated call to what becomes of its queue entry |
| `Aggregator.dfy`, `MergeGraph.dfy` | the per-hour fold with replayed attempts, the COALESCE merge graph |
| `Activity.dfy`, `HourlyIngest.dfy` | additive upserts, weekly compaction, from raw events to lifetime totals |
| `IngestCursor.dfy`, `Backfill.dfy`, `Digests.dfy` | the forward and backward cursors, the digest sweep and its stored time |
| `RateLimiter.dfy` | the fixed-window limiter and its cleanup |
| `Score.dfy`, `RepoProfile.dfy` | the score, its categories and letter; the owned-repositories summary |
| `Clock.dfy`, `Options.dfy`, `Sets.dfy` | durations, optional values, sizes of finite sets |

## What turned out otherwise than expected

- The limiter's bound is tighter than two full windows: the request that opens a window is always outside
  any later interval of the window's length, so at most `2 * max(1, L) - 1` requests get through, and that
  is reached for every limit and window (`AnyWindowIsBounded`, `BoundIsReached`).
- A personal token is documented as permanently disabled after a 401
  (pkg/github/tokenpool.go:276-281). It comes back exactly when the last call that marks it afterwards is an
  `Exhaust` whose recorded reset has passed; one more 401 keeps it out again
  (`RevokedTokenReturnsExactlyWhen`, `ExhaustRevivesRevokedToken`).
- Capacity returns after `EarliestReset` only for tokens that have not expired meanwhile
  (`RisesExactlyWhen`, `ExpiredTokenNeverReturns`), and a pause without jitter ends at the one instant at
  which the token is still exhausted (`PauseEndsWithCapacity`).
- Growing older does not always help: on leaving day zero the burst term comes into play. The weighted sum
  falls exactly when there are recent pull requests and the age curve, with the damped share of verified
  commits, brings less than the burst costs (`AgeingHurtsExactlyWhen`); then the letter can drop
  (`FirstDayCanWorsen`). From day one on it never does.
- The entry whose call uses up the last token is settled as failed, not put back, although the pool is then
  empty: only a call that finds no token at the start reports so (`DryExactlyWhenEmptyAtStart`).
- `toFixed` is documented to truncate (pkg/score/score.go:408) but rounds to the nearest step, halves away from
  zero (`HalvesRoundAway`).
- A resumed backfill drops a remainder of exactly one hour (`ResumeYieldsSuffix`).
- A retried archive stream leaves the merge graph alone but counts every replayed prefix again in the
  summaries (`ReplayInflatesSummaries`).
- Digests are weekly by the day on which a sweep reads the weekday, once and before it sends any mail. A mail
  that leaves after midnight moves the next one closer: two mails to one tenant are whole weeks apart exactly
  when both overshot their day alike, so always while no sweep crosses midnight, and they can be six days apart
  otherwise (`MailsAreWeeksApartExactlyWhen`, `SweepStaysOnTime`, `SweepAcrossMidnight`).
- At most one entry starts after the flag for an empty pool is set, but a worker sets it only after it has met
  the error; in between the rest of the batch may start (`ConcurrencyIsBounded`, `AllMayStartUntilNoted`).
- A batch cancelled before it starts is lost, although its rows have left the queue
  (`EveryEntryAccountedFor`, `CancelledBatchIsLost`).

## Model

| member | source | states |
|---|---|---|
| TokenPools.TokenPool.Token | pkg/github/tokenpool.go:184-221 | hands out the first available entry from the cursor on, counts and releases only that one, leaves the cursor behind it; with none available returns "" and changes nothing |
| TokenPools.Next | pkg/github/tokenpool.go:193-203 | the entry handed out is the first available one from the cursor on, and there is none exactly when no entry is available |
| TokenPools.TokenPool.Exhaust | pkg/github/tokenpool.go:251-269 | marks the first entry holding the token until the given reset, or the fallback when that is missing or past; nothing else changes |
| TokenPools.TokenPool.InvalidateAuth | pkg/github/tokenpool.go:282-336 | marks the first entry holding the token until the fallback or, for a personal token, the far-future sentinel, and records the event in the bounded ring |
| TokenPools.TokenPool.ActiveCount | pkg/github/tokenpool.go:357-371 | the number of entries neither pending nor expired |
| TokenPools.TokenPool.EarliestReset | pkg/github/tokenpool.go:227-242 | the least pending reset, or none when nothing is pending |
| TokenPools.RunBalance | pkg/github/tokenpool.go:184-221 | over any run, the counts of two always available entries drift apart by exactly what the cursor's position at start and end says |
| TokenPools.RoundRobinFairness | pkg/github/tokenpool.go:184-311 | over any run of takes, exhaustions and invalidations, two entries available throughout are handed out numbers of times that differ by at most one |
| TokenPools.UnmarkedStaysAvailable | pkg/github/tokenpool.go:198-203 | an available entry that no call marks stays available while the clock does not go back |
| TokenPools.DisabledStaysUnused | pkg/github/tokenpool.go:282-311 | a disabled personal entry is never handed out before its sentinel unless `Exhaust` names it |
| TokenPools.RevokedTokenStaysOut | pkg/github/tokenpool.go:276-295 | after a 401 a personal token is handed out not once more over any run without such a call |
| TokenPools.LastMarkDecides | pkg/github/tokenpool.go:251-311 | whether any entry is available after a run depends on the last call that marked it alone: whether the time it recorded has passed |
| TokenPools.DisabledReturnsExactlyWhen | pkg/github/tokenpool.go:251-311 | a personal entry disabled for good is available again exactly when the last call to mark it is an `Exhaust` whose recorded reset has passed |
| TokenPools.RevokedTokenReturnsExactlyWhen | pkg/github/tokenpool.go:276-295 | the same after a 401 |
| TokenPools.ExhaustRevivesRevokedToken | pkg/github/tokenpool.go:251-266 | in any pool an `Exhaust` after a 401 replaces the sentinel by its own reset, and one more 401 takes the token out again |
| TokenPools.TokenGoesRound | pkg/github/tokenpool.go:193-219 | from the cursor on, around the end, the first entry not exhausted or past its reset is handed out; the cursor stops behind it, and it alone is counted and released |
| TokenPools.ExhaustedUntilReset | pkg/github/tokenpool.go:251-269 | the entry named is available exactly after the reset reported, or after fifty minutes when that is missing or past; no other entry and no count changes |
| TokenPools.InvalidatedUntil | pkg/github/tokenpool.go:282-311 | the entry named is available exactly after 2098 when personal, else after fifty minutes, and the event is on record |
| TokenPools.RingHoldsLatest | pkg/github/tokenpool.go:328-336 | after any events the ring holds the latest sixty-four, oldest first |
| TokenPools.NoRiseUntilReset | pkg/github/tokenpool.go:223-242 | the active count does not rise at any instant up to and including the earliest reset |
| TokenPools.RisesExactlyWhen | pkg/github/tokenpool.go:357-371 | while nothing expires, the count is higher exactly when the reset of some unexpired pending entry has passed |
| TokenPools.CapacityReturnsAfterReset | pkg/github/tokenpool.go:223-242 | with nothing expired, the count is higher at exactly the instants after the earliest reset |
| TokenPools.ExpiredTokenNeverReturns | pkg/github/tokenpool.go:227-242 | an exhausted token that has also expired reports a reset that brings nothing back |
| Pacing.TokenPause | pkg/background/scorer.go:60-70 | pauses exactly when active tokens are down to the reserve, always for a positive time: up to the reset when that lies ahead, else thirty seconds |
| Pacing.PauseEndsWithCapacity | pkg/background/scorer.go:199-211 | after a pause for a reset the scorer has more active tokens exactly when some jitter was added, or a reset passed between its reading the count and the reset |
| PoolClients.PoolDo | pkg/github/pool_client.go:166-210 | the loop's result, the tokens it used and the pool it leaves are those of the rotation |
| PoolClients.UpcomingInScanOrder | pkg/github/tokenpool.go:195-204 | the upcoming entries are all available ones, each once, in cursor order |
| PoolClients.RetryAwaitsRest | pkg/github/pool_client.go:180-196 | a retried attempt removes exactly its own token from those upcoming, and the active count is zero exactly when that was the last |
| PoolClients.RotationIsWalk | pkg/github/pool_client.go:166-210 | over a quiet pool the rotation is a plain walk over the tokens available at the start |
| PoolClients.UpcomingTokens | pkg/github/pool_client.go:168-175 | the tokens before a call are pairwise distinct |
| PoolClients.RotationMeaning | pkg/github/pool_client.go:34-37 | the tokens used are the first of those, at most six; success exactly when one of the first six gives a value before any gives an error that is not retried |
| PoolClients.WalkGivesUp | pkg/github/pool_client.go:166-210 | how a walk ends without a value: no token at the start, the cause of the attempt that used up the last one, or six retries |
| PoolClients.RotationRunsDry | pkg/github/pool_client.go:180-196 | a call finds no token exactly when none was available at the start; one that uses up the last token reports the cause instead and leaves none available |
| PoolClients.AttemptMarks | pkg/github/pool_client.go:180-193 | a rejection takes the token out and goes on record, a rate limit takes it out until its own reset and does not, any other outcome takes out nothing |
| PoolClients.CancelledCallStops | pkg/github/pool_client.go:169-171 | once the context is done no further attempt is made |
| PoolClients.CutBackoffStops | pkg/github/pool_client.go:199-208 | nor when it ends during the backoff after a rate limit |
| ScoringVerdicts.DryExactlyWhenEmptyAtStart | pkg/background/scorer.go:331-344 | an entry is left unsettled exactly when no token was available at the start, and scored exactly when a token gave a value in time and it was stored; the one whose call uses up the last token is settled as failed |
| Installation.StepKeepsInvariant | pkg/github/installation.go:62-99 | every step of any caller keeps the lock exclusive, the mints apart and every token handed out a minted one |
| Installation.RunKeepsMintsApart | pkg/github/installation.go:62-99 | the same over any interleaving of any number of callers |
| Installation.AtMostOneMintPerFreshnessWindow | pkg/github/installation.go:62-90 | from a fresh client on, mints never overlap, a mint starts only when every usable token minted before is within five minutes of its expiry, and a caller leaves with the outcome of its own mint or a minted token that had more than five minutes left when a check let it through |
| Installation.ChecksInMinutes | pkg/github/installation.go:62-99 | each check lets a caller through exactly when the cached token has more than five minutes left; failing the second one starts a mint |
| Installation.InstallationClient.CachedTokenIfFresh | pkg/github/installation.go:92-99 | returns the cached token exactly when it is not empty and more than five minutes from its expiry |
| Installation.InstallationClient.GhClient | pkg/github/installation.go:62-90 | a call that meets no other caller ends where the protocol's steps of one caller end: with the cached token when more than five minutes are left, else with what the mint returns |
| ScoringQueues.Enqueued | pkg/data/postgres/queue.go:36-48 | an upgrade queues the row afresh, any other request leaves it as it was, time included; no other row changes |
| ScoringQueues.ScoringQueue.EnqueueForScoring | pkg/data/postgres/queue.go:36-48 | one enqueue is the LEAST merge, with the time moving only on an upgrade |
| ScoringQueues.ScoringQueue.DequeueForScoring | pkg/data/postgres/queue.go:53-78 | removes and returns distinct rows, as many as there are up to the limit, none later than a row left behind |
| ScoringQueues.ClaimsInPlainTerms | pkg/data/postgres/queue.go:50-63 | a claimed entry has the row's own priority and time, and no row left behind has a lower priority number, or the same and an earlier time |
| ScoringQueues.ScoringQueue.RequeueUnscored | pkg/background/scorer.go:382-398 | unsettled entries whose enqueue works are queued at least as urgently as before, nobody loses urgency and nothing else is added |
| ScoringQueues.EnqueueAddsNoneInFront | pkg/data/postgres/queue.go:33-42 | an enqueue that is less urgent, or as urgent and later, neither changes an entry nor gets in front of it |
| ScoringQueues.DequeueMovesUp | pkg/data/postgres/queue.go:50-63 | an entry that is not claimed has exactly `limit` fewer entries in front of it |
| ScoringQueues.BoundedWaiting | pkg/data/postgres/queue.go:36-78 | an entry with r others in front is claimed within r / limit + 1 dequeues while nothing more urgent arrives |
| BatchDrain.StepKeepsInvariant | pkg/background/scorer.go:300-360 | every step of dispatcher, workers and other producers keeps the drain's invariant and every queued contributor at least as urgent |
| BatchDrain.ConcurrencyIsBounded | pkg/background/scorer.go:297-324 | at every moment at most `slots` workers run and at most one was started after the flag for "no tokens" was set |
| BatchDrain.AllMayStartUntilNoted | pkg/background/scorer.go:331-333 | between the first "no tokens" and the setting of the flag every other entry of the batch may start, given the slots |
| BatchDrain.EveryEntryAccountedFor | pkg/background/scorer.go:280-398 | each entry of a finished batch is exactly one of scored, skipped, failed, back on the queue at least as urgent, or lost; lost exactly when unsettled and not requeued for want of a dry pool or of a working enqueue; none without cancellation and failing enqueues |
| BatchDrain.NoContributorIsLost | pkg/background/scorer.go:356-360 | over dequeue and drain everyone queued before is still queued at least as urgently or settled |
| BatchDrain.RequeueKeepsPriority | pkg/background/scorer.go:382-398 | a contributor whom nobody else queues comes back under exactly the priority it was dequeued with, or not at all |
| BatchDrain.RunInventsNothing | pkg/background/scorer.go:382-398 | nobody is ever queued under a priority that was not theirs before, in the batch, or asked for by another producer |
| BatchDrain.NoneStartsAfterCancel | pkg/background/scorer.go:305-324 | once the context is cancelled no further entry is started |
| BatchDrain.CancelledBatchIsLost | pkg/background/scorer.go:305-307 | a batch cancelled before its first iteration ends with its entry neither settled nor queued |
| Aggregators.FirstOf | pkg/ingest/aggregator.go:69-78 | the first event of a stream that observes a pull request action, if any |
| Aggregators.Aggregator.Add | pkg/ingest/aggregator.go:102-175 | after each event the maps hold exactly the first observations and the per-human tallies of all events so far |
| Aggregators.Aggregator.Observe | pkg/ingest/aggregator.go:110-130 | keeps the first observation of a key, with an author only for a human opener |
| Aggregators.Aggregator.Summarise | pkg/ingest/aggregator.go:136-174 | credits the event's one counter and its repository to its actor |
| Aggregators.Aggregator.Bump | pkg/ingest/aggregator.go:146-174 | adds exactly what the event's type and action are worth |
| Aggregators.Aggregator.PREvents | pkg/ingest/aggregator.go:196-202 | lists every observation once, in an order of the map's choosing |
| Aggregators.TallyCountsEvents | pkg/ingest/aggregator.go:146-174 | each of the seven counters is the number of events of that contributor, kind and action |
| Aggregators.ReplayKeepsObservations | pkg/ingest/archive.go:93-118 | any number of replayed prefixes changes no first observation |
| Aggregators.ReplayInflatesSummaries | pkg/ingest/archive.go:93-118 | each replayed prefix is counted on top in the summaries, in full |
| MergeGraphs.MergeGraph.BatchUpsertPREvents | pkg/data/postgres/pr_events.go:61-108 | a batch that commits stamps every event in turn and returns how many rows it wrote; one that fails changes nothing, and an empty one cannot fail |
| MergeGraphs.MergeGraph.GetAuthoredMergedPRCount | pkg/data/postgres/pr_events.go:118-131 | the number of rows with that author and a merge time |
| MergeGraphs.StampOneMore | pkg/data/postgres/pr_events.go:40-49 | one more observation extends the row-by-row effect of an hour by itself |
| MergeGraphs.AnyOrderStampsTheHour | pkg/data/postgres/pr_events.go:51-55 | whatever the order, the table after an hour is the one told row by row from its observations |
| MergeGraphs.GraphIsDetermined | pkg/ingest/runner.go:262-277 | histories of the same event streams leave the same table, however often replayed and in whatever order written |
| MergeGraphs.RowTellsHistory | pkg/data/postgres/pr_events.go:40-49 | a row's author is the one named by the last ingested hour with a human opener, and it is merged exactly when some hour's first merge has a readable time |
| MergeGraphs.AuthoredMergedMeaning | pkg/data/postgres/pr_events.go:110-131 | the pull requests counted for a contributor are exactly those, in terms of the raw event streams |
| MergeGraphs.ColumnsTellHistory | pkg/data/postgres/pr_events.go:40-91 | each time column holds what the last ingested hour with a readable first event of its action gives |
| MergeGraphs.RowIsThereExactlyWhen | pkg/ingest/aggregator.go:102-130 | there is a row for exactly the pull requests that some event opens, merges or closes, bots' events included |
| Activity.WeekStartsMonday | pkg/data/postgres/activity.go:388-397 | a week bucket is the multiple of seven days at or before the time, less than seven days before it |
| Activity.ActivityTable.BatchUpsertActivity | pkg/data/postgres/activity.go:123-166 | a batch that commits adds every summary in turn; one that fails changes nothing and reports no rows |
| Activity.ActivityTable.CompactActivity | pkg/data/postgres/activity.go:371-428 | grouping, inserting and deleting gives the compacted table and deletes exactly the old rows; a transaction that fails at any call changes nothing |
| Activity.ActivityTable.GetLifetimeActivity | pkg/data/postgres/activity.go:289-330 | nothing exactly when the contributor has no row, else the sums over all of them, the number of days they fall on and the first and last hour |
| Activity.UpsertInPlainTerms | pkg/data/postgres/activity.go:123-136 | an upsert adds each counter to the stored one, replaces the repositories and leaves every other row alone |
| Activity.UpsertAddsToTotal | pkg/data/postgres/activity.go:127-136 | an upsert adds its counters to every total that covers its week and to no other |
| Activity.MoveThenCompact | pkg/data/postgres/activity.go:380-416 | moving one old row into its week first makes no difference to a compaction |
| Activity.CompactionKeepsTotals | pkg/data/postgres/activity.go:368-428 | compaction changes none of the seven counters summed over any choice of contributors, providers and weeks |
| Activity.CompactionKeepsWeeks | pkg/data/postgres/activity.go:368-428 | for every contributor, provider and Monday the counters summed over the rows of the seven days from then on are unchanged |
| Activity.WeekAfterCompaction | pkg/data/postgres/activity.go:380-416 | the row of a week holds its own counters and those of the older rows of that week, and no repositories; without such rows it is as before |
| Activity.CompactionLeavesRecent | pkg/data/postgres/activity.go:394-396 | off the week boundaries, rows from the cutoff on are left alone and none appear |
| Activity.CompactionsCompose | pkg/data/postgres/activity.go:371-428 | compacting at one cutoff and then a later one equals compacting at the later one, and leaves no older row off a multiple of seven days |
| Activity.RunConservesTotals | pkg/data/postgres/activity.go:119-122 | over any interleaving of batches and compactions totals are those at the start plus all that was ingested |
| Activity.LifetimeTotalsAreConserved | pkg/data/postgres/activity.go:287-303 | from an empty table on, lifetime totals are the sum of everything ingested |
| HourlyIngest.BuildBatch | pkg/ingest/runner.go:233-255 | an hour hands over each contributor's summary once, with the counters and the repositories of the aggregator |
| HourlyIngest.HourBringsTally | pkg/ingest/runner.go:217-260 | the batch of an hour brings a human contributor the tally of their events and a bot nothing |
| HourlyIngest.LifetimeIsWhatEventsAddUpTo | pkg/ingest/runner.go:217-260 | over any history of hours and compactions lifetime totals are what the raw events add up to |
| HourlyIngest.LifetimeCountsEvents | pkg/ingest/runner.go:217-260 | each lifetime counter of a human is the number of all delivered events of theirs with that kind and action |
| IngestCursor.Runner.ComputeHours | pkg/ingest/runner.go:192-215 | exactly the hours published since the cursor, oldest first and up to the catch-up cap, or without one the last few that are published |
| IngestCursor.Runner.ProcessHours | pkg/ingest/runner.go:111-126 | attempts the hours in order until all are done, one is unpublished or the context ends; the cursor is the last stored hour |
| IngestCursor.Runner.Run | pkg/ingest/runner.go:83-138 | a run attempts a prefix of the due hours and keeps the history's guarantee |
| IngestCursor.RunTracksHistory | pkg/ingest/runner.go:87-126 | stored hours strictly increase, the cursor is the last, and between first and last an hour is missing exactly when a run broke on it and later stored another |
| Backfill.BackfillHours | pkg/ingest/backfill.go:169-190 | every hour from the newest to do down to the horizon once, none when fewer than two are left |
| Backfill.Backfiller.Run | pkg/ingest/backfill.go:74-139 | a run completes batches in order until the due hours are done, the context ends or a batch fails; over all runs no hour of a completed batch is done twice, and an hour is handed out twice only if a batch with it failed |
| Backfill.Backfiller.ProcessBatches | pkg/ingest/backfill.go:99-158 | the loop over the batches does so for any hours that go down from below the cursor |
| Backfill.ResumeYieldsSuffix | pkg/ingest/backfill.go:169-190 | resuming yields exactly the unprocessed suffix, except that a single hour left over is dropped |
| Digests.SyncState.SaveSyncState | pkg/data/postgres/sync.go:48-57 | reading back gives the time cut to whole seconds; other keys are untouched |
| Digests.SyncState.GetSyncState | pkg/data/postgres/sync.go:29-45 | returns what is stored under the key |
| Digests.WeekdaysGoRound | pkg/ingest/runner.go:544 | the days of the week follow one another from the Thursday of the epoch |
| Digests.Fnv32aIsStandard | pkg/ingest/runner.go:535-539 | the hash has the published values of FNV-1a, and the day is its remainder by seven |
| Digests.NoSweepWithinADay | pkg/ingest/runner.go:451-457 | within a day of the recorded sweep nothing is sent and nothing recorded |
| Digests.SweepReaches | pkg/ingest/runner.go:466-482 | a due sweep sends to exactly the wanted targets whose day it is and whose mail goes out, and is recorded |
| Digests.SweepSendsNothing | pkg/ingest/runner.go:459-473 | without a mail key a due sweep is recorded all the same, with unreadable targets it is not |
| Digests.Sweeper.MaybeSendDigests | pkg/ingest/runner.go:450-482 | says which digests a sweep sends and when it is recorded; the days taken for two digests to one tenant stay a positive number of whole weeks apart, and each mail leaves on its day or later but before the day of the next |
| Digests.SweepRecorded | pkg/ingest/runner.go:541-571 | the digests of one more sweep, a day after the recorded one, keep that spacing |
| Digests.MailsAreWeeksApartExactlyWhen | pkg/ingest/runner.go:541-571 | the days on which two mails to one tenant leave increase, and are whole weeks apart exactly when both overshot their day alike, modulo a week |
| Digests.OnTimeExactlyWhen | pkg/ingest/runner.go:541-571 | every mail of a sweep is sure to leave on its day exactly when the sweep ends on the day on which it read the weekday |
| Digests.SweepStaysOnTime | pkg/ingest/runner.go:541-571 | while no sweep crosses midnight every mail leaves on its day |
| Digests.SweepAcrossMidnight | pkg/ingest/runner.go:541-571 | for every tenant two sweeps, the first across midnight, whose mails leave six days apart |
| Digests.SecondKeepsDay | pkg/data/postgres/sync.go:48-52 | cutting the recorded time to seconds does not move it to another day |
| RateLimiters.IpRateLimiter.Allow | pkg/server/ratelimit.go:82-98 | answers and counts by the visitor's window and the limiter's own limit |
| RateLimiters.IpRateLimiter.AllowWithLimit | pkg/server/ratelimit.go:102-118 | the same with the caller's limit |
| RateLimiters.IpRateLimiter.Cleanup | pkg/server/ratelimit.go:58-76 | removes exactly the visitors whose window has passed |
| RateLimiters.SweepsAreInvisible | pkg/server/ratelimit.go:58-118 | wherever cleanup runs, every request gets the same answer |
| RateLimiters.AnyWindowIsBounded | pkg/server/ratelimit.go:82-118 | no interval up to the window's length admits more than 2 * max(1, L) - 1 requests of a key |
| RateLimiters.BoundIsReached | pkg/server/ratelimit.go:82-118 | for every limit and window a run that reaches that bound |
| Scores.RawIsUnit | pkg/score/score.go:124-187 | the weighted sum of well-formed signals lies in [0, 1], so the clamp never fires |
| Scores.ComputeIsUnit | pkg/score/score.go:121-190 | so does the rounded score, within half a hundredth of the sum |
| Scores.ComputeMatchesCategories | pkg/score/score.go:192-263 | the score and the sum of its categories differ by at most the rounding of each |
| Scores.AssociationIsWorth | pkg/score/score.go:349-372 | an owner's or member's association is worth 0.05 more than none, a collaborator's 0.04, a contributor's 0.025, a first-time contributor's 0.01; trust makes it 0.04 at least; without a repository nothing |
| Scores.ProfileIsWorth | pkg/score/score.go:325-346 | each profile flag is worth 0.01, and like all points 1 / 0.6 times that without a repository |
| Scores.VerificationIsWorth | pkg/score/score.go:139-144 | verified commits are worth 0.15 by their share and the maturity of the account |
| Scores.AgeIsWorth | pkg/score/score.go:139-147 | age is worth up to 0.15 at two years, logarithmically, matures verified commits and brings the burst into play |
| Scores.BehaviorIsWorth | pkg/score/score.go:266-282 | consistency is worth 0.06, ten reviews 0.04 and eight repositories 0.04 |
| Scores.BurstCosts | pkg/score/score.go:284-291 | a burst of recent pull requests costs up to 0.03 |
| Scores.ReposAreWorth | pkg/score/score.go:178-181 | thirty public repositories are worth 0.10 and five that are no forks 0.03 |
| Scores.MergesAreWorth | pkg/score/score.go:162-167 | merged pull requests are worth up to 0.05, by their share and with twenty in all |
| Scores.FollowersAreWorth | pkg/score/score.go:169-176 | followers are worth up to 0.05, at ten for each one followed or when nobody is followed |
| Scores.EngagementIsWorth | pkg/score/score.go:304-323 | commits to a repository are worth up to 0.15 and a recent last one up to 0.05 |
| Scores.UnknownIsWorth | pkg/score/score.go:124-190 | an account of which nothing is known has 0.05 points, or 0.08 in a repository |
| Scores.PerfectScore | pkg/score/score.go:61-66 | with every signal at its best each category reaches its weight and the score is one, with and without a repository |
| Scores.SuspendedScoresNothing | pkg/score/score.go:125-127 | a suspended account scores nothing in all |
| Scores.GradeFollowsThresholds | pkg/score/grade.go:20-49 | the letter is as many steps up as the score reaches of twelve thresholds |
| Scores.HalvesRoundAway | pkg/score/score.go:409-412 | rounding goes to the nearest step and away from zero half-way |
| Scores.AcceptedMonotone | pkg/score/score.go:162-167 | the merge-rate term does not fall when merged pull requests grow |
| Scores.SteadinessMonotone | pkg/score/score.go:284-291 | the burst term does not fall with age exactly when the account does not leave day zero with recent pull requests |
| Scores.RawMonotone | pkg/score/score.go:124-187 | the weighted sum does not fall when any helpful signal grows |
| Scores.GradeNeverWorsens | pkg/score/grade.go:20-49 | neither the score nor its letter gets worse when helpful signals grow, from day one on |
| Scores.AgeingHurtsExactlyWhen | pkg/score/score.go:284-291 | growing older lowers the weighted sum exactly on leaving day zero with recent pull requests whose burst costs more than age brings; only then can the letter get worse |
| Scores.FirstDayCanWorsen | pkg/score/score.go:284-291 | an account whose letter drops from day zero to day one |
| RepoProfile.AggregateRepos | pkg/profile/repos.go:42-63 | none without owned repositories, else their number, their stars and the heads of the two rankings |
| RepoProfile.TopByStars | pkg/profile/repos.go:65-96 | the first five of all starred repositories ranked by stars, then name |
| RepoProfile.LanguageBuckets | pkg/profile/repos.go:98-131 | the first five of the buckets of all languages ranked by use, then name |
| RepoProfile.SortByRank | pkg/profile/repos.go:72-79 | a sorted permutation, strictly sorted when no two ranks are equal |
| RepoProfile.SortedIsUnique | pkg/profile/repos.go:72-79 | a strict ranking of a set of elements is unique |
| RepoProfile.OrderDoesNotMatter | pkg/profile/repos.go:38-63 | with distinct names the summary is the same for every permutation of the input |
| RepoProfile.TopIsTheBest | pkg/profile/repos.go:65-96 | with distinct names the top list is exactly the best five starred repositories |
| RepoProfile.LessIsFirstDifference | pkg/profile/repos.go:72-79 | names are compared by their first difference, or else by length |
| RepoProfile.SummaryCounts | pkg/profile/repos.go:42-63 | the totals are those of the repositories neither forked nor archived, and up to five of those with a star are shown |
| RepoProfile.LanguagesAreTheMostUsed | pkg/profile/repos.go:98-131 | the languages shown are the most used ones with their numbers and shares, five or all there are |
| RepoProfile.SharesAreAtMostOne | pkg/profile/repos.go:112-130 | the shares shown add up to at most one |

## Left out

- HTTP, JSON and gzip decoding, mail, OAuth, sessions, templates and handlers: their results are parameters.
- Row locking: `SKIP LOCKED` can make a dequeue return fewer rows while another holds them.
- Integer widths: counters, stars and durations are unbounded; Postgres `INTEGER` overflow and the saturation of Go durations at 292 years are not modelled.
- Floating point: scores and shares are exact reals, so the categories agree with the score up to rounding to decimals only.
- `Replace`, `NewTokenPool`'s comma splitting, `RecentInvalidations`, the quota samples and the client cache of the pool: easy members. A run of the pool is a run between two replacements.
- The refresh channel: `Token` reports that it would signal; whether the channel has room is not modelled.
- Other users of the pool during `PoolDo`: the rotation theorem is about a call that has the pool to itself.
- `rescoreStale`, the quota gate and the main loop of the scorer: they lose nothing that is not read again.
- Other consumers of the queue during a drain: they may claim what has been put back.
- `last_event_at` and the pruning of old rows: totals and counts are those of rows not yet pruned.
- The 90-day signals: compaction can move rows across the edge of their window.
- Cursor and digest-state reads and writes that fail: the cursors and the sweep are modelled with a store that works.
- Overlap of the backfill with the hourly ingest: both may store the same hour, and its counts then add up twice.
- An empty minted token: it is never fresh, so the mint after it may start at once; the guarantee is about usable tokens.
- Rendering of the digest and the marking of events as sent: only which tenants get one, and on which day.
- Backfill.Backfiller.Run: says which hours are handed to a batch, not which of them it stores: single hours that fail are skipped, and a batch that fails part-way may have stored some.
- IngestCursor.Runner.Run: does not include compaction, digests and pruning, which follow the loop and do not touch the cursor.
- Digests.DigestDay: does not state how evenly the days are spread, which the original does not promise exactly.
