# zimservice in Dafny

A model of the parts of zimservice whose guarantees range over whole runs, with proofs
of those guarantees. Clocks, the database server, the embedding provider, the scheduler,
crashes and completion orders are parameters or freely chosen steps. Each SQL statement
is one atomic step.

| module | what it models |
|---|---|
| `Invalidation` | cross-process cache invalidation over a lossy LISTEN/NOTIFY session, with its supervisor |
| `Utf8`, `Chunker` | the overlapping text chunker on UTF-8 bytes |
| `Downloads` | the download lifecycle as guarded statements on one table |
| `RateLimit` | the token bucket, its live resize and the generation-gated handle |
| `EmbedClient`, `EmbedPipeline` | one embedding call, one claim, one bulk write |
| `EmbedRuns`, `EmbedRation`, `EmbedLoop` | whole runs of the pipeline against the indexer: which vector a row gets, how often it is sent, that the loop ends |
| `BuildGate` | the compare-and-swap gate and the in-flight flag around index builds |
| `Lockout` | the bounded failure map behind login lockout |
| `LineReader` | the capped line reader of the stdio server |
| `Migrations` | the migration runner under crashes and concurrent starts |
| `Numbers`, `Seqs`, `Wrappers` | shared definitions |

Loops and objects that change state are methods and classes proved against functions;
what several processes or tasks do together is a step relation, and its theorems are
about every run.

Where the code's comments promise more than the code does, the model follows the code,
shows the failing case and states the exact condition:

- A chunk window need not advance by half its size; five windows together do the work
  (`FiveWindowsAdvance`, `HalfAdvanceExactly`, `DocumentedBoundsFail`).
- The token bucket charges more than the net elapsed time exactly when the clock steps back
  (`ChargedIsElapsedExactly`), and charges an instant twice exactly when the clock passes it
  twice (`ChargedTwiceExactly`). Resizing grants no second burst exactly when no request
  still holds a replaced limiter (`WithinBudgetExactlyWhenCurrent`). The wait is computed in
  microseconds but named milliseconds (`MicrosecondsSufficeExactly`).
- A worker's death reported in time can go unnoticed when the drop comes before the
  verdict (`DiesExactlyWhenJudgedInTime`).
- A complete download can become seeding, which the documented table omits
  (`OffTableExactly`).
- A complete download shows full progress only until a late refresh, which nothing guards,
  writes another value (`CompletionIsRecorded`, `LateRefreshLowersProgress`).
- A cancel can be answered "not cancellable" with a live status exactly when the row is in
  error or absent (`LiveAnswerExactly`).
- A super-batch is a number of sequential claims exactly when rows come back in id order
  and the limit makes whole batches or takes the last claimable row (`FifoExactly`).
- A reply over several chunks is aligned exactly when every chunk returned one vector per
  text (`AlignedExactlyWhenCountsMatch`).
- A stored vector is for the article's present text exactly when the re-indexes since the
  claim left it that text (`VectorIsCurrentExactly`).
- Only one build runs at a time exactly when builds are shorter than the back-off and the
  clock neither steps back nor shows zero (`ExactExactlyWhenShort`); the back-off alone
  needs only the latter (`SpacedExactlyWhenPositive`).
- The lockout map can come to answer wrongly exactly when it evicts an address during a
  live window (`FirstLossExactly`, `RightExactlyWhenNeverLost`), which it does only when it
  is full of live windows (`LostOnlyToACrowd`, `ACrowdUnlocks`).

## Model

| member | source | states |
|---|---|---|
| `Invalidation.StepKeepsInv` | src/db/notify.rs:493-585 | every step of writers, session, listen loop, subscribers and supervisor keeps the joint invariant: a channel's cache holds (or is about to install) the latest committed version, or something is still pending for it |
| `Invalidation.LinkStep` | src/db/notify.rs:595-621 | LISTEN precedes the resync bump, so a listening session is up and an unconnected listener holds no session |
| `Invalidation.BumpStep` | src/db/notify.rs:493-585 | a channel's bumps are exactly the resyncs plus the notifications delivered for it |
| `Invalidation.ChannelStep` | src/db/notify.rs:334-339 | coalescing never loses an update: seen never passes the bump, the cache never passes the database, and a stale cache always has a pending cause |
| `Invalidation.SupervisionStep` | src/db/notify.rs:444-488 | every worker that ended before the stop flag is unreported, reported, being judged, or has raised the die flag; the flag needs such a worker |
| `Invalidation.RunsKeepInv` | src/db/notify.rs:493-585 | the joint invariant holds after every run of every interleaving, with losses and failures anywhere |
| `Invalidation.RestingSupervisorHasNoticed` | src/db/notify.rs:466-488 | with no internal step left and no stop, the die flag is up exactly when some worker ended |
| `Invalidation.RestingListenerReceives` | src/db/notify.rs:493-585 | a listener at rest is connected, LISTENing, past its resync and has an empty queue |
| `Invalidation.QuiescentIsFreshOrFailing` | src/db/notify.rs:334-339 | a process at rest is fresh on both channels, except a channel whose NOTIFY or last reload failed, or has been declared dead |
| `Invalidation.InternalStepsUseUpWork` | src/db/notify.rs:493-585 | every internal step reduces a work measure, so the process comes to rest |
| `Invalidation.Converges` | src/db/notify.rs:493-585 | left alone from any reachable state, the process rests within that many steps, fresh or declared dead |
| `Invalidation.ExcusesNeedFailures` | src/db/notify.rs:334-339 | a channel is excused only after a failed NOTIFY or a failed reload |
| `Invalidation.CachesNeverGoBack` | src/db/notify.rs:334-339 | cached and committed versions only grow along every run |
| `Invalidation.ReloadInstallsWhatItRead` | src/db/notify.rs:334-339 | in every run and under every order, a reload that ends well leaves the cache with the version committed when it read, whatever happened in between |
| `Invalidation.OnlyInstallsChangeTheCache` | src/db/notify.rs:334-339 | nothing else changes a cache |
| `Invalidation.CommitsAreCounted` | src/db/notify.rs:334-339 | over every run the committed version counts the commits, and what is owed the writes not yet followed up |
| `Invalidation.BumpsFromStart` | src/db/notify.rs:493-585 | from the start a channel is bumped once per connection that got that far and once per notification delivered to it, and for nothing else |
| `Invalidation.NotificationsAreConserved` | src/db/notify.rs:493-585 | over every run each notification a session took was delivered, is still queued, or was lost with a session |
| `Invalidation.ReceiveFailureConnectsAnew` | src/db/notify.rs:557-585 | after a failed receive the listener delivers, bumps and resumes nothing before it has connected and LISTENed anew |
| `Invalidation.OneReloadServesAll` | src/db/notify.rs:334-339 | a burst collapses: one reload serves every bump up to its borrow, and the subscriber does not wake again before the next one |
| `Invalidation.CleanDropNeverTrips` | src/db/notify.rs:304-313 | if no worker ends before the handle is dropped, the die flag stays down for the whole run |
| `Invalidation.DiesExactlyWhenJudgedInTime` | src/db/notify.rs:466-488 | the die flag is raised over a run if and only if the supervisor judges some report before the handle is dropped |
| `Invalidation.ReceivedInTimeYetUnnoticed` | src/db/notify.rs:466-488 | receiving the report in time is not enough: a drop between the receipt and the verdict leaves an early death unnoticed |
| `Invalidation.StopFlagMustComeFirst` | src/db/notify.rs:304-313 | with aborts before the stop flag a clean drop can raise the die flag |
| `Invalidation.ListenMustComeFirst` | src/db/notify.rs:595-621 | with the bump before LISTEN a process can rest stale |
| `Invalidation.MarkMustComeFirst` | src/db/notify.rs:334-339 | with the bump marked seen after the reload a process can rest stale |
| `Invalidation.OrdersAreExactlyWhatIsNeeded` | src/db/notify.rs:304-339 | the guarantee holds in all reachable states if and only if all three pairs run in the order of the code |
| `Utf8.EncodedIsSpaced` | src/content.rs:303-338 | in encoded text no four continuation bytes follow each other (section 3 of RFC 3629) |
| `Utf8.RoundingIsShort` | src/content.rs:303-338 | rounding an offset to a character boundary moves it by at most three bytes |
| `Utf8.BoundariesAreOffsets` | src/content.rs:303-338 | the boundaries of encoded text are exactly the offsets of its characters |
| `Utf8.DecodeEncode` | src/content.rs:303-338 | encoding loses nothing: decoding gives the code points back (section 3 of RFC 3629) |
| `Utf8.SliceIsBytes` | src/content.rs:320-320 | a slice between boundaries is the text encoded by exactly those bytes |
| `Chunker.WindowEndsAtTheLastBreak` | src/content.rs:307-318 | a window ends at the text's end, else after the last newline in budget, else after the last space, else at the first boundary past the budget |
| `Chunker.NextWindowStepsBackTheOverlap` | src/content.rs:333-337 | the next window starts at the last boundary at least the overlap before the end, or at the end itself if that would stall |
| `Chunker.ChunkText` | src/content.rs:294-341 | the loop terminates for every text and parameters and yields one numbered chunk per window that is not blank, each trimmed to its ink: no whitespace at either end, and nothing but whitespace cut off |
| `Chunker.ChunksAreTrimmed` | src/content.rs:320-328 | every chunk's text begins and ends with a non-whitespace character, and the rest of its byte range is whitespace |
| `Chunker.TrimIsTight` | src/content.rs:320-320 | trimming cuts whitespace only, and all of it, at both ends |
| `Chunker.ClampIsNearest` | src/content.rs:281-287 | the clamped size is the allowed one nearest to the request, and the clamped overlap the largest one that is asked for and at most half the size |
| `Chunker.EndIsBoundary` | src/content.rs:307-318 | a window end is a character boundary at most size + 3 bytes on |
| `Chunker.WindowsTileTheText` | src/content.rs:303-338 | windows start at 0, leave no gap, advance, span at most size + 3 bytes, have boundary ends, and exactly the last one ends the text |
| `Chunker.BlankIffWhite` | src/content.rs:321-328 | the windows dropped are exactly those that are whitespace throughout |
| `Chunker.ChunkOfWindow` | src/content.rs:321-328 | each window with something visible in it is a chunk, with its bounds and its position as index |
| `Chunker.WindowOfChunk` | src/content.rs:321-328 | each chunk is such a window |
| `Chunker.NoInkIsLost` | src/content.rs:303-338 | every non-whitespace character of the text is inside the trimmed text of some chunk whose byte range contains it |
| `Chunker.EndsNeverGoBack` | src/content.rs:303-338 | window ends never decrease, and grow when the next window starts at the end |
| `Chunker.NoThirdWindowSharesAnEnd` | src/content.rs:303-338 | no three consecutive windows share an end |
| `Chunker.RunEndsGrow` | src/content.rs:303-338 | both facts along the windows of a run |
| `Chunker.DelayDrops` | src/content.rs:303-338 | a five-valued measure of what still stands between a window and a given end drops with every window short of it |
| `Chunker.FiveWindowsAdvance` | src/content.rs:303-338 | any five consecutive windows advance the start by at least size - overlap - 3 bytes |
| `Chunker.WindowCountIsLinear` | src/content.rs:281-287 | with clamped parameters the number of windows is at most 25 len / size + 5 |
| `Chunker.ChunkCountIsLinear` | src/content.rs:281-341 | so is the number of chunks, for every text and every requested size and overlap |
| `Chunker.HalfAdvanceExactly` | src/content.rs:277-280 | for every text, a window advances by size / 2, as documented, if and only if the overlap can be stepped back from its cut to a character boundary that far in, or not at all and the cut is that far in |
| `Chunker.HalfAdvanceInPlainText` | src/content.rs:277-280 | in single-byte text that is: no break in the budget, or the last one late enough |
| `Chunker.WideTextFallsShort` | src/content.rs:277-280 | in two-byte text without any break a window of 10 with overlap 5 advances by 4 |
| `Chunker.DenseBreaksTheBound` | src/content.rs:277-280 | a 17-byte text gives six chunks at size 10, more than the documented 2 len / size (+2) |
| `Chunker.HalfAdvancesBoundTheCount` | src/content.rs:277-280 | if every window but the last meets that condition, the windows but one times size / 2 are at most the length |
| `Chunker.DocumentedBoundsFail` | src/content.rs:277-280 | texts on which the documented count and the documented advance fail exist |
| `Downloads.StepIsEdge` | src/db/downloads_lifecycle.rs:100-109 | every statement moves a row along the documented table, from complete to seeding, or not at all |
| `Downloads.OffTableExactly` | src/db/downloads_lifecycle.rs:443-463 | a step leaves the documented table exactly when a complete row is marked seeding |
| `Downloads.RealisedEdgesExactly` | src/db/downloads_lifecycle.rs:100-109 | between distinct statuses the moves some statement makes are exactly the documented ones and complete to seeding |
| `Downloads.HistoryIsAWalk` | src/db/downloads_lifecycle.rs:198-319 | for every interleaving of all statements a row's status history is such a walk |
| `Downloads.RowsStay` | src/db/downloads_lifecycle.rs:198-319 | a row is never removed, renamed or given another URL |
| `Downloads.EndsAreClosed` | src/db/downloads_lifecycle.rs:434-520 | cancelled is absorbing; complete and seeding together are closed |
| `Downloads.OnlyEntriesCanBeRefused` | migrations/011_downloads_active_name_unique.sql:17-19 | only inserts, adoptions and re-queues can violate the active-row indexes |
| `Downloads.RequeueRefusedExactly` | src/db/downloads_lifecycle.rs:277-294 | a re-queue is refused exactly when it would make two live rows share a URL or name |
| `Downloads.InsertRefusedExactly` | src/db/downloads.rs:315-359 | an insert is refused exactly when a live row has its URL or name; otherwise a queued row enters with empty columns and the claimed digest |
| `Downloads.AdoptRefusedExactly` | src/db/downloads_lifecycle.rs:697-719 | an adoption is refused exactly when a row carries the hash, or the new row would be live and clash; otherwise the row enters with the torrent's columns |
| `Downloads.RunsStayUnique` | migrations/003_active_downloads_unique.sql:10-12 | no run leaves two live rows with one URL or name |
| `Downloads.CancelIsFinal` | src/db/downloads.rs:380-406 | after a cancel took effect every later finalize, completion and cancel of the row matches nothing |
| `Downloads.CompletionIsFinal` | src/db/downloads_lifecycle.rs:305-319 | after a finalize or completion took effect no later cancel matches the row |
| `Downloads.CancelAfterCompletion` | src/db/downloads.rs:380-406 | and such a cancel is answered not-cancellable with a finished status |
| `Downloads.LiveAnswerExactly` | src/db/downloads.rs:380-406 | other sessions can bring about an answer that names a live status if and only if the row is in error or absent at the UPDATE |
| `Downloads.QueueEntriesAreConserved` | src/db/downloads_lifecycle.rs:198-211 | entries to the queue equal claims, failures and cancels out of it plus what is still queued |
| `Downloads.OneWinnerPerEntry` | src/db/downloads_lifecycle.rs:198-211 | so each entry is claimed at most once, whoever races |
| `Downloads.RunsStayTidy` | src/db/downloads_lifecycle.rs:198-607 | over every run a live or cancelled row has no error note, a failed one has, and a finished one that was not adopted names its file |
| `Downloads.ColumnsHaveSources` | src/db/downloads_lifecycle.rs:198-607 | every note, path and digest in a row was there at the start or was written for that row by a statement whose argument it is |
| `Downloads.CompletionIsRecorded` | src/db/downloads_lifecycle.rs:305-492 | from a completion up to the next one the row names the installed file and shows full progress, or what the last refresh since then wrote |
| `Downloads.LateRefreshLowersProgress` | src/db/downloads_lifecycle.rs:637-654 | full progress is no invariant of complete rows: the unguarded refresh lowers it |
| `Downloads.Store.ClaimDirect` | src/db/downloads_lifecycle.rs:198-211 | a queued row, and no other, becomes downloading with its part file; the row count says whether |
| `Downloads.Store.MarkDownloading` | src/db/downloads_lifecycle.rs:503-520 | a queued row, and no other, becomes downloading with its other columns kept; the row count says whether |
| `Downloads.Store.MarkError` | src/db/downloads_lifecycle.rs:217-233 | a queued or downloading row, and no other, becomes error with the message and its other columns kept |
| `Downloads.Store.MarkFatalError` | src/db/downloads_lifecycle.rs:247-272 | the same for a fatal failure, with its row count |
| `Downloads.Store.RequeueStaleErrors` | src/db/downloads_lifecycle.rs:277-294 | all listed rows still in error are queued again without note, or none exactly when two live rows would collide |
| `Downloads.Store.FinalizeDirect` | src/db/downloads_lifecycle.rs:305-319 | a downloading row, and no other, becomes complete with full progress, its file and the measured digest; the row count says whether |
| `Downloads.Store.MarkComplete` | src/db/downloads_lifecycle.rs:434-492 | a downloading or complete row becomes seeding with its statistics, or complete without any; full progress, file set, note cleared, row count returned |
| `Downloads.Store.SettleSeeding` | src/db/downloads_lifecycle.rs:580-607 | a seeding row becomes complete, its note replaced only by a new one |
| `Downloads.Store.AdoptTorrent` | src/db/downloads_lifecycle.rs:697-719 | a torrent without a row gets one; nothing changes when a row carries its hash or an index objects |
| `Downloads.AdoptionIsIdempotent` | src/db/downloads_lifecycle.rs:697-719 | adopting the same torrent again changes nothing |
| `Downloads.Store.RetryInterruptedDirects` | src/db/downloads_lifecycle.rs:659-670 | exactly the interrupted direct downloads are queued again without file and note; no index can object |
| `Downloads.Store.BindHash` | src/db/downloads_lifecycle.rs:524-532 | the row's hash is set, whatever its status |
| `Downloads.Store.ClearHash` | src/db/downloads_lifecycle.rs:554-561 | the row's hash is cleared, whatever its status |
| `Downloads.Store.DrainCancelledHashes` | src/db/downloads_lifecycle.rs:566-573 | afterwards no cancelled row has a hash, other rows are as before, and the count is of those cleared |
| `Downloads.Store.RecordObservedDigest` | src/db/downloads_lifecycle.rs:407-420 | a complete or seeding row, and no other, gets the digest |
| `Downloads.Store.RefreshSeedingStats` | src/db/downloads_lifecycle.rs:612-635 | a seeding row, and no other, gets the statistics |
| `Downloads.Store.RefreshProgress` | src/db/downloads_lifecycle.rs:643-651 | the row's progress is set, whatever its status |
| `Downloads.Store.ApplyStats` | src/torrent/poller/stats.rs:67-109 | every listed row gets its progress and statistics, whatever its status, and no other row changes |
| `Downloads.Store.CancelDownload` | src/db/downloads.rs:380-406 | cancelled exactly when the row is queued or downloading, with its other columns kept; otherwise the later look decides the answer |
| `Downloads.Store.InsertDownload` | src/db/downloads.rs:315-359 | duplicate is answered exactly when a live row clashed at the look or at the insert; otherwise one queued row enters and nothing else changes |
| `RateLimit.ScaledLimits` | src/access/ratelimit.rs:168-179 | capacity and rate are the clamped settings in fixed point, so every later intermediate fits its machine type |
| `RateLimit.ProductFits` | src/access/ratelimit.rs:113-116 | the refill product stays below the bound its 128-bit type needs |
| `RateLimit.RateLimiter.constructor` | src/access/ratelimit.rs:63-73 | a new limiter starts full |
| `RateLimit.RateLimiter.Resize` | src/access/ratelimit.rs:81-95 | a resize keeps the refill time and the balance, cut to the new capacity, and adds nothing |
| `RateLimit.RateLimiter.Refill` | src/access/ratelimit.rs:113-117 | the balance grows by the whole units earned since the last call, up to the capacity, and the refill time becomes now |
| `RateLimit.RateLimiter.TryAcquire` | src/access/ratelimit.rs:109-132 | admits exactly when a whole token is there after the refill and takes one; otherwise returns the least number of microseconds that is more than the deficit takes to earn, or 60,000 |
| `RateLimit.WaitIsTight` | src/access/ratelimit.rs:127-128 | the wait is that number for every deficit and rate |
| `RateLimit.RetryAfterSecs` | src/access/ratelimit.rs:274-276 | whole seconds, rounded up and never more than needed, at least one |
| `RateLimit.WaitingAsToldAdmits` | src/access/ratelimit.rs:109-132 | a refused caller that waits the returned time, or its whole-second form (section 10.2.3 of RFC 9110), is admitted next, for every clamped setting, and the wait is between 1 and 60,000 |
| `RateLimit.MicrosecondsSufficeExactly` | src/access/ratelimit.rs:127-128 | read as microseconds, which is how it is computed, the returned number suffices exactly when the cap does not bite |
| `RateLimit.UnitsAreConserved` | src/access/ratelimit.rs:109-132 | over any run of acquires and resizes, balance plus credit equals balance plus admissions plus spill plus rounding dust, and dust is under one unit per call |
| `RateLimit.CreditIsForwardTime` | src/access/ratelimit.rs:113-116 | the bucket is credited for exactly the forward movement of the clock: at most that at the largest rate, and exactly that at the rate when there is one |
| `RateLimit.ChargedIsElapsedExactly` | src/access/ratelimit.rs:113-116 | over any run with any resizes the time charged is the net elapsed time, and with one rate the credit is that time at the rate, if and only if the clock never steps back |
| `RateLimit.ChargedTwiceExactly` | src/access/ratelimit.rs:103-106 | an instant is charged twice if and only if the clock, as the bucket saw it, was before it, past it, before it again and past it again |
| `RateLimit.TimesAddUp` | src/access/ratelimit.rs:113-116 | the charges of all instants add up to the time the bucket was credited for |
| `RateLimit.StepBackAloneIsHarmless` | src/access/ratelimit.rs:103-116 | a clock that steps back and stays back charges no instant twice |
| `RateLimit.AdmissionsAreBounded` | src/access/ratelimit.rs:63-132 | admissions are bounded by the starting balance plus elapsed time at the largest rate, over any run of acquires and resizes with a non-decreasing clock |
| `RateLimit.BackwardClockDoubleCharges` | src/access/ratelimit.rs:103-116 | a clock that steps back credits the same second twice |
| `RateLimit.StaleHoldersAreBounded` | src/access/ratelimit.rs:251-251 | counting requests that still hold a replaced limiter, admissions exceed balance and credit by at most what the resizes copied |
| `RateLimit.StaleHolderSpendsTwice` | src/access/ratelimit.rs:251-251 | that excess is real: one token is spent on each side of a resize |
| `RateLimit.WithinBudgetExactlyWhenCurrent` | src/access/ratelimit.rs:230-263 | admissions stay within one limiter's balance and the credit in every run if and only if no request goes to a replaced limiter |
| `RateLimit.RateLimiterHandle.Limiter` | src/access/ratelimit.rs:230-263 | an unchanged generation or unchanged limits keep the same limiter; changed limits resize it; the first call starts one full |
| `RateLimit.FastPathIsCurrent` | src/settings/cache.rs:133-137 | whenever the fast path is taken and no mutation is unbumped, the limiter has the current settings, for every interleaving |
| `RateLimit.FastPathReadsNothing` | src/access/ratelimit.rs:216-232 | while the generation stands still, calls that find it in the slot read no setting and rebuild nothing |
| `EmbedClient.SortSorts` | src/embed/client.rs:264-270 | the sort orders the reply by label and keeps its elements |
| `EmbedClient.CheckEmbedIndices` | src/embed/client.rs:301-313 | accepts exactly when entry i is labelled i |
| `EmbedClient.InPlaceExactlyWhenPermuted` | src/embed/client.rs:301-313 | a sorted reply passes the check exactly when its labels are a permutation of 0..n |
| `EmbedClient.AcceptedExactlyWhenPermuted` | src/embed/client.rs:264-270 | a reply is accepted exactly then, and vector i is the one the provider labelled i |
| `EmbedClient.ChunkFailsExactly` | src/embed/client.rs:264-270 | a chunk fails with its request's error, or as misaligned exactly when its labels are no permutation |
| `EmbedClient.ChunksAreFull` | src/embed/client.rs:151-166 | all chunks of a call but the last have the batch size |
| `EmbedClient.JoinChunks` | src/embed/client.rs:151-211 | for every completion order the result is the concatenation of the chunk results in chunk order, or one of the chunk errors; up to four chunks are in flight at a time and every slot gets filled |
| `EmbedClient.Embed` | src/embed/client.rs:151-211 | in that result every chunk's vectors are at its texts' places if and only if every chunk returned one vector per text |
| `EmbedClient.Reassemble` | src/embed/client.rs:199-211 | filled slots are joined in chunk order |
| `EmbedClient.PieceAt` | src/embed/client.rs:199-211 | chunk k's vectors are at its start in the result |
| `EmbedClient.TextsAt` | src/embed/client.rs:151-211 | chunk k's texts are at its start in the request |
| `EmbedClient.AlignedExactlyWhenCountsMatch` | src/embed/client.rs:264-270 | for any chunk results, all chunks are at their texts' places if and only if the counts match chunk by chunk |
| `EmbedClient.CountsCanCancel` | src/embed/client.rs:264-270 | a matching total does not imply that |
| `EmbedPipeline.ClaimLimitFor` | src/embed/pipeline.rs:67-72 | the product of the two settings, capped, never wrapped |
| `EmbedPipeline.ClaimedExactly` | src/embed/pipeline.rs:114-122 | a claim of n rows returns a row exactly when it has no vector, no stamp or one more than 600 s old, and fewer than n such rows come before it |
| `EmbedPipeline.StampedExactly` | src/embed/pipeline.rs:114-122 | it stamps exactly those rows and changes nothing else |
| `EmbedPipeline.ClaimSplits` | src/embed/pipeline.rs:114-122 | claiming n + m rows is claiming n, then m at the same instant |
| `EmbedPipeline.ShortClaimIsTheLast` | src/embed/pipeline.rs:114-122 | after a short claim nothing is claimable |
| `EmbedPipeline.SuperBatchIsSequential` | src/embed/pipeline.rs:254-297 | a super-batch of k whole batches, rows returned in id order, is batch for batch and in the table it leaves k sequential claims |
| `EmbedPipeline.FifoExactly` | src/embed/pipeline.rs:254-297 | for every limit and returning order: the pieces and the table are those of sequential claims if and only if rows come back in id order and the limit makes whole batches or takes the last claimable row |
| `EmbedPipeline.LimitIsWholeExactly` | src/embed/pipeline.rs:67-72 | the limit in use makes whole batches if and only if the product fits under the cap or the cap makes whole batches |
| `EmbedPipeline.BoundIs` | src/embed/pipeline.rs:81-95 | placeholder i + 1 goes with id i |
| `EmbedRuns.BulkWriteIsPositional` | src/embed/pipeline.rs:81-95 | so vector i goes to the row of item i, and rows of other ids are untouched |
| `EmbedRuns.ReadyTaskIsAligned` | src/embed/pipeline.rs:40-47 | a task that passed the count guard has, for each item, the vector the provider labelled with its position for its text |
| `EmbedRuns.ReplyAcceptedExactly` | src/embed/pipeline.rs:296-396 | a reply moves its task on exactly when its labels are 0 up to the number of items, each once; any other ends the task and counts a failure for each item |
| `EmbedRuns.StoreWritesExactly` | src/embed/pipeline.rs:296-396 | a store writes item i's vector and the stamp to the row of item i if it still exists, leaves other rows alone and forgets exactly the items' failures |
| `EmbedRuns.FilterBoundsTheMap` | src/embed/pipeline.rs:145-166 | a filter step empties the counters exactly when they exceed 100,000 rows and otherwise leaves them alone |
| `EmbedRuns.LoopGoesOnExactly` | src/embed/pipeline.rs:274-426 | after a claim the loop claims again exactly when the claim was full and some sub-batch was sent; an empty claim ends it |
| `EmbedRuns.EveryVectorIsItsArticles` | src/embed/pipeline.rs:296-396 | over all runs, with re-indexing, deletion and insertion at any time: every vector the process wrote to an article is the one the provider labelled for a text that a claim returned for that article, and no request needs a second chunk |
| `EmbedRuns.VectorIsCurrentExactly` | src/zim/index.rs:1027-1046 | behind each stored vector is a claim at which the row had the vector's text, and the vector is for the row's present text if and only if the re-indexes since that claim left the row with it |
| `EmbedRuns.ReindexOvertakesStore` | src/zim/index.rs:1027-1046 | any task about to store can be overtaken, leaving the row with a new text and the old text's vector |
| `EmbedRation.OncePerWindow` | src/embed/pipeline.rs:114-122 | within one claim window a row the loop does not hold is sent at most once, for every interleaving, returning order, poison map, restart and re-index |
| `EmbedRation.ClaimedAreStamped` | src/embed/pipeline.rs:114-122 | a claim stamps every row it returns |
| `EmbedRation.AbandonedRowsComeBack` | src/embed/pipeline.rs:114-122 | whatever happened before, a claim returns and stamps every row without a vector whose stamp is missing or over 600 s old and that has fewer such rows before it than the limit |
| `EmbedRation.SendsAreConserved` | src/embed/pipeline.rs:145-330 | over every run the times a row was returned are the times it was sent, plus the times it was dropped for three failures, plus what the loop still holds of it |
| `EmbedRation.RowsAreReturnedOnce` | src/embed/pipeline.rs:274-295 | within one claim window the rows returned are at most those not yet stamped plus those inserted |
| `EmbedRation.FullClaimsAreBounded` | src/embed/pipeline.rs:274-426 | so the full claims of a window are at most that many rows divided by the limit |
| `EmbedRation.LoopEndsInWindow` | src/embed/pipeline.rs:274-426 | within one claim window the loop's steps are bounded by the rows left, the rows inserted and the times it is started |
| `EmbedRation.TimelyIsPunctual` | src/embed/pipeline.rs:114-122 | while a row's custody is no older than the claim window, no claim returns it again |
| `EmbedRation.PoisonRowsAreSentThreeTimes` | src/embed/pipeline.rs:145-183 | without a map clear and with at most one outstanding task per row, a row is sent at most three times in the life of a process, however often pipelines start and whatever other pipelines count |
| `EmbedRation.TimelyRunsArePunctual` | src/embed/pipeline.rs:114-122 | custody no longer than the claim window is enough for at most one outstanding task |
| `EmbedRation.LoopEnds` | src/embed/pipeline.rs:274-426 | under those hypotheses the loop ends over any span of time: its steps are bounded by the sends its rows have left, the rows inserted and the times it is started |
| `EmbedRation.AllRunsEnd` | src/embed/pipeline.rs:274-426 | in numbers, at most one pass for each start and three for each row there ever was |
| `EmbedRation.AllGoodAtStart` | src/embed/pipeline.rs:206-270 | every process start meets the hypotheses on its state |
| `EmbedLoop.PoisonMap.FilterPoisoned` | src/embed/pipeline.rs:145-166 | rows at the failure limit are dropped; above its cap the map is cleared first |
| `EmbedLoop.PoisonMap.RecordBatchFailure` | src/embed/pipeline.rs:168-176 | every row of the batch counts one more failure |
| `EmbedLoop.PoisonMap.RecordBatchSuccess` | src/embed/pipeline.rs:178-183 | the rows of the batch are forgotten |
| `EmbedRation.BumpCounts` | src/embed/pipeline.rs:168-176 | a failure adds one to each listed row and nothing to others |
| `EmbedLoop.HandOut` | src/embed/pipeline.rs:296-330 | the pieces sent are together the healthy rows of the super-batch, in order, none empty or too large |
| `EmbedLoop.ClaimLoop` | src/embed/pipeline.rs:274-426 | taken at one instant, the loop stamps the first m rows without a vector and with no stamp or one over 600 s old, sends exactly those of them with fewer than three failures, each once, and stops early only after a full super-batch of poison rows |
| `BuildGate.SwapIsApart` | src/embed/auto_loop.rs:67-87 | a successful swap stamps a value one back-off above every earlier stamp |
| `BuildGate.StepKeepsGate` | src/embed/auto_loop.rs:67-87 | every step of any number of callers keeps stamps and held claims a back-off apart |
| `BuildGate.ClaimsAreSpaced` | src/embed/auto_loop.rs:67-87 | with positive clocks, even ones that step back, successful claims are 600 s apart, and a caller retries at most once per back-off below its reading |
| `BuildGate.SpacedExactlyWhenPositive` | src/embed/auto_loop.rs:32-34 | that holds in all runs if and only if the clock never shows zero |
| `BuildGate.RefusalIsLasting` | src/embed/auto_loop.rs:53-55 | a reading the pre-filter refuses is refused by every later claim, since the slot only grows |
| `BuildGate.TurnedAwayRightly` | src/embed/auto_loop.rs:67-87 | a caller that leaves the gate empty-handed is one whose reading the slot, as it is at that moment, does not admit |
| `BuildGate.TimelyIsAlone` | src/embed/vector_index.rs:539-552 | two builds both younger than a back-off are one build |
| `BuildGate.TimelyRunsAreExact` | src/embed/vector_index.rs:533-552 | with a clock that never steps back, if every build ends within the back-off of its claim, builds never overlap and the flag is up exactly while one runs |
| `BuildGate.SlowBuildsOverlap` | src/embed/vector_index.rs:533-552 | a longer bound admits a run in which a build goes on with the flag down |
| `BuildGate.BackwardClockOverlaps` | src/embed/vector_index.rs:533-552 | a clock that steps back admits such a run under any bound |
| `BuildGate.ZeroClockOverlaps` | src/embed/auto_loop.rs:32-34 | and so does a clock that shows zero, under any positive bound |
| `BuildGate.ExactExactlyWhenShort` | src/embed/vector_index.rs:533-552 | for every clock and bound: builds never overlap and the flag is exact in all runs if and only if the bound on a build's age is at most the back-off, the clock never steps back, and it never shows zero (or no build runs) |
| `BuildGate.RecoversExactlyByRepair` | src/embed/vector_index.rs:427-530 | from any catalog one healthy attempt leaves a valid index for good, and that is so if and only if an invalid entry is dropped first |
| `BuildGate.PresentNeedsRows` | src/embed/vector_index.rs:457-459 | over any attempts, below the row threshold or without an answer nothing changes, and an index comes about only by a completed create over enough rows |
| `BuildGate.Builder.WithinBackoff` | src/embed/auto_loop.rs:67-87 | the swap loop ends under any interference and acts like one check and stamp at its last access |
| `BuildGate.Builder.MaybeBuild` | src/embed/vector_index.rs:427-530 | reports a build exactly when the gate admits it, the probe answers with enough rows, no valid index is there, an invalid one can be dropped and the create completes; below the threshold or refused it changes nothing; the flag is down on every path |
| `Lockout.WindowDescribes` | src/access/lockout.rs:59-84 | an unbounded map holds for each address the time and the failures of the window in force, as read off the history |
| `Lockout.WindowIsHistory` | src/access/lockout.rs:45-50 | so its answer is the history's at every time |
| `Lockout.LockoutIsHistory` | src/access/lockout.rs:45-91 | for an address never evicted during a live window the bounded map gives at every time the history's answer: locked exactly when five failures fell in the window in force, with the time left of it |
| `Lockout.FirstLossExactly` | src/access/lockout.rs:45-91 | for an address not lost before: the last event evicts it during a live window, locked or not, if and only if some continuation without a further loss gets a wrong answer |
| `Lockout.RightExactlyWhenNeverLost` | src/access/lockout.rs:45-91 | no point of a history can lead to a wrong answer, short of a loss yet to come, if and only if the address was never evicted during a live window |
| `Lockout.LosingUnlocks` | src/access/lockout.rs:72-83 | for an address already locked the wrong answer is immediate |
| `Lockout.ACrowdUnlocks` | src/access/lockout.rs:72-83 | a history in which ten thousand addresses push out a locked one |
| `Lockout.LostOnlyToACrowd` | src/access/lockout.rs:72-82 | that happens only when the map is full of live windows; otherwise an expired entry is evicted |
| `Lockout.MapStaysBounded` | src/access/lockout.rs:72-83 | the map never exceeds 10,000 addresses |
| `Lockout.LockoutTracker.FindOldest` | src/access/lockout.rs:75-80 | the scan finds an entry no younger than any other |
| `Lockout.LockoutTracker.RecordFailure` | src/access/lockout.rs:59-84 | counts in a live window, else opens one, evicting at the cap |
| `Lockout.LockoutTracker.RecordSuccess` | src/access/lockout.rs:89-91 | clears the address |
| `Lockout.LockoutTracker.LockoutRemaining` | src/access/lockout.rs:45-50 | answers what the history says |
| `LineReader.SplitSplits` | src/mcp/mod.rs:215-250 | the reference split loses nothing, and each piece has its newline at its end |
| `LineReader.SplitIsUnique` | src/mcp/mod.rs:215-250 | it is the only such split |
| `LineReader.Position` | src/mcp/mod.rs:233-236 | finds the first newline of a chunk |
| `LineReader.ReadCappedLine` | src/mcp/mod.rs:215-250 | one call returns what the remaining bytes say, however they were cut into chunks; the buffer never exceeds the cap plus one chunk |
| `LineReader.RunIo` | src/mcp/mod.rs:97-126 | the loop hands on exactly the lines of the stream up to the first one over the cap, and stops there, at the end, or at a read error |
| `LineReader.Run` | src/mcp/mod.rs:64-66 | the server does so with its cap of 1 MiB |
| `LineReader.ServesIsDetermined` | src/mcp/mod.rs:97-126 | the stream alone decides the lines and the ending, and it ends over-long exactly when some line is |
| `Migrations.StepKeepsInv` | src/db/migrate.rs:271-323 | every step of every starter keeps the schema equal to what is recorded, each script once |
| `Migrations.RunsKeepInv` | src/db/migrate.rs:119-135 | over any crashes, restarts and interleavings, locked or not: scripts take effect at most once, the schema is what the records say, an Ok means all files are recorded with matching hashes, and records last |
| `Migrations.CommitIsNext` | src/db/migrate.rs:271-323 | the file a starter commits is the next one of the list |
| `Migrations.SchemaIsAPrefix` | src/db/migrate.rs:271-323 | with append-only releases the schema is at every moment a prefix of the list, in order |
| `Migrations.StepKeepsLock` | src/db/migrate.rs:119-135 | the lock is held exactly by the one active starter, which meets no change between look and write |
| `Migrations.UnlockedStartersCollide` | src/db/migrate.rs:244-256 | without the lock two starters can collide on the tracking table |
| `Migrations.LockedExactlyWhenNeeded` | src/db/migrate.rs:119-135 | no start fails because of another one if and only if starters take the lock |
| `Migrations.AnswerIsForetold` | src/db/migrate.rs:224-326 | from the lock on, a starter that neither crashes nor meets a server error gives the answer the database at the lock called for: legacy, the first edited file, or success, whatever other starters do |
| `Migrations.StarterEnds` | src/db/migrate.rs:271-323 | it does so within 2n + 4 steps for n files |
| `Migrations.LeftAloneStartSucceeds` | src/db/migrate.rs:119-135 | it can always move on until it has ended, and ends in success if and only if the table is not legacy and no file it carries was edited |
| `Migrations.Client.ApplyOne` | src/db/migrate.rs:271-323 | one file is skipped, applied and recorded, or stops the run without effect |
| `Migrations.Client.RunMigrationsOn` | src/db/migrate.rs:224-326 | applies exactly the pending files in order up to where it stops; an edited file stops it before that file and all later ones; a legacy table stops it at once |
| `Migrations.RerunIsIdle` | src/db/migrate.rs:224-326 | a second start after success succeeds, applies nothing and records nothing |

## Left out

- `Invalidation`: the endless loops of the listener, subscribers and supervisor are steps of one relation rather than methods, so that their interleavings can be quantified over; the process's own updates to its cache, the status snapshot, and the doubling reconnect delay are not modelled.
- Downloads.Store.MarkError: like every method of `Store`, it does not model a lost connection or a swallowed write failure; a statement that fails has no effect.
- Downloads.Store.RetryInterruptedDirects: the test that a URL path ends in `.zim` is a flag of the row.
- Downloads.Store.ApplyStats: the columns for speed, remaining time and `updated_at` are not modelled, and neither is the ordering of digest drift, which depends on `updated_at`.
- RateLimit.RateLimiter.TryAcquire: one call is atomic, as under its mutex; the wall-clock reading is a parameter and may step back.
- EmbedClient.Embed: the HTTP exchange, body limits and JSON are a given outcome per chunk.
- EmbedLoop.ClaimLoop: the loop in its own form, at one instant, with a fixed poison map and rows in id order, so that what it sends can be named; `OncePerWindow` and `LoopEndsInWindow` are the statements for moving clocks, changing maps and any order.
- EmbedRation.PoisonRowsAreSentThreeTimes: the counters are lost when the process restarts, so the bound is per process.
- `EmbedRuns`: the in-flight permits are not modelled; they delay tasks and forbid none of the interleavings considered. A row that a re-index removes and inserts again gets a new id.
- EmbedRuns.BulkWriteIsPositional: vectors are written as they are; the text form of floats is not modelled.
- BuildGate.Builder.MaybeBuild: the catalog sees one attempt at a time; the choice between index kinds and the published snapshot are not modelled.
- Lockout.LockoutTracker.LockoutRemaining: reads the clock once where the code reads it twice; failure counts do not wrap at 32 bits.
- LineReader.RunIo: lines are bytes; lossy decoding, trimming, JSON-RPC dispatch and replies are not modelled.
- Migrations.Client.RunMigrationsOn: scripts are opaque and the hash is any function, so two texts with one hash count as the same file; names within one list are distinct, as in the code's list; the clean-up of invalid indexes is not modelled.
- Network guards and address ranges (`src/netguard.rs`, `src/access/cidr.rs`): URL parsing, DNS and range arithmetic are done by other software; the rest is a table of ranges.
- Search, its query cache and health reports: small lookups and counters without a property that spans steps.
- Indexing beyond its effect on article rows: reading ZIM files and HTML is done by other software.
- Settings storage and encryption, configuration, the connection pool, the command line, the web pages and the benchmarks: wiring around the parts modelled here.
