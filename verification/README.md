# Proofs about the ebook portal's protocols and algorithms

This Dafny project models the stateful core of the ebook portal and proves what its parts promise each
other. `dafny verify dfyconfig.toml` checks all of it.

Protocols that run on several goroutines or requests are step machines: an action is one atomic step of one
participant, a run is any list of steps whose guards hold, and the network, disk and database calls on the way
may fail, with the effect that the code gives to each failure. Code that changes a table, a map or a slice is a class or a method whose `ensures` names the whole
new state. A SQL table is a map by primary key and each query is the change
that its text describes, with its WHERE, COALESCE and ON CONFLICT.

| file | about |
|---|---|
| `SingleFlight.dfy` | `StartOrJoin`: leaders, followers, done channels, cancellation |
| `CacheTable.dfy`, `CacheProtocol.dfy`, `CacheOrphans.dfy` | the cache fill, the row table, the disk, readers and the sweep, interleaved; files without a row |
| `RefCount.dfy`, `Eviction.dfy` | reader counts with release closures; the LRU sweep |
| `KoboSessions.dfy`, `KoboTransfer.dfy`, `KoboServing.dfy` | Kobo sessions; the timed protocol of serves and reaper ticks; what it gets done |
| `Base64Url.dfy`, `BookRef.dfy` | book references over unpadded base64url |
| `Catalog.dfy` | the composite catalogue cursor |
| `Wrappers.dfy`, `Sequences.dfy` | a value that may be missing; counting and filtering |
| `StableSort.dfy`, `SmartQuery.dfy`, `SmartRules.dfy`, `SmartEval.dfy` | smart collections: normalise, validate, match, sort, store, page |
| `SmartFields.dfy`, `SmartWords.dfy` | what each field and operator selects; which words are valid, what they stand for, orders and limits |
| `LibSync.dfy`, `LibSyncStats.dfy` | reconciling backend libraries and replacing the table; what the reported numbers mean |
| `Requests.dfy` | the request lifecycle under unordered, repeated reports |
| `KindleQueue.dfy` | the Send-to-Kindle retry queue |
| `RateLimiter.dfy`, `ShareLink.dfy`, `Streak.dfy`, `CommandScore.dfy` | the smaller cores |

Where the code does not do what its text says, or what a reader would expect, the code is modelled as it is,
and the exact condition is proved:

- `StartOrJoin` promises a ready row on success (`internal/streaming/cache.go:117-118`). It keeps the promise
  exactly when no row held the key when the leader inserted: the insert does nothing on conflict and the later
  update names the new id. `CacheProtocol.MarkReadyHitsIffInserted` is the condition,
  `CacheProtocol.SuccessWithoutReadyRow` and `CacheProtocol.LeftoverIsReachable` the way it fails, and
  `CacheProtocol.LeftoverIsForEver` says that it then fails for good.
- `EvictTo` keeps the row when an unlink fails so that no file is orphaned (`internal/streaming/cache.go:245-251`).
  A sweep alone keeps that (`Eviction.SweepLeavesNoOrphanFile`); together with fills it does not:
  `CacheOrphans.OrphansExactlyWhen` gives the two steps that orphan a file, `CacheOrphans.OrphanIsReachable` a run.
- `Reconcile` calls the rows of other backends untouched (`internal/libsync/libsync.go:24-32`). The replace
  that follows turns an empty media type into "book" (`internal/store/portal_library.go:92-94`), and that is
  the only change (`LibSync.SyncLeavesOthersAlone`).
- The stats of a sync add up to the rows exactly when the backend does not report a managed library twice
  (`LibSync.RowsAreConservedIff`).
- The smart collection page handler multiplies and adds unchecked. `SmartEval.PageIsRightIff` gives the exact
  condition; a collection's own limit may be so large that page 1 panics (`SmartEval.LargestLimitPanics`), and
  a huge page number can serve page 0 again (`SmartEval.HugePageServesTheFirst`).
- A rule "in the last n units" is right exactly when its window fits in a `time.Duration`
  (`SmartRules.InLastIsRightIff`); a window of 300 years matches nothing (`SmartRules.ThreeCenturiesMatchNothing`).
- A book id without a library is its own reference, so it comes back unchanged exactly when it does not read
  as a reference itself (`BookRef.UnscopedRoundTripIff`, `BookRef.RawIdCanReadAsReference`).
- The Kobo grace protects a transfer of any length only together with the reader registry, and only if the serve
  acquires by the expiry plus the grace; without the registry that deadline binds the whole transfer. Both are
  exact (`KoboTransfer.RegistryHitsExactlyTheLate`, `KoboTransfer.WithoutRegistryHitsExactlyTheLate`).
- The Kindle retrier says "max 3 attempts" (`internal/scheduler/tasks.go:228`) and drops the errors of its status
  writes. A row is tried at most 3 times plus once per lost write, and the book mailed at most once plus once per
  lost write; both bounds are reached (`KindleQueue.TriesAreBounded`, `KindleQueue.BoundsAreReached`).
- Rules on integer fields truncate JSON numbers toward zero, so "lt 3.7" does not find 3 and "is 3.7" does;
  `SmartRules.AboveIsRightIff`, `SmartRules.BelowIsRightIff` and `SmartRules.EqualIsRightIff` say for which numbers
  each operator is right.
- The limiter's janitor is invisible exactly when no request takes longer than 9 minutes 58 seconds (and a
  nanosecond) between finding its limiter and drawing from it (`RateLimiter.JanitorIsInvisibleIff`).
- The streak query stops at 365 days, so "longest ever recorded" (`internal/store/streak.go:22`) is meant of those
  (`Streak.LongestIsEverIff`, `Streak.DailyReaderIsCut`).
- The smart collection handler fills in the catalogue item only, so rules and sorts by time of adding or by reading
  state see nothing of the book (`SmartEval.ServedRuleIsTheSameForAllBooks`, `SmartEval.ServedOrderIsCatalogueOrder`).
- A library sync lists and replaces in two steps; what others write in between is lost
  (`LibSync.LateRowSurvivesIffListed`).
- When terminal reports about a request disagree, the order of delivery decides (`Requests.FinalStatusIsSureIff`).

## Model

| member | source | states |
|---|---|---|
| SingleFlight.StepKeepsInv | internal/streaming/cache.go:119-147 | every step of every call keeps: inflight holds exactly the calls in their fill, under their keys; a result is written once, before the one close; a call that neither led nor joined holds an entry of its own key; a follower's answer is its leader's result, taken after the close, or its own cancellation |
| SingleFlight.FillsNeverOverlap | internal/streaming/cache.go:119-147 | in every interleaving two calls in the fill of one key are the same call |
| SingleFlight.ResultIsFinal | internal/streaming/cache.go:126-146 | over any later run a written result, a closed channel, a joined leader and a returned answer stay what they are |
| SingleFlight.DoneClosedOnceAfterResult | internal/streaming/cache.go:140-146 | a done channel is closed at most once, only with the result written, and has been closed when the leader has returned |
| SingleFlight.FollowerAnswersAsLeader | internal/streaming/cache.go:128-136 | an uncancelled follower returns exactly the result of the leader it joined, for its own key, whichever returns first |
| SingleFlight.OnlyOwnCancellationCancels | internal/streaming/cache.go:131-136 | a follower returns a context error only if its own request was cancelled |
| SingleFlight.AnswersOfARun | internal/streaming/cache.go:119-147 | whatever a call answers, in every run: an entry is of its own key; an error is the result of a fill of its key, its own or the one it joined; a context error means that it joined and that its request was cancelled in the run |
| SingleFlight.FlagsComeFromTheRun | internal/streaming/cache.go:136-146 | a call is cancelled or timed out if and only if that happened to it in the run |
| SingleFlight.FillMaySucceedIff | internal/streaming/cache.go:136-146 | a fill may still succeed if and only if its deadline has not passed and it is detached or its request was not cancelled; it may fail at any time |
| SingleFlight.CancellingLeaderChangesNothing | internal/streaming/cache.go:136-146 | because the fill runs on a detached context with a deadline of its own, cancelling the leader's request leaves every run possible and its outcome the same for everybody |
| SingleFlight.AttachedFillFailsFollowers | internal/streaming/cache.go:136-146 | on the request's own context, every uncancelled follower of a cancelled leader could only return an error, in every run |
| SingleFlight.LeaderIsCancelled | internal/streaming/cache.go:136-146 | a run reaches a cancelled leader with a follower waiting, and there the fill can still succeed if and only if it is detached |
| SingleFlight.NoDeadlock | internal/streaming/cache.go:119-147 | a call that has not returned can step, or waits for a leader that can |
| SingleFlight.EveryCallCanReturn | internal/streaming/cache.go:119-147 | from every state the invariant holds in, every call can be brought to return without any new call, cancellation or deadline |
| CacheTable.TotalRemove | internal/store/file_cache.go:101-108 | the sum of ready bytes does not depend on the order of rows; removing a row subtracts its share |
| CacheTable.TotalIs | internal/store/file_cache.go:101-108 | a ready row adds its bytes to the sum, any other row nothing, and no rows make nothing |
| CacheProtocol.RunKeepsCache | internal/streaming/cache.go:119-263 | over every run of calls, fills, sweeps and readers: cache keys are unique, ready rows have their files until swept, running fills own pending rows with distinct ids, .part files belong to running fills, reported entries stay as reported |
| CacheProtocol.SuccessMeansReadyRow | internal/streaming/cache.go:112-147 | a leader that returned success and whose insert took effect has its row found by Lookup, ready, with the reported size and its file there, until a sweep unlinks it; otherwise no row with its id exists |
| CacheProtocol.EveryAnswerIsKept | internal/streaming/cache.go:112-147 | the same for whoever returned an entry, from a ready row, its own fill or the one it joined: its own key, and the row found by Lookup with those bytes, and its file, until a sweep unlinks it, if the row was ever inserted |
| CacheProtocol.HitServesReadyRow | internal/streaming/cache.go:119-123 | over every run, a call that finds a ready row returns at once the entry of its own key that Lookup finds, with the bytes of the row, and with its file unless a sweep has unlinked it |
| CacheProtocol.HitIffLookupHits | internal/streaming/cache.go:100-106 | a fresh call can return at once if and only if Lookup hits, and then with one answer only |
| CacheProtocol.MarkReadyHitsIffInserted | internal/streaming/cache.go:190-208 | the reported row becomes the ready row of its key, beside a file of the reported size, if and only if the leader's insert took effect |
| CacheProtocol.InsertTakesEffectIffNoRow | internal/store/file_cache.go:27-37 | an insert takes effect if and only if no row holds the key, and otherwise changes nothing |
| CacheProtocol.NoPartAfterFill | internal/streaming/cache.go:160-208 | when the leader has its result the .part file of its key is gone, unless some step of the run failed to remove a .part file of that key |
| CacheProtocol.InsertFailureIsCleanedUp | internal/streaming/cache.go:182-186 | a fill whose insert fails removes its .part file, touches no row and ends in an error |
| CacheProtocol.WriteFailureIsCleanedUp | internal/streaming/cache.go:188-200 | a fill whose copy or rename fails removes its .part file, then marks its row failed, and ends in an error whatever becomes of the mark |
| CacheProtocol.LeftoverIsForEver | internal/streaming/cache.go:100-106 | a failed or abandoned pending row is never changed again, and while it is there every Lookup of its key misses, in any run |
| CacheProtocol.SuccessWithoutReadyRow | internal/store/file_cache.go:27-67 | with a leftover row, a call whose every step goes well returns success and an entry that no Lookup finds |
| CacheProtocol.LeftoverIsReachable | internal/streaming/cache.go:182-195 | one fill whose copy fails leads to such a leftover row, marked failed, with nothing in flight |
| CacheProtocol.HeldEntrySurvives | internal/streaming/cache.go:62-89 | an entry held when the sweep has not chosen it keeps its row and file for as long as that hold lasts, in every run |
| CacheProtocol.HeldFileIsSafeIff | internal/streaming/cache.go:241-257 | whatever runs while a hold lasts, the reader of a ready entry keeps its file, if and only if the sweep has not chosen the entry yet |
| CacheProtocol.HoldsAreCounted | internal/streaming/cache.go:66-89 | an entry is in use exactly from an Acquire of it to the Release of that Acquire |
| CacheProtocol.EvictableIffUnheld | internal/streaming/cache.go:240-261 | between two sweeps, sweeping can take a ready row away if and only if nobody holds it, and then it can take that row and its file and nothing else |
| CacheProtocol.EverySweepGetsThrough | internal/streaming/cache.go:240-261 | a sweep gets through its whole list, past entries that are held and files and rows that cannot be removed, and if it can remove nothing it leaves everything as it was |
| CacheProtocol.UnlinkedUnderReaderMeansLateAcquire | internal/streaming/cache.go:241-257 | if a sweep unlinks a file under a reader, that reader acquired it after the busy check |
| CacheOrphans.OrphansExactlyWhen | internal/streaming/cache.go:192-258 | while every file has a row, a step leaves a file without one if and only if the sweep deletes the row of a key whose file has come back since the unlink, or a fill renames its file into place when no row holds its key |
| CacheOrphans.OrphanIsReachable | internal/streaming/cache.go:119-263 | for each of the two steps a run in which it is the first to orphan a file: a call that missed early fills again beside the ready row, which a sweep evicts around or before the rename |
| CacheOrphans.LateReaderIsHit | internal/streaming/cache.go:241-257 | a run in which the sweep unlinks the file of a reader that acquired after the busy check |
| RefCount.Registry.Acquire | internal/koboref/registry.go:29-46 | one more outstanding release of the id; the count is the number of outstanding releases; other ids keep theirs |
| RefCount.Registry.Call | internal/streaming/cache.go:66-83 | calling a release takes exactly it from the outstanding ones; calling it again changes no count |
| RefCount.Registry.InUse | internal/koboref/registry.go:48-53 | busy if and only if some release of the id is outstanding |
| Eviction.Manager.EvictListed | internal/streaming/cache.go:240-261 | the loop leaves the rows, disk, running total and count of the sweep specified by Swept, with every unlink and delete fault |
| Eviction.Manager.EvictTo | internal/streaming/cache.go:227-263 | an error exactly when a query it needs fails, and then nothing changed; otherwise the sweep of the listing down to the target |
| Eviction.SweptTotalIsExact | internal/streaming/cache.go:228-261 | the running total ends as the sum over the rows that remain, and the count is the number of rows gone |
| Eviction.SweptOnlyUnheld | internal/streaming/cache.go:241-257 | only listed entries that are not held and whose file and row can be removed lose their row, with their file; a file goes only if its entry is not held and it can be unlinked; every other row is as it was |
| Eviction.SweptInOrder | internal/streaming/cache.go:240-261 | when an entry went, everything listed before it went or could not go |
| Eviction.SweptIsMinimal | internal/streaming/cache.go:240-244 | with the last evicted entry put back the total is above the target |
| Eviction.AboveTargetMeansExhausted | internal/streaming/cache.go:240-263 | ending above the target means that every listed entry went, was held or failed, and that every file that was not held and could be unlinked is gone |
| Eviction.ListingIsTheOldest | internal/store/file_cache.go:74-88 | a listing has the five hundred ready rows read longest ago, or all of them if there are fewer |
| Eviction.SweepLeavesNoOrphanFile | internal/streaming/cache.go:245-257 | if every file had a row before, every file has one afterwards |
| Eviction.EvictsLeastRecentlyUsed | internal/store/file_cache.go:74-88 | over the whole table, beyond the listing's limit too, no evicted row was used later than a ready row that could have gone and stayed |
| KoboSessions.FindSessionForCode | internal/server/opds_kosync_routes.go:697-704 | the first listed row whose hash matches the code, or none if none does |
| KoboSessions.Reaper.Reap | internal/scheduler/tasks.go:166-190 | the loop leaves the sessions and files of ReapAll over its candidates, with failing updates and unlinks |
| KoboSessions.ReapExpiresExactlyIdle | internal/store/kobo_session.go:107-136 | a tick expires exactly the open candidates nobody reads whose update succeeds, and their files go unless the unlink fails; every other row and file is unchanged |
| KoboTransfer.StepKeepsInv | internal/server/opds_kosync_routes.go:706-749 | every step keeps: a serve past its check passed it between creation and expiry; what the reaper has in hand, and every expired row, is past expiry by more than the grace; who is let through is KoboServing.CheckPassesIffInTime |
| KoboTransfer.NoLateAcquire | internal/server/opds_kosync_routes.go:717-733 | when every serve acquires by the expiry plus the grace, a serve between check and acquire is of a row that is not expired and not chosen by the reaper |
| KoboTransfer.StepKeepsExclusive | internal/scheduler/tasks.go:163-190 | with the registry every step keeps, when serves acquire by the deadline: nobody reads a row the reaper has chosen or expired |
| KoboTransfer.TimelyRunKeeps | internal/scheduler/tasks.go:163-190 | so over every run with the registry in which serves acquire by the deadline, nobody reads a row the reaper has chosen or expired |
| KoboTransfer.ReaperNeverUnlinksUnderServe | internal/scheduler/tasks.go:163-190 | with the registry, in every interleaving and whatever other serves do, a serve that acquires by the expiry plus the grace never has its file unlinked by the reaper, from its expiry check to its end, whatever the transfer's length |
| KoboTransfer.RegistryHitsExactlyTheLate | internal/scheduler/tasks.go:163-190 | with the registry, a serve between check and acquire of an open row nobody holds can lose its file while reading, without more time passing, if and only if it is past the expiry plus the grace |
| KoboTransfer.WithoutRegistryHitsExactlyTheLate | internal/scheduler/tasks.go:190-200 | without the registry, a reader of an open row can lose its file, without more time passing, if and only if it is past the expiry plus the grace |
| KoboTransfer.UnlinkOnlyLongAfterExpiry | internal/scheduler/tasks.go:154-200 | with or without the registry, a serve hit by the reaper has outlived the expiry by more than the grace |
| KoboTransfer.ExpiredIsForEver | internal/store/kobo_session.go:52-63 | with the registry an expired session stays expired in every run in which serves acquire by the deadline, so it is never completed |
| KoboTransfer.CompletedIsForEver | internal/store/kobo_session.go:94-136 | a completed session stays completed in every run |
| KoboTransfer.WithoutRegistryLongTransferIsHit | internal/scheduler/tasks.go:190-200 | without the registry such a state is reached: a run unlinks the file under a reader, expires its session and then sees it completed |
| KoboTransfer.SlowAcquireIsHit | internal/server/opds_kosync_routes.go:717-733 | with the registry such a state is reached: a run hits a serve that acquired too late |
| KoboTransfer.StrayHitsOnlyVeryLongServes | internal/scheduler/tasks.go:201-222 | the six hour sweep can hit only a serve running, since its check, longer than six hours less expiry and conversion lag |
| KoboTransfer.FileOutlivesTransfer | internal/server/kindle_kobo.go:125-155 | with the registry, stray sweeps included, every reader keeps its file from open to end in every safe run |
| KoboServing.CheckPassesIffInTime | internal/server/opds_kosync_routes.go:722-725 | the expiry check lets a matched serve through if and only if the session is at most thirty minutes old, and otherwise ends it; it changes no row and no file |
| KoboServing.ServableIff | internal/server/opds_kosync_routes.go:706-749 | in every reachable state a new request can come to read a session's file, without time passing, if and only if the session is pending or active, less than thirty minutes old, and its file is there, whatever the reaper has in hand |
| KoboServing.NewSessionIsServed | internal/server/kindle_kobo.go:125-155 | a new session is served to its end and completed by a request that comes within thirty minutes, however long the transfer, and is not found by one that comes later |
| KoboServing.ReapableIff | internal/scheduler/tasks.go:154-190 | between two ticks, with the registry, reaping can expire an open session if and only if nobody holds it and it is more than thirty-five minutes old, and then it can take that row and its file alone |
| KoboServing.EveryTickEnds | internal/scheduler/tasks.go:163-190 | with the registry a tick comes to its end from wherever it stands, and if all its writes fail no row and no file has changed |
| KoboServing.ReaperAsksTheRegistry | internal/scheduler/tasks.go:166-176 | the reaper takes up the next row of its list if and only if nobody holds it, passes over it if and only if somebody does, and has one row in hand at a time |
| KoboServing.ServesGoInOrder | internal/server/opds_kosync_routes.go:706-749 | every serve goes from match over check, count, activation, opening, copying, completing to release in that order, each step of its own moves it on, and it reads if and only if it found its file |
| KoboServing.CountedFromAcquireToRelease | internal/server/opds_kosync_routes.go:726-749 | a session is in use exactly from the Acquire of a serve of it to that serve's Release |
| KoboServing.StrayTakesTheOld | internal/scheduler/tasks.go:201-222 | the stray sweep can take a session's file exactly when it was written more than six hours ago |
| KoboServing.StatusChangesOnlyBy | internal/store/kobo_session.go:52-136 | in every state, the only ways a row's status changes: the handler's two updates of its own row, the second without a guard, and the reaper's two of an open row |
| KoboServing.FilesChangeOnlyBy | internal/scheduler/tasks.go:154-222 | a file appears only with its session, and goes only by the reaper's unlink or the stray sweep |
| Base64Url.DecodeInvertsEncode | internal/server/bookref.go:10-31 | decoding an encoded byte string gives it back (sections 3.2 and 5 of RFC 4648) |
| BookRef.DecodeInvertsEncodeRef | internal/server/bookref.go:10-31 | every positive library id and every byte string survive encoding and decoding |
| BookRef.EncodeRefIsInjective | internal/server/bookref.go:10-15 | scoped references are equal only for equal pairs |
| BookRef.ScopedIffReadsAsReference | internal/scheduler/tasks.go:28-42 | a text decodes as scoped if and only if up to its first colon it is a positive int64 and after it unpadded base64url; otherwise it is the raw id of library 0 |
| BookRef.ParseIntMeans | internal/server/bookref.go:17-31 | the library part of a reference is read as a decimal number, with or without a sign, if it fits in 64 bits |
| BookRef.ParseIntRefuses | internal/server/bookref.go:17-31 | the empty text, a sign alone and any text with another character in it are no number |
| BookRef.NegativeIsNoReference | internal/server/bookref.go:17-31 | a text that begins with a minus sign is a raw id |
| BookRef.UnscopedRoundTripIff | internal/server/bookref.go:10-31 | for non-positive library ids the raw id comes back if and only if it does not read as a reference |
| BookRef.RawIdCanReadAsReference | internal/server/bookref.go:10-31 | a raw id can equal the reference of another book |
| Catalog.CursorRoundTrip | internal/server/catalog_cursor.go:19-47 | a token decodes to its cursors, and only the empty map has the empty token |
| Catalog.OnlyTokensArePositions | internal/server/catalog_cursor.go:30-47 | a text that is no token stands for the first page: it is not base64, or holds no JSON map, or an empty one; every other text means the map that it holds |
| Catalog.WrapCatalogItems | internal/server/user_routes.go:199-212 | every item in place comes out served as the book it was: the library's id, name and media type, the backend's title, a reference that decodes to that library and that book, and a cover signed for the book that the reference decodes to |
| Catalog.CombineCatalogResults | internal/server/user_routes.go:183-197 | the wrapped items of the libraries that answered, in order, cut at a positive limit, and the sum of their totals |
| Catalog.ListCatalog | internal/server/user_routes.go:786-831 | one request returns the page of the position its token means, and the token of the next position |
| Catalog.HandleListCatalog | internal/server/user_routes.go:750-831 | the whole handler: a named library alone, all shelves, at most 20 books each when there are several, or the fallback library when there is none, and what is served when something fails |
| Catalog.NextCursorsAre | internal/server/user_routes.go:800-830 | the next cursor holds a library if and only if it answered with a next cursor, and then that one |
| Catalog.CursorHoldsTheLiving | internal/server/user_routes.go:800-830 | before call n the cursor holds exactly the libraries with an n-th page that never failed, each at that page |
| Catalog.WalkEndsIffNobodyAlive | internal/server/user_routes.go:795-830 | the cursor becomes empty exactly when no library is left with a page |
| Catalog.WalkLength | internal/server/user_routes.go:795-830 | without failures the walk ends after as many calls as the longest library has pages |
| Catalog.WalkDeliversEachLibrary | internal/server/user_routes.go:174-197 | each library contributes exactly its own pages in order up to its own first failure, whatever the others do |
| Catalog.EveryBookExactlyOnce | internal/server/user_routes.go:174-197 | when the cursor is empty, a library that never fails has delivered each of its books exactly once, in its order, each served as that book: title, reference, cover and library fields |
| Catalog.ExpectedIsPrefix | internal/server/user_routes.go:183-197 | with failures a library contributes a prefix of its books |
| Catalog.WalkServesPrefix | internal/server/user_routes.go:183-212 | over a walk of any length, failures included, what a library has delivered is a prefix of its books, each served as that book |
| Catalog.FirstTotalCountsTheWalk | internal/server/user_routes.go:183-197 | when backends tell their number of books on every page and none fails, the total of each response counts the books of the libraries that still have a page, and the first response's total is the number of items that the whole walk returns |
| Catalog.EveryCatalogueIsWalked | internal/server/user_routes.go:786-831 | for any libraries, books and pages, an answering backend is walked to its end and every book of every library has then been served once, in order |
| Catalog.AllReferencesDistinct | internal/server/user_routes.go:199-212 | references of different libraries never collide; a library without a shelf id comes alone |
| Catalog.WalkHasDistinctReferences | internal/server/user_routes.go:183-212 | if no backend repeats a book id, all items of a walk of any length, failures included, have distinct ids |
| Catalog.TokenMeansPosition | internal/server/catalog_cursor.go:19-47 | the token sent to the client means the position reached, and is empty exactly at the end |
| StableSort.SortIsStable | internal/smartcoll/evaluator.go:412-450 | every strict weak order has a stable sort of every list |
| StableSort.SortIsInOrder | internal/smartcoll/evaluator.go:412-450 | in a sorted list no element precedes one that must come before it |
| StableSort.StableSortIsUnique | internal/smartcoll/evaluator.go:412-450 | and only one |
| StableSort.SortIsPermutation | internal/smartcoll/evaluator.go:412-450 | which is a permutation |
| SmartQuery.NormalizeLibraryIDs | internal/smartcoll/query.go:203-222 | the loop over ids and seen ones computes NormalizeIDs |
| SmartQuery.NormalizedIDs | internal/smartcoll/query.go:203-222 | ids come out sorted, each positive one once, each other one as often as it came |
| SmartQuery.NormalizeIDsIsIdempotent | internal/smartcoll/query.go:203-222 | normalising ids twice is normalising once |
| SmartQuery.NormalizeRulesInPlace | internal/smartcoll/query.go:114-121 | every rule of a group is rewritten where it is, value kept |
| SmartQuery.NormalizeGroupsInPlace | internal/smartcoll/query.go:106-122 | every group and rule of a definition is rewritten where it is, and comes out normalised even when groups share their rules |
| SmartQuery.NormalizeSortIsIdempotent | internal/smartcoll/query.go:171-188 | normalising a sort twice is normalising once, aliases and default orders included |
| SmartQuery.NormalizeIsIdempotent | internal/smartcoll/query.go:101-124 | normalising a definition twice is normalising once |
| SmartQuery.ValidIgnoresNormalization | internal/smartcoll/query.go:126-169 | a definition is valid exactly when its normal form is, and validity without user scope implies validity with it |
| SmartWords.ValidMeans | internal/smartcoll/query.go:126-169 | a definition is accepted if and only if every word is known where it stands, in any case and with blanks around it, library ids and limit are positive, and rules and sorts about reading come only with user scope |
| SmartWords.RuleIsAllowed | internal/smartcoll/query.go:71-89 | operator by operator, the fields it goes with and those that need user scope |
| SmartWords.PluralsEvaluateAlike | internal/smartcoll/query.go:54-58 | a plural field name, in any case and with blanks around it, evaluates as the singular one |
| SmartWords.BlankMatchMeansAll | internal/smartcoll/query.go:195-201 | a missing word for how groups combine evaluates as "all" |
| SmartWords.LowerMeans | internal/smartcoll/query.go:114-120 | lowering turns each capital letter into its small one and changes nothing else |
| SmartWords.TrimMeans | internal/smartcoll/query.go:114-120 | trimming takes the white space off both ends, all of it and nothing else |
| SmartRules.AboveIsRightIff | internal/smartcoll/evaluator.go:221-240 | gt, and lte, on an integer field compare as on the numbers, for every integer, if and only if the JSON number is in range and whole or positive, since it is truncated toward zero |
| SmartRules.BelowIsRightIff | internal/smartcoll/evaluator.go:221-240 | lt, and gte, if and only if it is negative, or whole and not too large |
| SmartRules.EqualIsRightIff | internal/smartcoll/evaluator.go:293-306 | is, and is_not, if and only if it is whole and in range |
| SmartRules.TextOperatorsAre | internal/smartcoll/evaluator.go:176-187 | case makes no difference, is_not is the opposite of is, is implies contains, and contains means being a part |
| SmartRules.ArrayOperatorsAre | internal/smartcoll/evaluator.go:189-219 | for fields with many values too case makes no difference, is_not is the opposite of is, and is implies contains |
| SmartRules.OppositesPartIff | internal/smartcoll/evaluator.go:99-150 | of two valid rules with opposite operators and one value a candidate matches exactly one, if and only if the rule is not about the last reading of a book never read |
| SmartRules.OneMoreRule | internal/smartcoll/evaluator.go:79-97 | an empty group matches; one more rule is conjoined to an all group and disjoined to a non-empty any group |
| SmartRules.OneMoreGroup | internal/smartcoll/evaluator.go:59-77 | the same for groups in a definition |
| SmartRules.InLastIsRightIff | internal/smartcoll/evaluator.go:267-275 | in_last matches exactly the times within its window, for every time, if and only if the window fits in a time.Duration |
| SmartRules.NoWindowMatchesNothing | internal/smartcoll/evaluator.go:360-391 | an amount that is not positive or an unknown unit matches nothing |
| SmartRules.ThreeCenturiesMatchNothing | internal/smartcoll/evaluator.go:374-391 | "in the last 300 years" matches no time up to now |
| SmartEval.SliceStable | internal/smartcoll/evaluator.go:412-450 | for a strict weak order the array ends as the stable sort of what it held |
| SmartEval.ShuffleSeeded | internal/smartcoll/evaluator.go:452-460 | the array ends shuffled by the draws that seed, length and place determine |
| SmartEval.SortCandidates | internal/smartcoll/evaluator.go:152-172 | the array ends in the order of the sort, newest first for an unknown field |
| SmartEval.Evaluate | internal/smartcoll/evaluator.go:37-57 | the result is the specified selection, ordered and limited; what is selected is told by the books' attributes in SmartFields |
| SmartEval.BeforeIsWeakOrder | internal/smartcoll/evaluator.go:152-172 | the order of every sort field, in both directions, is a strict weak order |
| SmartEval.SelectsExactlyTheMatching | internal/smartcoll/evaluator.go:45-51 | a candidate is selected as often as it was offered if it matches, and never otherwise; what matching means is told by the books' attributes in SmartFields |
| SmartEval.SelectsInOrder | internal/smartcoll/evaluator.go:45-51 | the selection is the matching places of the input in the input's order |
| SmartEval.ArrangedIsPermutation | internal/smartcoll/evaluator.go:152-172 | ordering loses and invents nothing, whatever the sort |
| SmartEval.EvaluateReturns | internal/smartcoll/evaluator.go:37-57 | the result is the first `limit` elements of the one stable sort of the selection |
| SmartEval.ResultIsSorted | internal/smartcoll/evaluator.go:152-172 | any two elements of the result stand in the order of the sort field and direction, newest first for an unknown field |
| SmartEval.TextLessMeans | internal/smartcoll/evaluator.go:412-420 | titles compare by proper prefix or first difference |
| SmartEval.RandomOrderReturns | internal/smartcoll/evaluator.go:166-168 | for every sort, random included, the result is the first `limit` elements of some permutation of the selection |
| SmartEval.OppositeCollectionsPartBooks | internal/smartcoll/evaluator.go:37-57 | two collections of one opposite rule each hold every candidate once between them, as often as it was offered, but for never read books and the last reading |
| SmartFields.RatingCollections | internal/smartcoll/evaluator.go:242-257 | a collection of one rule on the rating holds exactly the offered books rated above, from, below or up to the number, each as often as it was offered |
| SmartFields.RatingRangeCollection | internal/smartcoll/evaluator.go:252-255 | or between the two numbers, ends included |
| SmartFields.YearCollections | internal/smartcoll/evaluator.go:221-240 | the same for the year and whole numbers in range, is and is_not included |
| SmartFields.YearRangeCollection | internal/smartcoll/evaluator.go:235-237 | and for a range of years |
| SmartFields.AnnotationCollections | internal/smartcoll/evaluator.go:146-147 | the same for the number of annotations, where personalised rules are allowed; elsewhere nothing |
| SmartFields.AnnotationRangeCollection | internal/smartcoll/evaluator.go:146-147 | and for a range of it |
| SmartFields.AddedCollections | internal/smartcoll/evaluator.go:267-290 | books added after or before a time, given as a text or in milliseconds; a book whose time of adding is unknown is in none |
| SmartFields.AddedRangeCollection | internal/smartcoll/evaluator.go:267-290 | or between two times, ends included |
| SmartFields.LastReadCollections | internal/smartcoll/evaluator.go:267-290 | books last read after, from, before or up to a time, where personalised rules are allowed; never those never read |
| SmartFields.LastReadRangeCollection | internal/smartcoll/evaluator.go:267-290 | or between two times, ends included |
| SmartFields.RecentlyAddedCollection | internal/smartcoll/evaluator.go:268-275 | "in the last n hours, days, weeks, months or years" holds exactly the books added since, for every window that fits in 64 bits of nanoseconds |
| SmartFields.RecentlyReadCollection | internal/smartcoll/evaluator.go:268-275 | the same for the last reading, where personalised rules are allowed |
| SmartFields.WrittenWindowCollection | internal/smartcoll/evaluator.go:360-410 | a window written as "30d", "12h", "2w" or "1y", or as a bare number of days, means the same |
| SmartFields.UnreadableWindowCollection | internal/smartcoll/evaluator.go:360-410 | a window that is missing, of another kind, or a text that is no number with h, d, w or y after it, selects nothing |
| SmartFields.FinishedCollection | internal/smartcoll/evaluator.go:135-136 | books finished, or not, where personalised rules are allowed |
| SmartFields.InProgressCollection | internal/smartcoll/evaluator.go:137-138 | books begun and not finished, or the others |
| SmartFields.AbandonedCollections | internal/smartcoll/evaluator.go:141-145 | books begun, not finished, and not read for at least so long, sixty days by default, or the others |
| SmartFields.TextCollections | internal/smartcoll/evaluator.go:176-187 | on title, series and language, whatever the case: books with that text, with another, or with it as a part; publisher and ISBN are empty for every book |
| SmartFields.ManyTextCollections | internal/smartcoll/evaluator.go:189-219 | on authors and formats: books of which one is that text, none is, or one has it as a part; no book has a genre or a tag |
| SmartFields.UnknownWordCollection | internal/smartcoll/evaluator.go:99-150 | a rule of an unknown field, or with an unknown operator, selects nothing |
| SmartWords.MistypedValueCountsAs | internal/smartcoll/evaluator.go:293-335 | a rule whose value is of the wrong kind evaluates as with 0, the empty text or false |
| SmartWords.ResultIsOrderedAsAsked | internal/smartcoll/query.go:171-188 | any two books of a result stand in the order that the words of the sort ask for, aliases included: titles from A, all others from the highest or newest unless the order says otherwise, newest added first when nothing is said |
| SmartWords.LimitMeans | internal/smartcoll/evaluator.go:53-55 | a limit cuts the result to its first so many books; one that is missing or not positive cuts nothing |
| SmartWords.EveryOrderCanBeDrawn | internal/smartcoll/evaluator.go:452-460 | for any two seeds and any two orders of the selected books there are draws that give these results: a random order can be any order, for each seed independently of the other |
| SmartWords.BlankSeedIsShared | internal/smartcoll/evaluator.go:452-456 | a user without a seed gets the order of the seed "random" |
| SmartEval.ServedRuleIsTheSameForAllBooks | internal/server/smart_collection_handler.go:205-207 | the handler's candidates carry no time of adding and no reading state, so rules about those say the same of every book, and those about times match none |
| SmartEval.ServedOrderIsCatalogueOrder | internal/server/smart_collection_handler.go:205-214 | and sorts by those, the default one among them, keep the catalogue's order |
| SmartRules.PersonalOffShrinks | internal/smartcoll/evaluator.go:59-106 | what matches with personalised rules off matches with them on, for every definition |
| SmartEval.PersonalOffSelectsFewer | internal/smartcoll/evaluator.go:59-106 | so the selection with them off is contained in the one with them on |
| SmartRules.PublicDefinitionIsTheSameForAll | internal/smartcoll/query.go:145-147 | a definition valid without user scope matches the same candidates for everybody |
| SmartEval.EvaluateIgnoresNormalization | internal/smartcoll/evaluator.go:45 | evaluating a normal form gives what evaluating the definition gives |
| SmartEval.StoredEvaluatesAsSubmitted | internal/server/smart_collection_handler.go:239-281 | a definition is stored exactly when valid; if JSON reads its normal form back, what is reloaded is valid, already normal, and evaluates to the same candidates in the same order |
| SmartEval.ServePage | internal/server/smart_collection_handler.go:216-228 | the handler's arithmetic with wrap-around and its panics |
| SmartEval.ServeRequest | internal/server/smart_collection_handler.go:153-228 | the page of the parameters' size and number, with the defaults for missing, garbled and unacceptable ones |
| SmartEval.PageSizeIs | internal/server/smart_collection_handler.go:153-160 | the page size is the request's from 1 to 200, the collection's own when the request has none, and else 30; the page number is the request's when it is one that is not negative, and else 0 |
| SmartEval.PageIsRightIff | internal/server/smart_collection_handler.go:216-228 | the page served is the one meant if and only if the start does not overflow, or wraps past the end, and the end fits in 63 bits |
| SmartEval.PagesGiveTheListBack | internal/server/smart_collection_handler.go:216-228 | pages 0, 1, 2, ... of any size that fit concatenate to the list |
| SmartEval.SmallPagesFit | internal/server/smart_collection_handler.go:216-228 | a page fits when its start and the list's length plus the page size stay below 2^63 |
| SmartEval.LargestLimitPanics | internal/server/smart_collection_handler.go:153-160 | a collection's own limit of 2^63-1 is accepted and page 1 of it panics |
| SmartEval.HugePageServesTheFirst | internal/server/smart_collection_handler.go:161-166 | page 2^62 of size 4 serves page 0 instead of nothing |
| LibSync.SplitExisting | internal/libsync/libsync.go:37-57 | unmanaged rows in order, the last managed row per backend library, the highest sort order; pruned, kept and managed add up to all rows |
| LibSync.WantOne | internal/libsync/libsync.go:60-92 | a matched row changes only in name and type; a new one is enabled, at the next sort order; both bear the backend's name and type, or "Library" with the number and "book" where the backend gives none |
| LibSync.WantLibraries | internal/libsync/libsync.go:59-95 | one row per backend library, in the backend's order, with the counts of new, renamed and unchanged ones |
| LibSync.CountGone | internal/libsync/libsync.go:97-101 | the number of managed libraries that the backend did not report |
| LibSync.Reconcile | internal/libsync/libsync.go:33-102 | the desired rows and the stats as specified |
| LibSync.ResultIsCounted | internal/libsync/libsync.go:33-102 | kept, updated and created add up to the desired rows, without any assumption |
| LibSync.RowsAreConservedIff | internal/libsync/libsync.go:33-102 | existing plus created equals desired plus pruned if and only if no managed library is reported twice |
| LibSync.LibraryStore.Replace | internal/store/portal_library.go:76-129 | succeeds exactly when every row passes and no statement fails, and then leaves the stored rows and nothing else; otherwise the rows are as before |
| LibSync.LibraryStore.Sync | internal/libsync/libsync.go:120-140 | succeeds exactly when the guards pass and the replace does; a failed or empty fetch writes nothing |
| LibSync.ResultIs | internal/store/portal_library.go:83-128 | after a replace every stored row is at its id, and there is no other row |
| LibSync.SyncGivesEachLibraryItsRow | internal/libsync/libsync.go:59-95 | after a sync every backend library has its managed row; its name is the backend's if that is not empty and else "Library" with the number, its type the backend's if not empty and else "book" |
| LibSync.SyncKeepsMatchedRow | internal/libsync/libsync.go:70-80 | a library that has a managed row keeps it: the same id, enabled flag and sort order, with the name and type as above; of several rows it is the last in the table's order |
| LibSync.SyncAppendsNewRow | internal/libsync/libsync.go:82-94 | a library without a managed row gets a new id, enabled, with a sort order numbered on from the highest one in the table, in the backend's order |
| LibSync.SyncLeavesNoOtherManaged | internal/store/portal_library.go:119-128 | every managed row afterwards is the row of a backend library |
| LibSync.SyncLeavesOthersAlone | internal/libsync/libsync.go:52-55 | other rows stay, unchanged if and only if their media type is not empty |
| LibSync.SyncMakesNoOthers | internal/libsync/libsync.go:59-95 | no unmanaged row appears |
| LibSyncStats.StatsTellTheDifference | internal/libsync/libsync.go:33-102 | the reported numbers are the difference between the tables before and after: created counts the rows that came, pruned the ones that went, updated the managed ones that read otherwise than before, kept all others that stayed |
| LibSync.SyncKeepsLibrariesApart | internal/libsync/libsync.go:59-95 | two backend libraries never share a row |
| LibSync.OnlyTheDatabaseStopsASync | internal/store/portal_library.go:83-128 | on a table whose rows all have a name and a backend, the replace of a sync fails only if the database does, and leaves such a table again |
| LibSync.NewRowsSortApart | internal/libsync/libsync.go:82-94 | new rows have distinct sort orders, in the backend's order |
| LibSync.LateRowSurvivesIffListed | internal/libsync/libsync.go:132-138 | with an older listing, a row that was not managed when the sync listed survives if and only if it was listed, and then as it was listed: later additions are deleted and later changes lost |
| LibSync.SyncBringsIntoStep | internal/libsync/libsync.go:120-140 | after a sync the managed rows are exactly one per backend library, as wanted |
| LibSync.SecondSyncCountsNothing | internal/libsync/libsync.go:120-140 | a sync of a table in step creates, updates and prunes nothing and keeps every row |
| LibSync.SecondSyncChangesNothing | internal/store/portal_library.go:76-129 | and leaves the table as it is |
| Requests.RequestStore.UpdateRequestStatus | internal/store/request.go:129-147 | the unguarded update with its COALESCE columns, dated once; the error of a missing row |
| Requests.RequestStore.AdvanceRequestStatus | internal/store/request.go:149-186 | the guarded update: terminal rows are left alone without error, missing ones are not found |
| Requests.RequestStore.HandleEvent | internal/consumer/handler.go:27-90 | which event changes what, and acknowledged unless unconfigured or a relevant write hit a database error |
| Requests.LeafName | internal/consumer/handler.go:48-54 | the part of the event name after its last dot |
| Requests.Reconcile | internal/scheduler/tasks.go:63-104 | the poll loop stores what the backend newly reports on the listed rows, a failed write leaving its row alone |
| Requests.TerminalIsFinal | internal/store/request.go:149-186 | no run of events and polls changes any column of a row that is fulfilled, failed, denied or cancelled |
| Requests.FirstVerdictWins | internal/store/request.go:149-186 | an open row ends terminal exactly when some report closes it, with the first such status |
| Requests.OpenRowEndsWith | internal/store/request.go:149-186 | column by column, where any run of reports leaves an open row: status and time of the last report before it closed, every id, reason and book the last one given that was not empty, dated when fulfilled, owner and denial untouched |
| Requests.EventsReport | internal/consumer/handler.go:42-90 | what each event reports, whatever prefix its name has: its status, and which of the payload's texts go with it; unknown events and changes without a status report nothing |
| Requests.PollBringsIntoStep | internal/scheduler/tasks.go:75-102 | a poll of a fresh listing gives every listed row, left alone for thirty seconds, the new status that the backend names for it, unless that write fails, and leaves every other row as it is |
| Requests.DeliveryOrderDoesNotMatter | internal/consumer/handler.go:56-89 | two deliveries of the same reports, in any order and number, agree on whether the row is closed, and on its status if all terminal reports agree |
| Requests.FinalStatusIsSureIff | internal/store/request.go:149-186 | every delivery of the same reports ends a closed row with the same status if and only if the terminal reports about it agree |
| Requests.FulfilledIsDated | internal/store/request.go:129-147 | a row that says fulfilled has its time, in every run with admin steps |
| Requests.OnceSetStaysSet | internal/store/request.go:129-186 | the fulfilment time is written at most once and set ids, reasons and books never become empty, in every run with admin steps |
| Requests.OnlyAdminsReopen | internal/server/admin_routes.go:86-130 | without an admin step on it a terminal row is unchanged by every run, user deletions included |
| Requests.AdminDecides | internal/server/admin_routes.go:86-130 | what an admin step does to a row of any status: submitting reopens it, denying and fulfilling by hand close it with their reason and book; a row is deleted if and only if its owner cancels it while it is pending |
| Requests.NewRequestCanBeCancelled | internal/store/request.go:192-202 | a new request is pending and its own user, and nobody else, can take it back, which leaves the table as it was |
| Requests.HearingIsReporting | internal/consumer/handler.go:56-89 | hearing reports one by one stores them, so what holds of runs of reports holds between any two admin steps |
| Requests.ColumnsComeFromTheRun | internal/consumer/handler.go:56-89 | over every run, a column of a row that changed holds what some action of the run gave it: statuses from reports and admin steps, external ids and failure reasons from reports, denial reasons from denials, books from reports and manual fulfilment |
| KindleQueue.CountIsNumberOfMarks | internal/scheduler/tasks.go:244-250 | counting the attempt marks left to right counts all their occurrences |
| KindleQueue.CountSuperadditive | internal/scheduler/tasks.go:244-270 | a concatenation has at least as many marks as its parts together |
| KindleQueue.RoundUsesUpAttempt | internal/scheduler/tasks.go:244-274 | whatever the error text, a round strictly lowers the rounds the row has left, or its status write is lost and counted |
| KindleQueue.RoundKeepsBounded | internal/scheduler/tasks.go:244-274 | a lost write buys at most one more try and one more mail, and nothing else does |
| KindleQueue.BatchIsTheOldest | internal/store/kindle.go:83-92 | a tick takes up the ten rows that have been queued longest, beyond thirty seconds, or all of them if there are fewer |
| KindleQueue.Queue.UpdateKindleSendStatus | internal/store/kindle.go:52-61 | status and error text of one row change, a missing row is ignored, and a failing statement changes nothing |
| KindleQueue.Queue.InsertKindleSend | internal/store/kindle.go:24-33 | a fresh queued row, unless the statement fails or the id exists |
| KindleQueue.Queue.RetryOne | internal/scheduler/tasks.go:244-274 | one round: the fourth gives up, the others try, and the write of the verdict may be lost |
| KindleQueue.Queue.Retry | internal/scheduler/tasks.go:231-275 | a tick is one round for each listed row in turn |
| KindleQueue.TickDoesWork | internal/scheduler/tasks.go:231-275 | over a tick the work left falls by one per listed row but for lost writes, and no other row is touched |
| KindleQueue.TriesAreBounded | internal/scheduler/tasks.go:244-274 | in every run, with rows coming in and writes lost, a row is tried at most three times more often than its writes are lost and mailed at most once more often; it is sent only if it was mailed, failed only with more than three marks on record, and never changed after either |
| KindleQueue.BoundsAreReached | internal/scheduler/tasks.go:244-274 | for every number of lost writes some run reaches both bounds, so the mails have no bound of their own |
| KindleQueue.ThreeFailuresAreRecorded | internal/scheduler/tasks.go:244-274 | three attempts that fail with errors free of the mark, each written down, and a fourth round leave the row failed, never mailed, with the three errors in order on record |
| KindleQueue.QueueEmpties | internal/store/kindle.go:83-92 | without new rows, as many ticks as there are rounds left and writes lost always empty an aged queue |
| RateLimiter.IpLimiter.Stamp | internal/server/ratelimit.go:73-82 | under the lock: the limiter of the key, a full new one if unknown, with its entry stamped |
| RateLimiter.IpLimiter.DrawFrom | internal/server/ratelimit.go:83-84 | after the lock: the decision of the limiter found before, and its bucket afterwards |
| RateLimiter.IpLimiter.Sweep | internal/server/ratelimit.go:86-99 | exactly the entries idle for more than ten minutes go, while requests keep their limiters |
| RateLimiter.StepKeepsRelated | internal/server/ratelimit.go:73-99 | over every stamp, draw and sweep, in any interleaving, a swept and an unswept limiter that differ only in full buckets decide alike and stay so |
| RateLimiter.SameDecisions | internal/server/ratelimit.go:73-99 | so they decide alike for ever, with any number of requests between stamp and draw |
| RateLimiter.JanitorIsInvisible | internal/server/ratelimit.go:33-99 | in every interleaving of requests and sweeps in which no request takes longer than 9 minutes 58 seconds from stamp to draw, the decisions are those of a limiter that never sweeps |
| RateLimiter.JanitorIsInvisibleIff | internal/server/ratelimit.go:33-99 | that bound, and a nanosecond, is exact: with any larger one some interleaving is decided differently |
| RateLimiter.AllowedAtMostRate | internal/server/ratelimit.go:33-45 | in t seconds of any interleaving a key is allowed at most its tokens plus 30 t requests, sweeps or none |
| RateLimiter.SixtyAndThirtyASecond | internal/server/ratelimit.go:33-45 | from the start a key is allowed at most sixty requests and thirty more a second |
| RateLimiter.AllowedIffRoom | internal/server/ratelimit.go:73-99 | in every interleaving, sweeps included, a request is allowed if and only if with it no stretch up to now has more than sixty allowed requests of its key and thirty more for each second of the stretch: nobody is refused without cause |
| CommandScore.Score | web/src/components/CommandPalette.tsx:45-68 | positive if and only if the lowered query is a subsequence of the lowered candidate; exact and prefix matches have their tiers, and other matches of at most 25 units stay below 500 |
| CommandScore.FuzzyScore | web/src/components/CommandPalette.tsx:51-67 | the loop's score is that of the greedy match: run lengths, word starts and misses |
| CommandScore.FuzzyMatches | web/src/components/CommandPalette.tsx:54-66 | the greedy match succeeds if and only if the rest of the query is a subsequence of the rest of the candidate |
| CommandScore.FuzzyBounded | web/src/components/CommandPalette.tsx:54-66 | a match scores at least one point per character and at most the score of one unbroken run of word starts |
| CommandScore.BrokenBounded | web/src/components/CommandPalette.tsx:54-66 | a match that is no prefix breaks its run at least once and scores 4 at most for that |
| CommandScore.TiersStayApartIff | web/src/components/CommandPalette.tsx:45-68 | matches of n units that are no prefix all score below the prefix tier if and only if n is at most 25 |
| CommandScore.GreedyStep | web/src/components/CommandPalette.tsx:55-57 | taking the first occurrence of the next character loses no match |
| CommandScore.SubsequenceHasPositions | web/src/components/CommandPalette.tsx:45-68 | a subsequence has increasing positions in the candidate |
| CommandScore.PositionsMakeSubsequence | web/src/components/CommandPalette.tsx:45-68 | and increasing positions make a subsequence |
| Streak.CurrentRun | internal/store/streak.go:63-77 | the length of the whole run at the newest day if that is today or yesterday, else 0 |
| Streak.LongestRun | internal/store/streak.go:79-90 | the length of a run than which none is longer |
| Streak.Compute | internal/store/streak.go:24-97 | both, with current at most longest at most the list length at most 365 |
| Streak.StreakIsUnique | internal/store/streak.go:61-90 | days and today determine both numbers |
| Streak.CurrentIsCut | internal/store/streak.go:31-37 | the current streak is that of the whole history, cut at 365 |
| Streak.LongestIsEverIff | internal/store/streak.go:18-37 | the longest streak is the longest ever recorded if and only if no longer run reaches past the 365 newest days |
| Streak.DailyReaderIsCut | internal/store/streak.go:18-37 | a reader of more than 365 days in a row is told 365 |
| Streak.ReadingTodayExtends | internal/store/streak.go:61-90 | reading today after a run up to yesterday adds one to the current streak and never shortens the longest |
| ShareLink.StepKeepsCap | internal/server/share_link_handler.go:92-110 | every step keeps uses so far plus uses under way below the cap plus the concurrency bound |
| ShareLink.CapOverrunBounded | internal/store/share_link.go:39-74 | with at most c resolutions in flight a positive cap is exceeded by at most c-1, so never for c = 1 |
| ShareLink.ExhaustedForEver | internal/store/share_link.go:43-59 | an exhausted link is never active again |
| ShareLink.ExpiredForEver | internal/store/share_link.go:43-59 | an expired link is never active again |
| ShareLink.OpensIff | internal/store/share_link.go:39-59 | a link opens at any time before its expiry, if it has one, while it has uses left, if they are counted; else it is expired or used up |
| ShareLink.LinkCloses | internal/store/share_link.go:39-121 | time closes a link at its expiry and not before, deleting it at once, and the purge takes exactly the expired ones and leaves the others as they were |
| ShareLink.SlugsStayUnique | internal/store/share_link.go:23-37 | in every run a slug belongs to one link at a time |
| ShareLink.NewLinkIsUsed | internal/server/share_link_handler.go:92-110 | a new link without expiry grants exactly as many uses, one at a time, as its cap says, and any number without a cap |
| ShareLink.GoneForEver | internal/store/share_link.go:96-109 | a deleted link never comes back |
| ShareLink.PurgeIsInvisible | internal/store/share_link.go:111-121 | whenever the purge runs, every later resolution of every slug succeeds or fails as it would have without it; it leaves no expired link, and every other as it was |
| ShareLink.LinkStore.GetActive | internal/store/share_link.go:39-59 | an active link of the slug, or none if the slug has none |
| ShareLink.LinkStore.Increment | internal/store/share_link.go:61-74 | one use more of that link only; false when it is gone |
| ShareLink.LinkStore.Resolve | internal/server/share_link_handler.go:92-110 | without interference access is granted exactly when the slug has an active link, with one use more, and no cap is exceeded |
| ShareLink.CapOverrunReached | internal/server/share_link_handler.go:92-110 | for every cap and c some run exceeds the cap by exactly c-1 |

## Left out

- Eviction.SweepLeavesNoOrphanFile: stated for a sweep that runs alone, because with fills beside it it is false; CacheOrphans.OrphansExactlyWhen is the exact condition there.
- CacheProtocol.RunKeepsCache: one sweep at a time, as the only caller of the sweep is the scheduled evictor (internal/scheduler/tasks.go:112-123); sweeps that overlap could unlink the file of a newer row of the same key.
- CacheProtocol.SuccessMeansReadyRow: conditional on the insert having taken effect, because the unconditional promise is false.
- Catalog.EveryBookExactlyOnce: backends answer from a fixed chain of pages; a catalogue that changes during the walk is not modelled.
- RateLimiter.JanitorIsInvisible: each step reads one clock that does not go back.
- SmartEval.StoredEvaluatesAsSubmitted: that JSON reads the stored definition back is assumed of that definition; float64 and its decimal text are not modelled.
- Panics inside a leader, wall clocks that go back, and several processes on one database.
- `golang.org/x/time/rate` is a standard token bucket that starts full, without rounding; `sort.SliceStable` and the shuffle are modelled by what they specify, the random draws being a parameter.
- SmartQuery.NormalizeIsIdempotent: text is ASCII, where lowering and trimming are written out; other letters are not modelled.
- SmartQuery.NormalizeSortIsIdempotent: text is ASCII, as above.
- SmartQuery.ValidIgnoresNormalization: text is ASCII, as above.
- SmartRules.TextOperatorsAre: text is ASCII, where case folding and lowering agree.
- In smart collections ratings and progress are real numbers without NaN or rounding, and `json.Number` values, which the default decoder never produces, do not occur.
- Sums of bytes on disk and other counters do not overflow 64 bits; page arithmetic and durations do, and are modelled so.
- The decimal text of a library id in a made-up library name comes with the library.
- Cover URL signing, bcrypt comparison, RFC 3339 parsing and the clock are parameters.
- The days of the streak query arrive as distinct midnights of one zone, newest first; the query itself and daylight saving are not modelled, and one clock reading serves for both today and yesterday.
- The cache evictor's own inline loop for a missing manager, transfer code generation, conversion, HTTP, authentication, mail and user interface.
- Which libraries a collection's ids select, and how their books are fetched before evaluation.
- Table columns that no modelled decision reads, and the plain create, read, update and delete tables (fonts, devices, preferences, goals, routing rules, configuration): easy members only.
