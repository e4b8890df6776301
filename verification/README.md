# GammaScope: verified models of its stateful cores

GammaScope collects option quotes, turns them into live snapshots, stores replays of them and
shows both in dashboards. Most of it is plumbing; underneath are a few stateful cores whose
promises span many calls. This project models those cores in Dafny and proves the promises.
`dafny verify dfyconfig.toml` checks everything.

| file | core |
|---|---|
| CollectorModel.dfy, LiveSnapshot.dfy, FrameMeaning.dfy, LiveSnapshotCache.dfy, CarryForward.dfy | the live snapshot pipeline: event fold, builder with its carry-forward memory, what a frame shows, cache |
| ImportRepository.dfy, ImportProtocol.dfy, ImportChecksums.dfy, ImportReads.dfy | replay imports: one atomic step per repository call, interleaved workers, checksums and sessions, the read side |
| LiveTransport.dfy | the browser's live transport: socket, polling fallback, reconnect timer |
| ReplayStore.dfy, ReplayCapture.dfy | captured snapshots, the derived session index, cleanup, the recorder |
| ImpliedVolatility.dfy | bisection for implied volatility, row analytics |
| FlowService.dfy, FlowEstimator.dfy, FlowMeaning.dfy | flow estimation: exactly-once volume, contract amounts, grouped totals |
| HeatmapExposure.dfy, ExposureNodes.dfy, NodeMeaning.dfy, HeatmapStore.dfy | exposure by strike, key strikes (server and browser), baselines and buckets |
| TerminalDensity.dfy | the discrete terminal density |
| LoginAttempts.dfy, LoginMeaning.dfy, ReplayPlayback.dfy | the bounded table of failed logins, playback stepping |
| Common.dfy | optional values, insertion-ordered tables, stable sorting, sums over groups |

Conventions. Timestamps are integers and floats are reals. exp, the pricing formulas, time zones
and bucketing are given functions, with only the hypotheses a lemma names. SQL tables are maps or
sequences, and a transaction is one step. A uuid is a number not drawn before; sha256 and the
session name derived from it are injective. Code that updates state is a class whose methods are
proved equal to a step function; the theorems about runs are about that function. Callbacks and
workers are steps of a state machine, in every order.

## Where a promise does not hold

The code is modelled as it is. Each of these has a concrete counterexample or an exact condition.

- A session whose id is `__dashboard__` shares the dashboard's cache entry: either query can be
  answered with what the other one found (`ReservedKeyTransparentIff`,
  `ReservedKeyCanAnswerWrongly`, `DashboardCanAnswerNothing`).
- A duplicate import is looked up by the checksums described first, and the archive stores the
  checksums described again; a file replaced in between makes two checksum pairs share a session
  (`OneSessionPerChecksumPairIff`, `AdoptionSoundIff`), and can give one pair two sessions
  (`SessionOfPairIff`, `ChangedFileSplitsChecksumPair`).
- After stop is called from inside the transport status listener a snapshot can still be applied,
  a status reported, or a poll loop or a socket left running (`StopFromListenerSilentIff`,
  `StopFromListenerLeaksIff`, `ListenerStopCanStillApply`, `ListenerStopCanStillReport`,
  `ListenerStopCanLeak`).
- A stream that comes back and repeats the last update is not reported as streaming
  (`StreamingReportedIff`, `StreamCanLookReconnecting`).
- The volatility solver accepts targets up to one tolerance outside the end prices but may then
  fail to solve them (`FringeTargetSolvedIff`, `AcceptedTargetCanFail`).
- An update that misses its id commits twice; between the commits the session row can have no
  snapshot (`MissedUpdateGapIff`, `MissedUpdateCanDisagree`).
- A snapshot with rows whose time does not parse is stored as the newest one. Volume next to it
  is not counted (`GapIff`, `UnparsableTimeCanLoseVolume`), and an older snapshot after it is
  accepted, so that volume is counted twice (`IntervalsInOrderIff`, `UnparsableTimeCanCountTwice`).
- A late arrival that comes with a still earlier snapshot of its caller moves the stored snapshot
  back, so that volume can be counted twice (`IntervalsInOrderIff`, `LateSuppliedCanCountTwice`).
  `CountedVolume` says by how much any run miscounts, and `VolumeCountedOnceIff` when it does not.
- While every other entry of a full login table is locked, failures of a new name leave no trace
  (`FailureRecordedIff`, `FailureCanLeaveNoTrace`).

## Model

| member | source | states |
|---|---|---|
| LiveSnapshotCache.CacheTransparent | apps/api/gammascope_api/ingestion/live_snapshot_service.py:52-68 | After every run of ingests, clears, captures and queries of any keys, a query of any session but the one named like the dashboard key is answered by what a rebuild from the current state and memory would give, and on a hit that rebuild would leave the memory as it is |
| LiveSnapshotCache.HitTransparentIff | apps/api/gammascope_api/ingestion/live_snapshot_service.py:52-68 | A hit is transparent exactly when the query that filled the entry and the one that hits it have the same frame in the current state |
| LiveSnapshotCache.HitIff | apps/api/gammascope_api/ingestion/live_snapshot_service.py:52-68 | In every run a query is answered from the cache exactly when its key was asked for since the collector last changed |
| LiveSnapshotCache.CaptureSettles | apps/api/gammascope_api/replay/capture.py:50-117 | After a capture every session it visits is settled: a rebuild shows what the capture stored and changes nothing |
| LiveSnapshotCache.SharedKeyAloneTransparent | apps/api/gammascope_api/ingestion/live_snapshot_service.py:37-50 | In a run that asks only one of the two queries sharing a key, that query is transparent too |
| LiveSnapshotCache.RunKeepsConsistent | apps/api/gammascope_api/ingestion/live_snapshot_service.py:52-68 | In every reachable system each cache entry built under the current identity is settled for the query that wrote it: rebuilding gives the same snapshot and changes nothing |
| LiveSnapshotCache.StepKeepsConsistent | apps/api/gammascope_api/ingestion/live_snapshot_service.py:52-68 | One ingest, clear, query or capture keeps every current cache entry settled, also entries of other keys whose sessions share the memory |
| LiveSnapshotCache.SameIdentitySameState | apps/api/gammascope_api/ingestion/live_snapshot_service.py:93-103 | Two points of one run at which the identity is equal have equal collector contents |
| LiveSnapshotCache.RunAdvances | apps/api/gammascope_api/ingestion/collector_state.py:20-45 | Epochs are never reused, and within an epoch an equal revision means an equal state |
| LiveSnapshotCache.OneFramePerSession | apps/api/gammascope_api/ingestion/live_snapshot.py:30-100 | However a session was asked for (by id, as the latest one, or by the dashboard), one state gives it one frame |
| LiveSnapshotCache.BuildKeepsSettled | apps/api/gammascope_api/ingestion/live_snapshot.py:124-163 | Building any session leaves a settled frame of any session settled: sessions are isolated in the memory |
| LiveSnapshotCache.RebuildSettles | apps/api/gammascope_api/ingestion/live_snapshot.py:30-105 | Right after its own rebuild, a session or dashboard query is settled |
| LiveSnapshotCache.ReservedKeyTransparentIff | apps/api/gammascope_api/ingestion/live_snapshot_service.py:37-50 | After every run, the dashboard query or the query of a session named like its key is transparent exactly when it misses, or hits an entry it wrote itself, or the dashboard shows that session or neither has anything to show |
| LiveSnapshotCache.ReservedKeyCanAnswerWrongly | apps/api/gammascope_api/ingestion/live_snapshot_service.py:37-50 | A possible run after which the session named like the dashboard key, never received, is answered with another session's snapshot |
| LiveSnapshotCache.DashboardCanAnswerNothing | apps/api/gammascope_api/ingestion/live_snapshot_service.py:37-50 | A possible run after which the dashboard is answered with nothing although a rebuild has a snapshot |
| LiveSnapshotCache.LiveSnapshotService.Query | apps/api/gammascope_api/ingestion/live_snapshot_service.py:37-68 | A query returns the cached snapshot on a hit and otherwise rebuilds; cache and memory change as the protocol step says, for every set of drawn epochs |
| LiveSnapshot.FinishIsFixedPoint | apps/api/gammascope_api/ingestion/live_snapshot.py:124-163 | Building the same frame twice gives the same snapshot and the same memory as building it once |
| LiveSnapshot.FinishMemory | apps/api/gammascope_api/ingestion/live_snapshot.py:124-163 | After a build the memory holds merged fields for exactly the built rows of the session, nothing else of that session, and every other session as before |
| LiveSnapshot.FinishReadsOwnSession | apps/api/gammascope_api/ingestion/live_snapshot.py:124-147 | Memories that agree on a session give the same snapshot and the same entries of that session |
| LiveSnapshot.PassPointwise | apps/api/gammascope_api/ingestion/live_snapshot.py:124-147 | In one pass each row is merged with what the memory held before the pass; no other key changes |
| LiveSnapshot.MergeIsStable | apps/api/gammascope_api/ingestion/live_snapshot.py:124-147 | Merging a row with what its first merge remembered gives the row again |
| LiveSnapshot.FrameRowsDistinct | apps/api/gammascope_api/ingestion/live_snapshot.py:47-83 | A frame never has two rows of one contract |
| LiveSnapshot.AnalyticsMemory.Apply | apps/api/gammascope_api/ingestion/live_snapshot.py:124-147 | Fills a row's missing fields from memory, refreshes its differences and remembers any field that is present |
| LiveSnapshot.AnalyticsMemory.PruneSession | apps/api/gammascope_api/ingestion/live_snapshot.py:159-163 | Drops exactly the keys of the session that are not active |
| LiveSnapshot.AnalyticsMemory.BuildLiveSnapshot | apps/api/gammascope_api/ingestion/live_snapshot.py:30-100 | The build loop with its early exits returns the snapshot, and leaves the memory, of the pure build |
| LiveSnapshot.AnalyticsMemory.BuildDashboardSnapshot | apps/api/gammascope_api/ingestion/live_snapshot.py:103-105 | The dashboard build tries the fixed session first and then any; memory changes by both attempts |
| FrameMeaning.FrameExistsIff | apps/api/gammascope_api/ingestion/live_snapshot.py:30-100 | A state shows a frame exactly when it has a health report, an underlying of the requested or the newest session with a positive spot, and a ticked contract of that session |
| FrameMeaning.FrameShows | apps/api/gammascope_api/ingestion/live_snapshot.py:30-121 | The frame has the expiry of the session's most recently ticked contract (by tick time, contract time, expiry); its rows are exactly the session's ticked contracts of that expiry, in ascending strike with calls first, each with its own tick and analytics; session, symbol, spot, time, status, forward and discount are the source's |
| FrameMeaning.SnapshotShows | apps/api/gammascope_api/ingestion/live_snapshot.py:30-147 | A build shows a snapshot exactly when there is something to show: the frame, with every row's own fields, and differences that are the shown custom value less the broker's exactly when both are there |
| FrameMeaning.DashboardShows | apps/api/gammascope_api/ingestion/live_snapshot.py:103-105 | The dashboard shows its fixed session whenever that has something to show, and else the newest one |
| CollectorModel.StateHoldsLastEvents | apps/api/gammascope_api/ingestion/collector_state.py:20-45 | After any events since a clear the tables hold, for every collector, contract and session, the last event about it and nothing else; the revision counts the events and the last event time is the last one's |
| CollectorModel.IngestKeepsWellKeyed | apps/api/gammascope_api/ingestion/collector_state.py:29-45 | Every event leaves each table with one entry per key, filed under the key its value names |
| CollectorModel.LatestIsItsSessionsTick | apps/api/gammascope_api/ingestion/collector_state.py:67-77 | The latest tick over all sessions is the tick stored for its own session |
| CollectorModel.CollectorState.Ingest | apps/api/gammascope_api/ingestion/collector_state.py:29-45 | An event is folded into its table, the revision goes up by one and the last event time becomes its time |
| CollectorModel.CollectorState.Clear | apps/api/gammascope_api/ingestion/collector_state.py:20-27 | Everything is empty, the revision is zero and the epoch is the fresh one |
| CarryForward.CarryForwardMeaning | apps/api/gammascope_api/ingestion/live_snapshot.py:124-163 | Over any run of builds, the memory of a contract is the last successful solve of its unbroken active streak, else the streak's first raw fallback, else nothing |
| CarryForward.SnapshotRowsShowCarried | apps/api/gammascope_api/ingestion/live_snapshot.py:124-147 | Every row shows its contract's carried result, all three fields of one computation or none |
| CarryForward.MergePicksOne | apps/api/gammascope_api/ingestion/live_snapshot.py:227-252 | Field-by-field merging of whole results picks one of them: values of two computations are never mixed |
| ImpliedVolatility.SolveImpliedVolatility | apps/api/gammascope_api/analytics/black_scholes.py:197-230 | Whatever the loop returns lies in [SIGMA_MIN, SIGMA_MAX] and reprices the target within tolerance |
| ImpliedVolatility.SolverUsesAtMost31Iterations | apps/api/gammascope_api/analytics/black_scholes.py:214-226 | Over the reals every budget of at least 31 iterations gives the result of 31 |
| ImpliedVolatility.BracketedTargetIsSolved | apps/api/gammascope_api/analytics/black_scholes.py:197-230 | A target between the end prices of an L-Lipschitz price with L * 1e-8 <= tolerance is always solved, to half the tolerance; monotonicity is not needed |
| ImpliedVolatility.BracketConverges | apps/api/gammascope_api/analytics/black_scholes.py:214-226 | Bisection keeps the bracket, so its last probe misses the target by no more than the price changes over half the width limit |
| ImpliedVolatility.FringeTargetSolvedIff | apps/api/gammascope_api/analytics/black_scholes.py:205-230 | An accepted target outside the end prices of a nondecreasing price is solved exactly when the price one last half-step inside the range is within tolerance |
| ImpliedVolatility.AcceptedTargetCanFail | apps/api/gammascope_api/analytics/black_scholes.py:205-230 | For every price that strictly increases in volatility and every positive tolerance, the two outermost accepted targets are never solved |
| ImpliedVolatility.UsableRowIsSolved | apps/api/gammascope_api/analytics/black_scholes.py:122-184 | A usable quote in the model's scope, not below the discounted payoff, whose mid lies between the end prices of a price with Lipschitz bound L and L * 1e-8 <= tolerance, is always solved, with the differences to the broker's values |
| ImpliedVolatility.RefusedRowIff | apps/api/gammascope_api/analytics/black_scholes.py:122-165 | Missing quote, invalid quote, out of scope, below intrinsic and out of bounds are each the status exactly under their own condition on quote, inputs, payoff and end prices |
| ImpliedVolatility.RowAnalyticsAllOrNothing | apps/api/gammascope_api/analytics/black_scholes.py:122-184 | Volatility, gamma and vanna are all present exactly when the status is ok, all at one volatility in [0.0001, 8.5] that reprices the mid; otherwise all are absent; a difference is there exactly with both its values |
| ImportProtocol.EveryStepMovesAlongEdges | apps/api/gammascope_api/replay/import_repository.py:431-481 | In every interleaving of any number of workers each step moves each status along a lifecycle edge or leaves it |
| ImportProtocol.FinalStatusesStay | apps/api/gammascope_api/replay/import_repository.py:877-903 | Completed, cancelled and failed imports keep their status for ever, completed ones also their session |
| ImportProtocol.CompletedImportsNameSessions | apps/api/gammascope_api/replay/import_repository.py:483-600 | In every interleaving a completed import names an existing session, and a published session was published by exactly one completed import |
| ImportProtocol.RunKeepsConsistent | apps/api/gammascope_api/replay/importer.py:33-220 | Throughout a run, every session a worker is about to adopt exists |
| ImportProtocol.ChangedFileSplitsChecksumPair | apps/api/gammascope_api/replay/importer.py:36-112 | A possible run that ends with two completed imports of equal checksums and different sessions |
| ImportProtocol.LoneConfirmation | apps/api/gammascope_api/replay/importer.py:121-213 | Confirmed undisturbed, a waiting import ends completed with the session it adopted at its creation, or else with that of a completed import of its checksums if there is one; otherwise it publishes its own session, unless files, rows or an existing session prevent it, and then ends failed |
| ImportProtocol.AloneIsARun | apps/api/gammascope_api/replay/importer.py:33-220 | What a worker left alone does is a run of the whole system in which only it takes steps |
| ImportProtocol.LoneCreation | apps/api/gammascope_api/replay/importer.py:33-116 | Created undisturbed, an import of good files awaits confirmation under the session of a completed import of the described checksums, which it adopts, or without one under that of its archived checksums; bad files leave it failed |
| ImportProtocol.ReplayParquetImporter.ConfirmImport | apps/api/gammascope_api/replay/importer.py:121-213 | Leaves the tables, and returns the status, that one worker of the protocol leaves when it runs from its first read to its end alone |
| ImportProtocol.ReplayParquetImporter.CancelImport | apps/api/gammascope_api/replay/importer.py:215-220 | Leaves the tables that one cancelling worker alone leaves: an import read in an early status ends cancelled with nothing else changed; any other is left as it is and its status returned |
| ImportChecksums.OneSessionPerChecksumPairIff | apps/api/gammascope_api/replay/importer.py:36-112 | In every interleaving, completed imports share a session exactly with those of equal checksums if and only if no completed import adopted a session and then archived another file than it had described |
| ImportChecksums.OneSessionPerChecksumPair | apps/api/gammascope_api/replay/importer.py:36-112 | While no file changes behind an import that adopted a session (others may change), a completed import has the session of its checksums |
| ImportChecksums.SessionOfPairIff | apps/api/gammascope_api/replay/importer.py:36-112 | For every checksum pair, in every interleaving and whatever strayed elsewhere, its completed imports all have its session exactly when those whose changed file brought them to it had adopted that very session |
| ImportChecksums.UnstrayedSessionsMatch | apps/api/gammascope_api/replay/importer.py:36-112 | A completed import has the session of its checksums unless a changed file brought some completed import to them |
| ImportChecksums.StrayedSharesSession | apps/api/gammascope_api/replay/importer.py:36-112 | A completed import whose adopted file changed shares its session with a completed import of other checksums, whatever else happened |
| ImportChecksums.AdoptionSoundIff | apps/api/gammascope_api/replay/importer.py:70-112 | While the completed imports of the described checksums are sound, an adopting import that archives its files and ever completes has the session of its checksums exactly when the files are those it described |
| ImportChecksums.RunKeepsTied | apps/api/gammascope_api/replay/importer.py:33-220 | In every interleaving an import is built by one worker about which no other holds values, and once offered an adopting import has the adopted session and the archived checksums |
| ImportRepository.CallsFollowEdges | apps/api/gammascope_api/replay/import_repository.py:431-481 | Every repository call succeeds from exactly the statuses with a lifecycle edge to its own, with the new row it writes; only a failed import may fail again, and publication needs a session not there yet |
| ImportRepository.InsertSnapshotsMeaning | apps/api/gammascope_api/replay/import_repository.py:535-569 | Inserting snapshots succeeds exactly when no key is taken or repeated; then each is stored under its key and nothing else changes |
| ImportRepository.InsertQuotesMeaning | apps/api/gammascope_api/replay/import_repository.py:571-581 | Inserting succeeds exactly when no key is taken or repeated; then each quote is stored under its key, nothing else changes and the table grows by their number |
| ImportRepository.PublicationSucceedsIff | apps/api/gammascope_api/replay/import_repository.py:483-600 | Publication succeeds exactly when the import is publishing, its session is new and no snapshot or quote has a taken or repeated key; then it is completed, its session is there and its rows are stored and counted |
| ImportRepository.BatchStep | apps/api/gammascope_api/replay/import_repository.py:571-581 | A batch that cannot be inserted fails the whole sequence; one that can extends what is stored in order |
| ImportRepository.ReplayImportRepository.PublishImport | apps/api/gammascope_api/replay/import_repository.py:483-600 | However the 5,000-row batches fall, all quotes are stored in order and counted once; on any failure every table is as before |
| ImportRepository.ReplayImportRepository.InsertQuoteBatches | apps/api/gammascope_api/replay/import_repository.py:571-581 | Full batches and the rest together store what inserting all quotes at once would, and fail exactly when it would |
| ImportRepository.ReplayImportRepository.TransitionRow | apps/api/gammascope_api/replay/import_repository.py:877-903 | Moves one locked row from the expected status, or changes nothing |
| ImportRepository.ReplayImportRepository.Fail | apps/api/gammascope_api/replay/import_repository.py:448-464 | Fails any import but a completed or cancelled one |
| ImportRepository.ReplayImportRepository.Cancel | apps/api/gammascope_api/replay/import_repository.py:466-481 | Cancels from uploaded, validating or awaiting confirmation only |
| ImportRepository.ReplayImportRepository.SaveSummary | apps/api/gammascope_api/replay/import_repository.py:407-429 | Replaces the adopted session of an existing import and nothing else |
| ImportReads.NearestLookupRefinesScan | apps/api/gammascope_api/replay/import_repository.py:707-756 | The better of two one-sided index lookups is a least row by (distance, source order) over the whole session, and with distinct source orders the very row a scan finds |
| ImportReads.NaiveNearestIsLeast | apps/api/gammascope_api/replay/import_repository.py:1069-1082 | The reference scan returns a least row by (distance, source order) |
| ImportReads.BulkGroupEqualsSingleFetch | apps/api/gammascope_api/replay/import_repository.py:939-975 | Each snapshot's group in any bulk result is, in order, what fetching that snapshot alone returns |
| ImportReads.GroupQuotes | apps/api/gammascope_api/replay/import_repository.py:965-975 | Every requested snapshot gets its quotes in query order, those without quotes an empty list |
| ImportReads.StreamSnapshots | apps/api/gammascope_api/replay/import_repository.py:758-820 | A stream has exactly the snapshots from the named one, from the given time, or of the session, in source order, each with the quotes of its single fetch |
| ImportReads.OrderedListingUnique | apps/api/gammascope_api/replay/import_repository.py:912-937 | One strict order and one set of rows leave one listing |
| LiveTransport.TransportInvariant | apps/web/lib/snapshotUpdates.ts:36-128 | Over every interleaving of callbacks, while not stopped: exactly one of a live socket and a pending reconnect timer; without a live socket exactly one active poll loop that is kept going; never two of either; neighbouring applied snapshots differ in key |
| LiveTransport.PollsWhileBroken | apps/web/lib/snapshotUpdates.ts:60-128 | In every run, while not stopped, a poll loop is active exactly when a live socket went down, or none could be opened, after the stream last delivered (at the start: without a WebSocket) |
| LiveTransport.DeliveryEndsPolling | apps/web/lib/snapshotUpdates.ts:104-114 | After a parsed message of a live socket no loop is active and none is held, whenever it comes and whatever the listener does |
| LiveTransport.AppliedExactlyNewUpdates | apps/web/lib/snapshotUpdates.ts:60-69 | In every run a snapshot is applied exactly when a live socket or an active loop delivers it and its mode, session, expiry, row count or whole second differs from the last applied one; exactly these, falls of live sockets and the timer are reported |
| LiveTransport.StreamingReportedIff | apps/web/lib/snapshotUpdates.ts:60-69 | A stream that delivers is reported as streaming exactly when it delivers something new or was so reported last |
| LiveTransport.StreamCanLookReconnecting | apps/web/lib/snapshotUpdates.ts:60-114 | A reachable state in which the stream has delivered again and nothing polls, but the status is still reconnecting |
| LiveTransport.RunsStaySound | apps/web/lib/snapshotPolling.ts:12-49 | Every reachable transport satisfies the inductive invariant over sockets, loops, timer and stop functions |
| LiveTransport.StepKeepsSound | apps/web/lib/snapshotStream.ts:58-87 | Each callback keeps the invariant, also stale ones of closed sockets and stopped loops |
| LiveTransport.NothingAfterStop | apps/web/lib/snapshotUpdates.ts:119-127 | After stop, whatever callbacks still arrive, nothing is applied, reported, opened or scheduled |
| LiveTransport.StopFromListenerSilentIff | apps/web/lib/snapshotUpdates.ts:60-114 | After a stop from inside a status report nothing more is applied, reported, opened, scheduled or left running exactly when a socket went down while a loop polled, or the report was the second of its callback |
| LiveTransport.StopFromListenerLeaksIff | apps/web/lib/snapshotUpdates.ts:82-114 | Such a stop leaves something running exactly when a socket goes down while nothing polls or the reconnect timer opens a socket |
| LiveTransport.QuietStopIsFinal | apps/web/lib/snapshotUpdates.ts:60-114 | Once such a callback has ended with nothing left running, nothing happens for ever |
| LiveTransport.ListenerStopCanLeak | apps/web/lib/snapshotUpdates.ts:97-102 | A reachable state in which the listener's stop leaves a poll loop going |
| LiveTransport.ListenerStopCanStillApply | apps/web/lib/snapshotUpdates.ts:60-69 | A reachable state in which a snapshot is applied after the listener stopped, with nothing left running |
| LiveTransport.ListenerStopCanStillReport | apps/web/lib/snapshotUpdates.ts:88-102 | A reachable state in which a second status is reported after the listener stopped |
| LiveTransport.LiveSnapshotUpdates.OnMessage | apps/web/lib/snapshotUpdates.ts:104-114 | A parsed message of a live socket ends polling and is applied if its key is new, also if the listener stops at its report; other messages change nothing |
| LiveTransport.LiveSnapshotUpdates.OnDown | apps/web/lib/snapshotUpdates.ts:97-102 | A first failure of a live socket closes it, starts polling unless it runs and schedules one reconnect unless the listener stopped |
| LiveTransport.LiveSnapshotUpdates.OnReconnectTimer | apps/web/lib/snapshotUpdates.ts:82-95 | The timer opens one new stream unless stopped before; the listener may stop at either report |
| LiveTransport.LiveSnapshotUpdates.OnPollTimer | apps/web/lib/snapshotPolling.ts:15-23 | A due poll starts one load |
| LiveTransport.LiveSnapshotUpdates.OnLoadSettled | apps/web/lib/snapshotPolling.ts:25-41 | A settled load of an active loop applies its snapshot and schedules the next poll unless the listener stopped; of a stopped loop, nothing |
| LiveTransport.LiveSnapshotUpdates.StopUpdates | apps/web/lib/snapshotUpdates.ts:119-127 | Clears the timer, closes the stream and ends the loop |
| ReplayStore.IndexAlwaysAgrees | apps/api/gammascope_api/replay/repository.py:118-185 | After every run of inserts, updates, deletes, cleanups and imports, each session row has the least time, greatest time and number of its snapshots (or is an import without any), and every snapshot has its session row |
| ReplayStore.SessionsShowLastLabel | apps/api/gammascope_api/replay/repository.py:384-412 | After every run each session shows the symbol, expiry and source written for it last, by an insert, an update or the import that made it |
| ReplayStore.InsertStores | apps/api/gammascope_api/replay/repository.py:118-142 | An insert stores its snapshot last under the next id, labels its session and leaves the other sessions |
| ReplayStore.UpdateStores | apps/api/gammascope_api/replay/repository.py:144-185 | An update overwrites the snapshot of its id in its place, labels the new session, and leaves the old one with its label or, without another snapshot, removes it; without such a snapshot it is an insert |
| ReplayStore.TimeBounds | apps/api/gammascope_api/replay/repository.py:414-440 | The least and greatest times of the index bound every snapshot's time and are each some snapshot's |
| ReplayStore.InsertAgrees | apps/api/gammascope_api/replay/repository.py:118-142 | An insert keeps the index in agreement |
| ReplayStore.UpdateAgrees | apps/api/gammascope_api/replay/repository.py:144-185 | So does an update, also one that moves a snapshot to another session or misses its id |
| ReplayStore.MissedUpdateGapIff | apps/api/gammascope_api/replay/repository.py:144-185 | Between the two commits of an update that misses its id the index agrees exactly when the target session already had snapshots, or the new row poses as an import |
| ReplayStore.MissedUpdateCanDisagree | apps/api/gammascope_api/replay/repository.py:144-185 | In an empty store every missed update of a captured snapshot opens that gap |
| ReplayStore.DeleteAgrees | apps/api/gammascope_api/replay/repository.py:302-306 | Deleting a session with its snapshots keeps agreement |
| ReplayStore.DeletedSessionIsGone | apps/api/gammascope_api/replay/repository.py:302-306 | A deleted session is gone with its snapshots; every other session keeps its row and its snapshots in order |
| ReplayStore.ImportStores | apps/api/gammascope_api/replay/import_repository.py:483-534 | A published import gets its session row, marked as imported, unless the session is there; captured snapshots are untouched |
| ReplayStore.CleanedAgrees | apps/api/gammascope_api/replay/repository.py:308-377 | A cleanup of any sessions at any cutoff keeps agreement |
| ReplayStore.CleanupRemovesWhatItPredicts | apps/api/gammascope_api/replay/repository.py:308-377 | The counts taken before deletion are the snapshots and sessions actually removed; exactly the matching snapshots before the cutoff go; sessions without captured snapshots are untouched |
| ReplayStore.RemovedAreDoomed | apps/api/gammascope_api/replay/repository.py:331-350 | Delete-then-refresh removes exactly the sessions the prediction query selects |
| ReplayStore.SecondCleanupIsIdle | apps/api/gammascope_api/replay/repository.py:308-377 | A second cleanup at the same cutoff predicts nothing and changes nothing |
| ReplayStore.ReplayRepository.InsertSnapshot | apps/api/gammascope_api/replay/repository.py:118-142 | Upsert, insert and refresh, returning the new serial id |
| ReplayStore.ReplayRepository.UpdateSnapshot | apps/api/gammascope_api/replay/repository.py:144-185 | Overwrites in place and refreshes both sessions, or falls back to an insert; returns the id stored under |
| ReplayStore.ReplayRepository.RefreshAll | apps/api/gammascope_api/replay/repository.py:374-375 | Refreshing sessions one by one, in any order, gives the same table |
| ReplayStore.ReplayRepository.CleanupBefore | apps/api/gammascope_api/replay/repository.py:308-377 | Counts first; a dry run changes nothing, otherwise the expired rows go and the affected sessions are refreshed |
| ReplayStore.RetentionCleanup.CleanupAtomically | apps/api/gammascope_api/maintenance/retention.py:86-171 | One transaction whose effect on the replay tables, and counts, are those of an unrestricted cleanup, whatever happens to saved views |
| ReplayCapture.StoredFramesAreCompacted | apps/api/gammascope_api/replay/capture.py:21-47 | After any run of captures over any sessions, a session's frames in id order are its accepted snapshots whose successor came at least an interval later, plus the last one |
| ReplayCapture.CaptureMeaning | apps/api/gammascope_api/replay/capture.py:21-47 | In every store: no snapshot, one not live and one without rows are refused as such; another is stale exactly when a newer one of its session is stored, inserted exactly when all stored ones are an interval older, and otherwise overwrites the latest |
| ReplayCapture.StoredFramesAreSpaced | apps/api/gammascope_api/replay/capture.py:21-47 | Stored times never go back, neighbours are at least the interval apart, and no usable snapshot offered is newer than the last frame |
| ReplayCapture.CaptureStep | apps/api/gammascope_api/replay/capture.py:21-47 | One usable capture appends, overwrites the tail or is ignored in its own session, and touches no other |
| ReplayCapture.LatestIsLast | apps/api/gammascope_api/replay/repository.py:187-202 | The row latest by (time, id) is the session's last stored row |
| ReplayCapture.CaptureAgrees | apps/api/gammascope_api/replay/capture.py:21-47 | Captures keep the session index in agreement |
| ReplayCapture.ReplayCaptureRecorder.CaptureSnapshot | apps/api/gammascope_api/replay/capture.py:21-47 | The recorder's branches: refusals change nothing, otherwise one insert or one overwrite |
| ReplayCapture.ReplayCaptureRecorder.CaptureEach | apps/api/gammascope_api/replay/capture.py:50-106 | Each outcome is what capturing that snapshot after the earlier ones gives |
| FlowService.CallMeaning | apps/api/gammascope_api/experimental_flow/service.py:32-60 | One call compares with the later of the stored and the supplied snapshot that have rows and an earlier time, stores its snapshot, and stores and answers a comparison with rows; without a predecessor it is refused if the stored one is as late, and else stored; without rows it changes nothing |
| FlowService.PairsAreLinks | apps/api/gammascope_api/experimental_flow/service.py:32-60 | For every run, caller-supplied snapshots included, the compared pairs are those of the chain the calls alone determine, the stored snapshot is its end and the stored payload the last one with rows |
| FlowService.IntervalsInOrderIff | apps/api/gammascope_api/experimental_flow/service.py:32-60 | For every run, accepted times strictly advance and no compared interval begins before an accepted snapshot it follows, exactly when no late arrival is compared with a supplied snapshot and nothing old is accepted or supplied while the stored time does not parse |
| FlowService.NeverBackNeverTwice | apps/api/gammascope_api/experimental_flow/service.py:171-197 | In every run that never goes back so, the counted volume of a contract whose volume never falls in time is at most its increase from the start of the first interval to the end of the last |
| FlowService.ComparedPairsFormAChain | apps/api/gammascope_api/experimental_flow/service.py:32-60 | With parsable times and snapshots supplied only while a session has none, each interval begins where the one before ended, whatever duplicates and late arrivals come |
| FlowService.CountedVolume | apps/api/gammascope_api/experimental_flow/service.py:171-197 | For every run and volumes that rise and fall, what is counted is the increase from the first volume to the last, less what gaps between intervals skip and more by what overlaps repeat |
| FlowService.VolumeCountedOnceIff | apps/api/gammascope_api/experimental_flow/service.py:171-197 | Without overlaps the count is never too great, and right exactly without gaps; without gaps it is never too small, and right exactly without overlaps |
| FlowService.VolumeCountedExactlyOnce | apps/api/gammascope_api/experimental_flow/service.py:171-197 | With parsable times and snapshots supplied only while a session has none, the summed volume deltas are the last volume minus the first exactly when the volume never falls from one accepted snapshot to the next |
| FlowService.GapIff | apps/api/gammascope_api/experimental_flow/service.py:171-197 | In every run without supplied snapshots the gaps are the increases next to an accepted snapshot whose time does not parse, and the overlaps are the falls of the volume |
| FlowService.UnparsableTimeCanLoseVolume | apps/api/gammascope_api/experimental_flow/service.py:40-48 | A run of three snapshots with rising volume, the second of unparsable time, in which nothing is counted |
| FlowService.UnparsableTimeCanCountTwice | apps/api/gammascope_api/experimental_flow/service.py:40-48 | A run without supplied snapshots, at times 1, 5, unparsable, 3 and 5, in which 6 are counted of an increase of 4 |
| FlowService.LateSuppliedCanCountTwice | apps/api/gammascope_api/experimental_flow/service.py:171-186 | A run in which a late arrival with a supplied snapshot makes the counted volume twice the real increase |
| FlowService.PairCountsIncrease | apps/api/gammascope_api/experimental_flow/estimator.py:137-152 | A pair counts a contract's volume increase, and a fall as zero |
| FlowService.FlowMemory.BuildLatest | apps/api/gammascope_api/experimental_flow/service.py:32-60 | The stateful builder follows the step function, caller-supplied snapshots included |
| FlowEstimator.TradesAgainstQuotes | apps/api/gammascope_api/experimental_flow/estimator.py:21-38 | Against an uncrossed previous quote a trade at or above its ask buys and one at or below its bid sells; what that quote leaves open the current quote decides in the same way |
| FlowEstimator.TradesInsideQuotes | apps/api/gammascope_api/experimental_flow/estimator.py:40-49 | A trade inside both quotes never counts in full; it is weak in the direction in which the mark moved |
| FlowEstimator.StrikeRowsConserveTotals | apps/api/gammascope_api/experimental_flow/estimator.py:255-302 | Buy, sell and premium over strike rows add up to the summary, as do the nullable delta and gamma sums |
| FlowEstimator.AbsentTotalsIff | apps/api/gammascope_api/experimental_flow/estimator.py:305-317 | A delta or gamma total is absent exactly when every contributor is |
| FlowEstimator.StrikeRows | apps/api/gammascope_api/experimental_flow/estimator.py:255-284 | Strictly ascending strikes, one row for each strike that has contracts, each the totals of its contracts |
| FlowEstimator.GroupContracts | apps/api/gammascope_api/experimental_flow/estimator.py:255-260 | The dict holds each strike's contracts in order |
| FlowEstimator.SumNullable | apps/api/gammascope_api/experimental_flow/estimator.py:305-317 | The running nullable sum is the total over the monoid in which None is neutral |
| FlowEstimator.EstimateFlow | apps/api/gammascope_api/experimental_flow/estimator.py:137-152 | Summary and strike rows of the valid rows' contract flows |
| FlowEstimator.SignedFlowBounded | apps/api/gammascope_api/experimental_flow/estimator.py:52-114 | Signed contracts are bounded by the volume delta and point the way the aggressor does; premium is positive exactly for priced buys |
| FlowEstimator.GreekFlowsDefinedIff | apps/api/gammascope_api/experimental_flow/estimator.py:97-110 | Delta, gamma and vanna flow exist exactly with their greek and a positive spot, and have the sign of signed volume times greek |
| FlowEstimator.AggressorMonotone | apps/api/gammascope_api/experimental_flow/estimator.py:21-49 | A higher last price never makes a trade look less like a buy, crossed quotes included |
| FlowMeaning.FlowsMeaning | apps/api/gammascope_api/experimental_flow/estimator.py:52-152 | One flow for each usable row, in order, against the last usable previous row of its contract: volume gained, side, signed volume, premium at the first positive price, and dollars of delta, gamma, vanna and theta, each by its formula |
| FlowMeaning.SummaryMeaning | apps/api/gammascope_api/experimental_flow/estimator.py:287-317 | In the summary bought less sold is the signed volume of all contracts and bought plus sold its size; premium, delta and gamma are the contracts' sums, and the dealers' pressure is against the gamma |
| FlowMeaning.StrikeMeaning | apps/api/gammascope_api/experimental_flow/estimator.py:255-302 | The same holds for every strike row, with calls and puts apart |
| HeatmapExposure.AggregateExposureByStrike | apps/api/gammascope_api/heatmap/exposure.py:36-79 | One row per strike in strictly ascending order, holding the six totals of its contracts and exactly the tags some contract of it deserves |
| HeatmapExposure.ExposureConserved | apps/api/gammascope_api/heatmap/exposure.py:36-79 | Each row's gex and vex is calls plus puts, and the rows' sums are those over the contracts with complete inputs |
| HeatmapExposure.OneContractRow | apps/api/gammascope_api/heatmap/exposure.py:36-79 | A single contract's row: open interest times gamma times the squared spot, and times vanna times a hundred spots, negative for puts; nothing but tags for incomplete inputs |
| HeatmapExposure.AddContract | apps/api/gammascope_api/heatmap/exposure.py:48-77 | Adding one contract to its row turns the totals and tags of a group into those of the group with it |
| HeatmapExposure.TagInputs | apps/api/gammascope_api/heatmap/exposure.py:51-63 | Tags are added once each, and an input is missing exactly when the contract is incomplete |
| ExposureNodes.DerivationsAgree | apps/web/components/ExposureHeatmap.tsx:531-576 | For every list of finite rows, spot and metric, browser and server name the same king, kings and walls, ties included |
| ExposureNodes.PercentilesCoincide | apps/web/components/ExposureHeatmap.tsx:560-576 | The browser's 80th percentile is the server's |
| ExposureNodes.WallsAgree | apps/web/components/ExposureHeatmap.tsx:637-645 | The nearest strike above the spot is the least one, the nearest below the greatest, the same entry on ties |
| ExposureNodes.KingReachesThreshold | apps/api/gammascope_api/heatmap/nodes.py:31-62 | The king is a greatest exposure, reaches the threshold, and off the spot has a wall on its side no farther than itself |
| ExposureNodes.PercentileInRange | apps/api/gammascope_api/heatmap/normalization.py:13-28 | A percentile lies between the least and the greatest value |
| ExposureNodes.PercentileMonotone | apps/api/gammascope_api/heatmap/normalization.py:13-28 | It grows with the percentage |
| ExposureNodes.PercentileIgnoresOrder | apps/api/gammascope_api/heatmap/normalization.py:13-28 | It does not depend on the order of the values |
| ExposureNodes.BestIsFirst | apps/web/components/ExposureHeatmap.tsx:617-635 | The chosen entry is the first of those with the greatest score |
| ExposureNodes.RankedRows | apps/api/gammascope_api/heatmap/nodes.py:72-80 | The loop keeps, in order, the rows whose value is not zero |
| NodeMeaning.NodesMeaning | apps/api/gammascope_api/heatmap/nodes.py:31-80 | The king is the first row of greatest size, the signed kings the first of greatest and of least value, and the walls the rows next to the spot whose size reaches the 80th percentile of the sizes; each is missing exactly when no row qualifies |
| NodeMeaning.PercentileIsPercentile | apps/api/gammascope_api/heatmap/normalization.py:13-28 | A percentile stands at its rank between two neighbours of the ascending values, linearly interpolated |
| NodeMeaning.PercentIsClamped | apps/api/gammascope_api/heatmap/normalization.py:13-28 | A percentage beyond its range counts as the end it passed |
| TerminalDensity.MassTelescopesIff | apps/api/gammascope_api/experimental/distribution.py:42-52 | The width-weighted mass is at least growth times (last slope - first slope), and equal exactly when the call prices are convex in the strike |
| TerminalDensity.ParabolaDensity | apps/api/gammascope_api/experimental/distribution.py:42-54 | Where call prices follow a parabola the density is exact at every inner strike, at that strike: twice the leading coefficient, times growth |
| TerminalDensity.MassIsAtMostOne | apps/api/gammascope_api/experimental/distribution.py:42-52 | With convex prices and slopes in [-exp(-rate*tau), 0] the mass lies in [0, 1] |
| TerminalDensity.ClampIdleIff | apps/api/gammascope_api/experimental/distribution.py:48-52 | The clamp leaves a density as it is exactly where the slope does not fall |
| TerminalDensity.CleanFitPoints | apps/api/gammascope_api/experimental/distribution.py:126-138 | Strictly ascending positive strikes, each with the last usable volatility written for it |
| TerminalDensity.CleanedMeaning | apps/api/gammascope_api/experimental/distribution.py:126-138 | A point is among the cleaned ones exactly when it is the last positive volatility written for its positive strike |
| TerminalDensity.CleanedIsUnique | apps/api/gammascope_api/experimental/distribution.py:126-138 | That description leaves one list |
| TerminalDensity.BuildDensity | apps/api/gammascope_api/experimental/distribution.py:42-54 | A density exists exactly for three or more increasing strikes, and is the clamped second difference at each inner strike |
| TerminalDensity.TerminalDistribution | apps/api/gammascope_api/experimental/distribution.py:32-54 | A density exists exactly with a positive forward and expiry and three cleaned points: on those the strictly-increasing check never fails |
| LoginAttempts.LockedUntilDeadline | apps/web/lib/adminSession.ts:218-283 | A locked key is refused at every time before its deadline, whatever failures of any keys come in between, unless its own success clears it |
| LoginAttempts.RunKeepsBound | apps/web/lib/adminSession.ts:247-279 | After every run, on any clock, the table holds at most 64 entries and an entry is locked exactly from its third failure on |
| LoginAttempts.EnforcedOnce | apps/web/lib/adminSession.ts:247-265 | One eviction is enough, and it takes the oldest unlocked entry |
| LoginAttempts.AllLockedIff | apps/web/lib/adminSession.ts:247-265 | An overfull table is all locked exactly on a negative clock with every other live entry locked |
| LoginAttempts.AllLockedBranchUnreachable | apps/web/lib/adminSession.ts:257-263 | On a clock not below zero the branch that gives up the newest entry is never taken |
| LoginAttempts.FailureRecordedIff | apps/web/lib/adminSession.ts:267-279 | A failure stays on record unless the key is new to a full table whose other live entries are all locked |
| LoginAttempts.FailureCanLeaveNoTrace | apps/web/lib/adminSession.ts:247-279 | A run from the empty table that locks 64 names, after which a failure of a new name changes nothing |
| LoginAttempts.LockedFromThirdFailureIff | apps/web/lib/adminSession.ts:267-279 | A recorded failure refuses the key at once exactly when it is the third on record or later, and then for the full time |
| LoginAttempts.LoginAttemptTable.RecordFailure | apps/web/lib/adminSession.ts:267-279 | Prune, count, lock and evict, as one table function |
| LoginAttempts.LoginAttemptTable.Prune | apps/web/lib/adminSession.ts:231-241 | Deleting while iterating removes exactly the expired entries |
| LoginAttempts.LoginAttemptTable.EnforceLimit | apps/web/lib/adminSession.ts:247-265 | The eviction loop computes the limit function |
| LoginAttempts.FindAfterDelete | apps/web/lib/adminSession.ts:281-283 | After a success the name has no record, and every other name has the one it had |
| LoginAttempts.LoginAttemptTable.RecordSuccess | apps/web/lib/adminSession.ts:281-283 | A success is the success step of the runs; it leaves exactly the other names' entries, in their order, and its own name is allowed at every time |
| LoginMeaning.FailureMeaning | apps/web/lib/adminSession.ts:231-279 | A failure forgets the expired names, counts itself under its own name in its place or last, and beyond 64 names evicts the first that is not locked; a record has one failure more than was live, and is locked for five minutes from the third on |
| LoginMeaning.SameKeyIff | apps/web/lib/adminSession.ts:225-229 | Two names share a record exactly when their first 80 characters are equal; the empty name has a key of its own |
| ReplayPlayback.TickMeaning | apps/web/lib/replayPlayback.ts:11-51 | Whatever the times, a tick goes to the next frame from one of unknown time or before one that is not later, and else to the first that is speed seconds later, or the last |
| ReplayPlayback.ClampMeaning | apps/web/lib/replayPlayback.ts:122-128 | Any number is an index: its whole part, kept within the frames, and the first frame without one |
| ReplayPlayback.TickMovesOn | apps/web/lib/replayPlayback.ts:11-51 | Every tick moves on until the last frame, even with unparsable or unsorted times, and stays there |
| ReplayPlayback.PlaybackFinishes | apps/web/lib/replayPlayback.ts:11-51 | n frames are played within n - 1 ticks |
| ReplayPlayback.PlaybackKeepsPace | apps/web/lib/replayPlayback.ts:11-51 | On increasing times k ticks reach the last frame or pass at least k ticks' worth of time |
| ReplayPlayback.TickIsFirstReaching | apps/web/lib/replayPlayback.ts:40-50 | On increasing times a tick stops at the first frame that is a tick's worth of time later |
| ReplayPlayback.JumpIsClosest | apps/web/lib/replayPlayback.ts:53-100 | On nondecreasing times a jump lands on a closest frame and never against its direction |
| ReplayPlayback.NextReplayPlaybackIndex | apps/web/lib/replayPlayback.ts:11-51 | The scan computes the tick function, for any index value |
| ReplayPlayback.JumpReplayTimelineIndex | apps/web/lib/replayPlayback.ts:53-100 | With unparsable times skipped, the scan finds a closest frame, the last of several going forward and else the first |
| HeatmapStore.BaselineMeaning | apps/api/gammascope_api/heatmap/repository.py:129-141 | After any run a key holds the first locked arrival, else the latest of those with the greatest source time |
| HeatmapStore.RecordsMeaning | apps/api/gammascope_api/heatmap/repository.py:129-141 | After any run of records a key holds its first locked record, or without one the latest of those made last, with every field as it came and the missing times filled in |
| HeatmapStore.WinnerIsUnique | apps/api/gammascope_api/heatmap/repository.py:129-141 | That description names one arrival |
| HeatmapStore.RulesAgree | apps/api/gammascope_api/heatmap/repository.py:218-237 | The in-memory rule and the SQL conflict rule leave the same table after every run |
| HeatmapStore.LockedIsFinal | apps/api/gammascope_api/heatmap/repository.py:135-137 | A locked baseline never changes again |
| HeatmapStore.BucketsHoldLastSnapshot | apps/api/gammascope_api/heatmap/repository.py:157-191 | Each five-minute bucket holds the last snapshot saved into it, with that snapshot's id and current payload |
| HeatmapStore.SavedAreLast | apps/api/gammascope_api/heatmap/repository.py:157-180 | Each session, time and mode holds the payload saved for it last, and nothing else is saved |
| HeatmapStore.BucketsAreLast | apps/api/gammascope_api/heatmap/repository.py:180-191 | Each bucket of a session and mode holds the payload saved into it last, and there are no other buckets |
| HeatmapStore.IdsAreStable | apps/api/gammascope_api/heatmap/repository.py:166-173 | Ids are unique, without gaps, and a key keeps its id through every run |
| HeatmapStore.InMemoryHeatmapRepository.UpsertBaselines | apps/api/gammascope_api/heatmap/repository.py:129-141 | Records are applied in order, and each result is what its key held right after it |
| HeatmapStore.InMemoryHeatmapRepository.UpsertSnapshot | apps/api/gammascope_api/heatmap/repository.py:157-191 | A snapshot and its bucket are saved under one id, new or kept |

## Left out

- CacheTransparent: is about every session but one named `__dashboard__`; for that session and for the dashboard itself, which shares its key, `ReservedKeyTransparentIff` states exactly when they are answered correctly.
- OneSessionPerChecksumPair: assumes that no file changes behind an import that adopted a session; `OneSessionPerChecksumPairIff` is the statement for every run.
- NothingAfterStop: is about a stop from outside a status report; `StopFromListenerSilentIff` covers stops from inside one.
- VolumeCountedExactlyOnce: assumes parsable times, and supplied snapshots only while the session has none; `CountedVolume` and `VolumeCountedOnceIff` are the statements for all runs.
- NeverBackNeverTwice: bounds the count by the volume at the compared times; what an unparsable snapshot lists is not part of it, because no interval begins or ends there.
- IndexAlwaysAgrees: treats an update that misses its id as one operation; its two commits are the subject of `MissedUpdateGapIff`.
- SaveSummary: keeps of a validation only the adopted session; its summary, warnings and errors steer nothing.
- CaptureEach: takes the snapshots of the live sessions as given; the choice of sessions, the combined report and the failure cooldown are one-branch wrappers around it.
- StrikeRows: leaves out the averaged opening and closing scores, the confidence label and the tags of a strike row.
- TerminalDistribution: leaves out the ranges, tails and the label of the highest density, which only read the density and the probability levels.
- DerivationsAgree: is over finite rows and exact arithmetic. For a row with an infinite or undefined strike the server drops the row and the browser keeps it, and in floating point 80 / 100 and 0.8 may round differently.
- MassTelescopesIff: takes the call prices as given; that Black-76 prices of a fitted smile are convex is a property of the smile.
- JumpIsClosest: a jump by zero may still move among frames of the same time.
- EstimateFlow: leaves out diagnostics, confidence labels, opening and closing scores and the tags of strike rows, which are one-branch results of the same inputs.
- Floating-point rounding, NaN and infinity, and the values of exp, log and erf.
- HTTP routes, payload validation, Redis and Postgres connections, failure cooldowns. A publishing transaction that fails is one step that changes nothing.
- The parquet reader, the archive directories and the identity check of imports; a read is a choice of success or failure.
- `cached_or_memory_collector_state`, `from_snapshot` and the reset functions: the cache theorem is about one collector history.
- `freshness_ms`, time zones and the calendar: the lock test and the bucket of a time are parameters.
- The replay flow payload and its validation table, colour norms, probability levels and ranges, skew.
- The SQL form of heatmap snapshots and buckets; its serial numbers may have gaps that the in-memory ids do not have.
- A WebSocket constructor that throws. The snapshot key is a tuple where the browser joins texts with a separator.
- Concurrent recorders on one replay session, and the list queries over sessions and timestamps.
- Cookies, signatures and CSRF in adminSession.ts; user names are taken as already trimmed and in lower case.
- IBKR and Moomoo clients, React components, chart geometry and formatting.
