# cc-otel: the request pool, the merge engine and what runs beside them

cc-otel receives OpenTelemetry records from several LLM clients, stores one row per request in
`api_requests`, and keeps `daily_model_agg`, a cache of that table grouped by day, model and client.
Histories from other databases and from a legacy Codex archive are merged into the same tables. This
project models that core as Dafny state machines and classes, and proves what the rest of the program
relies on:

* **The cache never drifts.** Live inserts, Codex anchors, every branch of a Codex completion, latency
  updates, import batches and rebuilds keep the cache equal to its GROUP BY, over every run
  (`Rows`, `Aggregate`, `Pool`, `Completion`, `Repository`, `Runs`, `ServiceNames`, `Traces`); what each writer does
  to each column of each row is said in `Effects`.
* **Importing is a join.** Scanning, staging, counting, fan-out, delta maps, ledger and verification, with
  real batch splitting; idempotence, commutation, crash equivalence, preview bounds, and what the live writers
  can take away from it (`Batches`, `Merge`, `MergeSoundness`, `MergeEngine`, `Previews`, `Records`, `Containment`).
* **The auto-import and purge of the Codex archive** survive a crash between any two transactions of any
  number of boots, beside any other writer (`Tokens64`, `AutoImport`, `AutoImportSafety`, `Daemon`,
  `OtherWriters`, `Strays`).
* **Completions reach their own row** when several requests are in flight on either transport, and replays
  change nothing (`SpanTracker`, `Dispatch`, `Routing`, `Traces`, `Completion`).
* **The import slot and the writer bus** exclude what they should, in every interleaving (`ImportJobs`).
* **Identities, prices, repricing and range figures**: the hashed bytes decode, no price depends on a map
  order, a recompute agrees with ingestion and survives crashes and live writers, and the dashboard equals
  the direct sums, each figure of its own column (`IdentityCodec`, `Pricing`, `Prices`, `Recompute`, `Ranges`,
  `Columns`).

A transaction is one atomic step: it commits, or it rolls back and changes nothing (`Busy`, `fails`). Code
that updates state in place is a class with methods, each proved against a function of the old state; the laws are
lemmas about those functions. The day of a timestamp, the local midnight, the clock, the payload estimate of a
row and the price of a model are parameters.

Findings, where the code does less than its comments or callers assume:

* A service name of white space is folded into `claude-code` by every incremental writer but kept by the rebuild
  statement. Over any run of all writers the cache is right exactly when no request with such a name was stored
  since the last rebuild, and no later step makes up for one (`ServiceNames.CacheIsRightExactly`,
  `ServiceNames.StepAgreesExactly` for one transaction, an import batch among them).
* A completion charges its whole cost to the cache, so it is right exactly when the row it finalizes cost
  nothing (`Completion.CompleteKeepsAgreement`). Nothing in that function checks it; the price of zero tokens
  does (`Recompute.PricedCompletionIsAllowed`).
* A replayed completion can finalize another pending row of the same session and model
  (`Completion.ReplayCanTakeAnotherRow`).
* A websocket request shares the tracker and has no row. Its completion finalizes the newest pending row of its
  session and model, and the completion of the request that owns that row is then skipped
  (`Traces.SocketCompletionTakesRow`). `Traces.CompletionIsRightExactly` says when any completion is right: the
  row id found for it, or without a row the newest pending row of its session and model, must be its own
  request's or, if it has none, no request's.
* A record imported before can be inserted a second time, because two writers rewrite the tuple that identifies
  it: a completion (`Containment.CompletionCanLoseARecord`) and a duration written to a row that already has
  tokens (`Containment.DurationCanLoseARecord`). `Containment.CompletionLosesExactly` and `DurationLosesExactly`
  say when one step does it. Over whole runs a record is safe exactly if enough of its rows are immovable
  (`Containment.StaysContainedExactly`): rows with a request id, of another table or client, or with tokens and
  a duration that is set or that no writer can set.
* A verification always cuts its source by the default limits, an import may be told to cut it smaller, and then
  a verification of what was just imported can fail (`Previews.OtherBatchingCanFail`). It succeeds exactly when
  the target had enough of each record or some one imported batch asked for enough (`Previews.VerifiesExactly`).
* The upload preview can promise more rows than the import inserts (`Previews.UploadPreviewCanPromiseTooMuch`):
  where no identity spans two batches, exactly when a row counted as new shares its tuple with a row with a
  request id that an earlier batch inserts (`Previews.UploadPreviewExceedsExactly`).
* The alias index depends on Go's random map order exactly when two entries of the deciding layer claim one
  alias (`Pricing.IndexOrderMatters`).
* Recompute checks for imports and migrations, but neither checks for recompute (`ImportJobs.OverlapBegins`).
* An inspection can run beside a migration, which the gate of the upload is there to prevent. It begins in
  exactly two ways (`ImportJobs.MeetingBegins`): an upload past its gate completes while a migration runs
  (`ImportJobs.InspectionCanMeetMigration`), or a job under inspection is deleted, which frees the slot before
  the inspection has ended (`ImportJobs.DeletedInspectionCanMeetMigration`).
* The recorded ranges are meant to hold exactly what the auto-import added. After a failed import the listeners
  start, and a live Codex request stored before the next boot lies above the old snapshot: a month later the
  purge deletes it (`Strays.LiveRowIsPurged`). `Strays.PurgeTakesExactly` says which rows the purge takes.
* The clock-jump guard of the purge fires only if the clock goes back a month between two readings, where
  midnight is monotone (`AutoImportSafety.FutureMarkerIsNeverDue`).

## Model

| member | source | states |
|---|---|---|
| Rows.FoldingsAgree | internal/db/repository.go:138-143 | The two foldings of a service name, by the writers and by the rebuild SQL, agree exactly on names that are empty or not all white space |
| Aggregate.GroupByOfAppend | internal/db/db.go:52-68 | Adding a request to the table moves the GROUP BY by one upsert into the request's own group, keys and all six sums |
| Aggregate.AppendKeepsAgreement | internal/db/repository.go:499-514 | A writer's upsert keeps the cache equal to the GROUP BY if and only if the service name folds the same both ways |
| Aggregate.FinalizeKeepsAgreement | internal/db/codex_repository.go:382-428 | Upserting a completion's full vector keeps the cache equal to the GROUP BY if and only if the finalized row had contributed nothing but its count |
| Aggregate.ReplaceKeepsGroupBy | internal/db/db.go:52-68 | Rewriting columns outside the six sums and the group leaves the whole GROUP BY unchanged |
| Columns.GroupByShows | internal/db/db.go:52-68 | The GROUP BY has a group for a day, model and client exactly if a request has them, and shows as its six sums the plain sums of its input, output, cache read, cache creation and cost columns and the number of its requests |
| Pool.InsertKeepsAgreement | internal/db/repository.go:462-517 | A live insert keeps the cache right if and only if it is ignored as a duplicate or its service name is clean |
| Pool.InsertKeepsSound | internal/db/repository.go:462-517 | It also keeps ascending ids, unique non-empty request ids and free pending rows |
| Pool.InsertWithSpanKeepsSound | internal/db/repository.go:526-584 | So does an insert that takes the first-token time of a waiting trace span and marks the span processed |
| Pool.InsertTwice | internal/db/repository.go:462-486 | Redelivering a request with a request id, whatever else it carries, changes nothing |
| Effects.TakesTheClosest | internal/db/repository.go:535-571 | The span a request takes waits under its own id if any does, else belongs to its session and model and ended within two minutes, and none ended closer |
| Effects.InsertChanges | internal/db/repository.go:462-517 | A live insert adds the request, with that span's time where it had none, marks the span, and changes nothing else |
| Effects.KnownIdChangesNothing | internal/db/repository.go:462-486 | One whose request id is stored changes no row, span or cache entry |
| Effects.CodexInsertStores | internal/db/codex_repository.go:81-118 | A Codex insert stores every column as given but client and prompt |
| Pool.DurationFillsOneRow | internal/db/codex_repository.go:490-550 | A duration is written to the exact row if there is one, else to the newest that lacks one, only where it is still zero, and nowhere else |
| Pool.TtftFillsOneRow | internal/db/codex_repository.go:552-609 | The same for a first-token time, which skips failed requests |
| Effects.TurnChanges | internal/db/codex_repository.go:618-650 | A turn's first output changes exactly the latest request of its conversation and model in the hour before that has not failed and has no first-token time |
| Pool.LatencyKeepsSound | internal/db/codex_repository.go:490-650 | The three latency writers keep the cache and every other invariant of the pool |
| RepositoryModule.Repository.InsertRequest | internal/db/repository.go:462-517 | The transaction as it runs, INSERT OR IGNORE, the first-token time of a waiting trace span, which is marked processed, and the upsert, has the specified effect and reports whether it stored a row |
| RepositoryModule.TakenSpan | internal/db/repository.go:535-571 | The two queries find a waiting span under the request's own id, else one of its session and model within two minutes, and of these one that ended closest to it; -1 if and only if there is none |
| RepositoryModule.Repository.InsertCodexRow | internal/db/codex_repository.go:81-118 | The Codex insert has the specified effect on a row tagged codex, and returns its id or 0 |
| RepositoryModule.Repository.UpdateCodexTokens | internal/db/codex_repository.go:192-428 | Every branch of the completion transaction ends in the specified state; false exactly for a fallback insert |
| RepositoryModule.Repository.UpdateCodexRequestDuration | internal/db/codex_repository.go:490-550 | Exact row, else the newest eligible row; fills once; reports whether a row was found |
| RepositoryModule.Repository.UpdateCodexRequestTtft | internal/db/codex_repository.go:552-609 | The same for the first-token time |
| RepositoryModule.Repository.UpdateCodexTurnTtft | internal/db/codex_repository.go:618-650 | The turn's observation goes to the latest anchor of its conversation in the hour before it; applied if and only if there is one |
| RepositoryModule.Repository.RebuildDailyAggregates | internal/db/repository.go:417-434 | The rebuild leaves exactly the GROUP BY of the stored rows |
| Completion.CompleteKeepsAgreement | internal/db/codex_repository.go:192-428 | A completion keeps the cache right if and only if the row it finalizes, if any, cost nothing |
| Completion.CompleteKeepsSound | internal/db/codex_repository.go:192-428 | With no charge on a zero vector, every branch keeps the cache, the ids and the free pending rows |
| Completion.CompleteTouchesOneRow | internal/db/codex_repository.go:213-428 | At most one stored row changes, it was waiting for this session and model, and at most one row is added |
| Effects.CompletionChanges | internal/db/codex_repository.go:213-428 | For every stored row: it is completed, in its six counters, cost, duration and first-token time, exactly if it is the row the id names or, if the id names none, the newest of the half hour before that waits, and has no usage; otherwise it stays |
| Effects.CompletionAdds | internal/db/codex_repository.go:256-345 | A row is added exactly if no row is such and none of the 31 minutes before to a minute after holds the same usage; it holds all the completion carries |
| Completion.DeliveryIsNoop | internal/db/codex_repository.go:213-417 | A delivery changes nothing if and only if its exact row is finalized, or it has none, nothing waits and a twin is stored |
| Completion.FirstDeliverySettles | internal/db/codex_repository.go:213-417 | The first delivery, pinned, fallback or orphan, leaves a state in which a replay has nothing to do |
| Completion.ReplaysAreIdempotent | internal/db/codex_repository.go:213-417 | Any number of redeliveries, with or without the row id and duration the tracker adds, leaves the whole database as the first left it, given no other waiting row and a finalized time in the replay window |
| Completion.ReplayCanTakeAnotherRow | internal/db/codex_repository.go:239-345 | Without that condition a replay finalizes another request's row |
| Runs.StepKeepsSound | internal/dbmerge/import.go:170-241 | Each committed transaction of each writer keeps all invariants of the pool |
| Runs.CacheNeverDrifts | internal/db/db.go:47-68 | After every step of every run from the empty database, cache equals GROUP BY and request ids are unique |
| Runs.RebuildIsInvisible | internal/db/repository.go:417-434 | A rebuild after any run changes nothing |
| Runs.RunRemembers | internal/db/codex_repository.go:192-428 | No run of live writers and imports deletes a row, changes its id or request id, or moves it to another group; a pending span can only become processed |
| Runs.RunKeepsCharged | internal/db/codex_repository.go:213-237 | Once a request has tokens no live writer changes anything of it but latencies |
| ServiceNames.StepAgreesExactly | internal/db/repository.go:138-143 | One transaction of any writer, an import batch among them, keeps a right cache right if and only if it stores no request with a blank, non-empty service name |
| ServiceNames.CacheIsRightExactly | internal/db/db.go:47-68 | After any run that charges nothing without tokens the cache is right if and only if no such request was stored since the last rebuild |
| Containment.CompletionLosesExactly | internal/db/codex_repository.go:213-428 | A completion makes a contained record uncontained if and only if it finalizes one of its rows, changes that row's tuple, and no row of it was to spare |
| Containment.DurationLosesExactly | internal/db/codex_repository.go:490-550 | A duration does so if and only if it is written to a row of it, which lacked one, and none was to spare |
| Containment.OthersLoseNothing | internal/dbmerge/stage.go:216-258 | No other transaction does |
| Containment.StaysContainedExactly | internal/dbmerge/stage.go:216-258 | A record is contained after every run of allowed transactions if and only if at least as many of its rows are immovable as it needs |
| Containment.ContainedBesideLiveWriters | internal/dbmerge/stage.go:216-258 | So a contained record that is not a request without a request id stays contained beside every writer |
| Containment.CompletionCanLoseARecord | internal/dbmerge/stage.go:216-258 | From the empty database: an imported pending request is inserted again by a second import after its completion |
| Containment.DurationCanLoseARecord | internal/db/codex_repository.go:490-550 | So is an imported request with tokens after a duration is written to it |
| Batches.Scanner.Take | internal/dbmerge/batch.go:83-112 | One row extends the open batch or flushes it first, keeping digest index, counts and bytes of the open batch |
| Batches.ScanBatches | internal/dbmerge/batch.go:52-117 | The scan hands out exactly the specified batches, in order, the last one included |
| Batches.ChunksPartition | internal/dbmerge/batch.go:52-117 | The batches partition the stream in order; each is non-empty, of one table, within the row limit and within the byte limit unless it is one row, and could not have taken the next row |
| Batches.AskedLimitsHold | internal/dbmerge/batch.go:58-63 | Every batch keeps the limits asked for, or 10000 rows and 128 MiB where none or more is asked for; only a single row may exceed the bytes |
| Batches.CollapseCounts | internal/dbmerge/batch.go:93-112 | A batch holds each identity of its rows once, as its first row, with the exact number of rows carrying it; the counts sum to the source rows |
| MergeSoundness.ScanIsGood | internal/dbmerge/batch.go:52-117 | Every batch of a scan of absorbable rows is fit to be merged |
| MergeSoundness.CandidateComesFrom | internal/dbmerge/batch.go:52-117 | Every staged candidate is a row of the source |
| Merge.BatchIsContained | internal/dbmerge/stage.go:216-258 | After a batch commits every identity it staged is contained in the target, whatever the identity kinds |
| Merge.ImportIsContained | internal/dbmerge/import.go:239-258 | Every identity of every committed batch is contained at the end of the import and after any later appends, so no check after a commit can fail |
| Merge.BatchJoins | internal/dbmerge/stage.go:264-307 | One batch raises an uncrossed identity to the larger of what was there and what it asks for |
| Merge.ImportJoins | internal/dbmerge/stage.go:264-381 | Over a whole import the final count is the larger of the count before and the largest count any one batch asked for, not their sum |
| Merge.NothingCrossesPlainSources | internal/dbmerge/stage.go:282-307 | Identities by request id, and all identities of a source without request ids, are uncrossed |
| Merge.ImportAppends | internal/dbmerge/stage.go:343-381 | No import changes or removes a stored row |
| Merge.ImportsCommute | internal/dbmerge/import.go:46-109 | Two imports in either order leave equal counts of every uncrossed identity |
| Merge.ResumePast | internal/dbmerge/import.go:72-99 | Restarting from the first batch after a crash passes over what is committed and continues where it stopped |
| Merge.CrashesDoNotMatter | internal/dbmerge/import.go:72-163 | After any number of interrupted attempts, a full run leaves tables, cache, id counters and ledger keys of one uninterrupted import, for every identity kind |
| Merge.AttemptsAdvance | internal/dbmerge/import.go:72-163 | Interrupted attempts alone leave the state of the furthest one |
| Merge.SecondImportIsNoop | internal/dbmerge/import.go:46-109 | A second full import changes nothing at all |
| Records.IdentitiesAreRecords | internal/dbmerge/identity.go:21-52 | Two rows have one identity if and only if they are of one table and agree in the request id or, where neither has one, in timestamp, session, prompt, event sequence, model, input, output and duration of a request, in session, model, end and time of a span, in the cells of any other row |
| Records.EveryRecordIsStored | internal/dbmerge/stage.go:216-258 | After an import, whatever is appended later, every source row has a stored row with its request id or, if it has none, with those columns |
| Records.ChunkIsStored | internal/dbmerge/stage.go:264-307 | A row without a request id is stored at least as often as its batch repeats it |
| Records.NewRowsAreSourceRows | internal/dbmerge/stage.go:343-381 | Every row an import adds is a row of the source, in all columns |
| Records.DigestReadsTheIdentity | internal/dbmerge/identity.go:21-52 | The identity the merge joins on and the one the digest is computed from are equal for the same pairs of rows, each column read under its own name |
| MergeSoundness.UniqueMeansAtMostOne | internal/db/db.go:259 | The unique index, restated as a bound on identity counts |
| MergeSoundness.BatchKeepsSound | internal/dbmerge/import.go:170-241 | A committed batch keeps cache, ids, free pending rows, and the unique index although its INSERT does not ignore conflicts |
| MergeSoundness.ImportKeepsSound | internal/dbmerge/import.go:46-109 | So does a whole import, at every commit |
| MergeEngine.DeltasAddUp | internal/dbmerge/aggregate.go:36-125 | Collecting deltas per key and adding them after equals upserting row by row |
| MergeEngine.CollectDeltas | internal/dbmerge/aggregate.go:36-81 | The delta loop sums exactly the rows about to be inserted |
| MergeEngine.ApplyDeltas | internal/dbmerge/aggregate.go:83-125 | Applying the deltas key by key, in any order, adds the whole map |
| MergeEngine.NewRows | internal/dbmerge/stage.go:383-419 | The tally join yields each candidate as often as it was marked, in staging order |
| MergeEngine.WriteLedger | internal/dbmerge/stage.go:421-429 | The ledger gains the batch's identities and keeps every older entry |
| MergeEngine.CommitBatch | internal/dbmerge/import.go:170-241 | The transaction has the specified effect and inserts exactly the counted number of rows |
| MergeEngine.RunStagedBatch | internal/dbmerge/import.go:170-266 | Scanned is inserted plus duplicates, no staged identity is missing after the commit, and the identities verified are those not seen before |
| MergeEngine.RunImport | internal/dbmerge/import.go:46-109 | The whole import has the specified effect for the batches that committed, stops only where a commit fails, and its totals are the source rows, the growth of the table and the distinct identities |
| MergeEngine.SeenStore.AddBatch | internal/dbmerge/inspect.go:61-122 | Returns exactly the digests not stored before, and stores them |
| MergeEngine.FirstCandidates | internal/dbmerge/batch.go:119-135 | Keeps exactly the candidates seen for the first time, in order |
| MergeEngine.InspectUpload | internal/dbmerge/inspect.go:146-229 | The upload preview counts each identity in its first batch only |
| MergeEngine.InspectMigration | internal/dbmerge/codex_to_all.go:390-462 | The migration preview counts every batch against the untouched target, rows read and rows new for each target table |
| MergeEngine.Verify | internal/dbmerge/verify.go:24-99 | Succeeds if and only if every first candidate is contained, and then verified the distinct identities |
| Previews.MigrationPreviewIsUpperBound | internal/dbmerge/codex_to_all.go:424-457 | The migration preview never promises fewer rows than the import inserts, for any source |
| Previews.PreviewsBracketImport | internal/dbmerge/inspect.go:174-223 | Upload preview, rows inserted, migration preview are in this order for every uncrossed source, and equal when no identity spans two batches |
| Previews.PlainSourcePreviews | internal/dbmerge/inspect.go:174-223 | A source whose rows carry no request id is such a source, however it is cut |
| Previews.UploadPreviewExceedsExactly | internal/dbmerge/inspect.go:174-223 | Where no identity spans two batches the upload preview never is below what is inserted, and above it if and only if some row counted as new shares its tuple with a row with a request id that an earlier batch inserts |
| Previews.UploadPreviewCanPromiseTooMuch | internal/dbmerge/batch.go:23-33 | Two large spans with one tuple, cut by the preview's own limits, are such a source |
| Previews.ImportedSourceVerifies | internal/dbmerge/verify.go:43-99 | Verifying an imported source with the same batches succeeds, whatever was appended since |
| Previews.ContainedAfterImport | internal/dbmerge/stage.go:216-258 | After an import a record is contained if and only if the target had enough of it or some one batch asked for enough |
| Previews.VerifiesExactly | internal/dbmerge/verify.go:24-99 | After an import any batches it does not cross verify if and only if each first candidate needs no more than the target had or some one imported batch asked for |
| Previews.OtherBatchingCanFail | internal/dbmerge/verify.go:43-99 | Two equal rows without a request id, of any size that lets both into one batch, imported one per batch, fail a verification by the default limits |
| Previews.VerifiedOnce | internal/dbmerge/verify.go:43-99 | The verified total is the number of distinct identities of the source |
| Tokens64.UncachedInputIsExact | internal/db/tokens.go:12-36 | For all 64-bit counters: the saturating formula is the true difference floored at zero if and only if no difference runs over the top, which only negative cache counters can cause |
| Tokens64.RawInputIsRecoverable | internal/db/tokens.go:12-36 | The reported input is the sum of the stored parts if and only if nothing ran over the top and it includes the cached parts |
| Tokens64.NoUsageStaysNone | internal/receiver/codex_parser.go:599-625 | The normalized vector is zero if and only if the reported one is |
| Tokens64.UsageKeepsItsCategories | internal/receiver/codex_parser.go:576-625 | Each reported category is stored under its own name, the cached part taken out of the input, the total the client's own or input and output |
| Tokens64.UnifiedArchiveIsShaped | internal/dbmerge/codex_to_all.go:227-388 | Every transformed archive row goes to a target table, tagged codex, without a request id |
| Tokens64.UnifiedKeepsColumns | internal/dbmerge/codex_to_all.go:263-285 | Every archived column of a request is found under its own name, the cached part taken out of the input |
| Tokens64.ArchiveAgreesWithLive | internal/dbmerge/codex_to_all.go:24-27 | The archive stores the usage the live path would have stored |
| Tokens64.UnifiedKeepsEvents | internal/dbmerge/codex_to_all.go:287-388 | Archived events keep their cells in the table of their kind |
| AutoImportSafety.RangesExactly | cmd/cc-otel/autoimport.go:180-189 | The recorded ranges contain an id if and only if it lies after the snapshot and up to the highest id |
| AutoImportSafety.MarkerCoversEveryAttempt | cmd/cc-otel/autoimport.go:123-199 | Over any boots, crashes, failed imports and other writers: once the marker exists its ranges contain every surviving row any attempt committed, and exactly those if no one else wrote since the first snapshot |
| AutoImportSafety.PurgedMeansRepaired | cmd/cc-otel/autoimport.go:204-266 | A stale cache means an unpurged marker; a purged marker means a right cache and no committed row left |
| AutoImportSafety.DueBootRepairs | cmd/cc-otel/autoimport.go:91-109 | The next due boot finishes the purge from wherever an earlier one stopped |
| AutoImportSafety.DueAfterThirtyDays | cmd/cc-otel/autoimport.go:91-93 | An import is due thirty days of midnights after it was recorded |
| AutoImportSafety.PurgedIsFinal | cmd/cc-otel/autoimport.go:91-109 | After the flip no boot changes the disk again |
| AutoImportSafety.OnlyCodexIsPurged | cmd/cc-otel/autoimport.go:233-252 | Nothing but the purge deletes, and never a request of another service or a row outside the ranges |
| AutoImportSafety.PurgeKeeps | cmd/cc-otel/autoimport.go:233-252 | The purge keeps exactly the rows that are not purgeable |
| AutoImportSafety.ResumedImportIsWhole | cmd/cc-otel/autoimport.go:140-199 | However often it crashed, when the marker is about to be written the database is that of one uninterrupted import |
| AutoImportSafety.FutureMarkerIsNeverDue | cmd/cc-otel/autoimport.go:219-221 | Where midnight is monotone a marker from the future is never due, and the guard, which reads the clock again, fires only if the clock went back by thirty days of midnights between the two readings |
| AutoImportSafety.RunKeepsInv | cmd/cc-otel/autoimport.go:82-266 | Coverage, exactness, cache debt and removal hold together over every run, and the archive never changes |
| Strays.PurgeTakesExactly | cmd/cc-otel/autoimport.go:227-252 | Over any run a stored row is purgeable if and only if it is of a target table, codex or an event, and either an attempt committed it or another writer gave it its id between the snapshot and the measurement |
| Strays.LiveRowIsPurged | cmd/cc-otel/main.go:411-414 | From any database new to the auto-import: a live Codex request stored between a failed import and the next boot is deleted by the purge, although no attempt committed it |
| Strays.NewDatabaseWithArchive | cmd/cc-otel/autoimport.go:140-164 | Every new database with one archived request is such a database |
| OtherWriters.OwnWritersAreOtherWriters | internal/db/repository.go:462-517 | Every allowed transaction of the pool's own writers on a sound database is one the auto-import allows beside it |
| Daemon.Daemon.AutoImportCodex | cmd/cc-otel/autoimport.go:82-199 | One boot, dying after any number of transactions, is a run of the modelled steps beginning with the decision |
| Daemon.Daemon.ImportFrom | cmd/cc-otel/autoimport.go:170-199 | The engine loop, the measured ranges and the marker, or a crash anywhere between |
| Daemon.Daemon.AutoPurgeImported | cmd/cc-otel/autoimport.go:204-266 | Deletes, rebuild, flip, or a crash anywhere between |
| Daemon.Daemon.DeleteRanges | cmd/cc-otel/autoimport.go:227-255 | Deleting range by range removes exactly what all ranges select |
| Daemon.Daemon.MeasureRanges | cmd/cc-otel/autoimport.go:180-189 | The loop over the plan finds the specified ranges |
| SpanTracker.StartNanos | internal/receiver/codex_parser.go:157-168 | The reconstructed start lies between the epoch and the observed time; zero for an unknown time |
| SpanTracker.Tracker.EvictExpired | internal/receiver/codex_parser.go:290-304 | Drops exactly the expired entries |
| SpanTracker.Tracker.EnforceCap | internal/receiver/codex_parser.go:309-324 | Keeps the newest starts, as many as the cap allows |
| SpanTracker.Tracker.Record | internal/receiver/codex_parser.go:286-347 | Evicts, caps, then stores under the span or a new fallback key, known fields and the earlier start winning |
| SpanTracker.Tracker.Lookup | internal/receiver/codex_parser.go:354-400 | The exact span if eligible, else a newest eligible entry, else nothing if and only if none is eligible |
| SpanTracker.Tracker.StashTurn | internal/receiver/codex_parser.go:209-233 | The stash of a conversation and model gains the observation, loses those older than ten minutes and keeps the last eight |
| SpanTracker.Tracker.DrainTurn | internal/receiver/codex_parser.go:241-267 | Hands out exactly the observations within the hour after the anchor, earliest first, and keeps the others in order |
| SpanTracker.MergeKeepsTheEarlierStart | internal/receiver/codex_parser.go:331-345 | A repeated record keeps what was known and the earlier start, and repeating it once more changes nothing |
| SpanTracker.NothingEvicted | internal/receiver/codex_parser.go:290-326 | Below the cap and with nothing too old, recording loses no entry |
| SpanTracker.LookupFinds | internal/receiver/codex_parser.go:354-400 | The span's own entry if it fits and was started within ten minutes, else one of the newest that do, nothing if and only if none does |
| SpanTracker.RecordForgets | internal/receiver/codex_parser.go:290-304 | Below the cap recording forgets exactly the entries started more than half an hour before the new one |
| SpanTracker.StashKeepsTheLast | internal/receiver/codex_parser.go:209-233 | A stash holds the last eight of the observations of the last ten minutes, in order, the new one last |
| SpanTracker.DrainsTheHour | internal/receiver/codex_parser.go:241-267 | Draining hands out exactly what was observed within an hour after, earliest first, and loses nothing |
| Dispatch.Dispatcher.OnRequest | internal/receiver/codex_parser.go:506-541 | Storing a row, filling in the stashed observations that belong to it and remembering its span is one specified step |
| Dispatch.DuplicateLeadsNowhere | internal/receiver/codex_parser.go:506-541 | A request whose id is already stored leaves rows and stash alone, and the entry it leaves leads to no row |
| Dispatch.Dispatcher.OnCompleted | internal/receiver/codex_parser.go:575-668 | So is a completion as reported: one without usage does nothing, any other is normalized and priced, looks up, completes and removes its entry |
| Dispatch.Dispatcher.OnCreated | internal/receiver/codex_parser.go:544-574 | The first event of a response fills the first-token time of the row its entry leads to |
| Dispatch.Dispatcher.OnTurnOutput | internal/receiver/codex_parser.go:829-853 | A turn's first output fills its anchor, and is stashed if and only if there is none yet |
| Dispatch.TurnWaitsForItsAnchor | internal/receiver/codex_parser.go:829-853 | An observation waits in the stash if and only if no request of its conversation and model in the hour before it is stored; otherwise the stash is left alone |
| Dispatch.Dispatcher.OnOpened | internal/receiver/codex_parser.go:745-759 | A websocket request enters the same tracker without a row |
| Dispatch.Dispatcher.OnClosed | internal/receiver/codex_parser.go:786-824 | The end of a websocket response gives its row a duration, or stores a row that holds nothing else |
| Dispatch.ClosingAddsExactly | internal/receiver/codex_parser.go:786-824 | It adds a row exactly if it took a millisecond, its entry has a session and a model, and no Codex row of these is the entry's own or lacks a duration in the ten minutes before |
| Dispatch.CompletionStoresTheReport | internal/receiver/codex_parser.go:575-668 | Column by column, what a reported completion leaves in the row it finalizes: each category, the price of what is stored, the time since the recorded start, the reported first-token time |
| Dispatch.ReportNamesNoRow | internal/receiver/codex_parser.go:599-668 | As reported, a completion names no row and no duration: both come from the tracker alone |
| Dispatch.ElapsedIsTheTime | internal/receiver/codex_parser.go:786-790 | A latency is the whole milliseconds from the start to the observation, or zero |
| Dispatch.ClosedRowHoldsItsDuration | internal/receiver/codex_parser.go:806-818 | A row that only a websocket response left holds when, whose and how long, and nothing else |
| Routing.StepKeepsRouted | internal/receiver/codex_parser.go:419-853 | Each record of either transport, arriving in order, keeps rows and tracker as they are due |
| Routing.EveryCompletionReachesItsOwnRow | internal/receiver/codex_parser.go:286-411 | In every interleaving of the six kinds of record in which spans and request ids are distinct, completions follow their own request within ten minutes and once, nothing is evicted, and a completion without a request finds no request's row waiting: one row per request in order, each with the usage of its own completion or none yet, no other row changed but for latencies, and further rows owned by no request |
| Routing.OwnersAreTheRequests | internal/receiver/codex_parser.go:506-541 | The rows owned by requests are owned by all requests of the run, in order |
| Traces.StepsKeepSound | internal/receiver/codex_parser.go:419-853 | At every point of every run of the receiver, in order or not, the cache is right, if no record charges a request without tokens |
| Traces.EachRequestIsCountedOnce | internal/receiver/codex_parser.go:419-668 | At the end of an orderly run the cache is the GROUP BY of one row per request, each with the usage of its own completion |
| Traces.CompletionIsRightExactly | internal/db/codex_repository.go:213-428 | The first completion under a span leaves all rows as due if and only if the row id found for it is its own request's row, or names none and its own is the newest pending row of its session and model; without a request, if and only if no waiting row of a request and none that was there is found so |
| Traces.SocketCompletionTakesRow | internal/receiver/codex_parser.go:745-759 | A run in which a websocket completion takes the row of a request whose own completion is then skipped |
| ImportJobs.Server.ReserveUpload | internal/api/import_jobs.go:176-203 | Reserving replaces a finished job and its file, and is refused while the slot is occupied |
| ImportJobs.Server.CompleteUploadOf | internal/api/import_jobs.go:205-230 | The locked end of an upload: only the job still waiting for it begins its inspection |
| ImportJobs.Server.FinishInspection | internal/api/import_jobs.go:277-310 | The locked end of an inspection, job gone, cancelled, failed or ready |
| ImportJobs.Server.Start | internal/api/import_handler.go:233-242 | Under the writer bus: refused beside a migration, else only a ready or retryable job becomes importing |
| ImportJobs.Server.FinishMerge | internal/api/import_jobs.go:415-443 | The locked end of a merge |
| ImportJobs.Server.AbortUpload | internal/api/import_jobs.go:449-473 | An importing job is not aborted; another leaves the slot and its file is left to be removed |
| ImportJobs.Server.SweepLocked | internal/api/import_jobs.go:547-572 | Only an inactive job past its own deadline leaves the slot |
| ImportJobs.Server.SweepFiles | internal/api/import_jobs.go:577-600 | The scan removes exactly the old files other than the one spared |
| ImportJobs.Server.BeginMigration | internal/api/codex_migrate_handler.go:116-147 | Starts only beside a free slot and no other migration |
| ImportJobs.Server.BeginRecompute | internal/api/handler.go:846-893 | Starts only beside neither |
| ImportJobs.StepKeepsInv | internal/api/import_jobs.go:176-600 | Every section keeps slot ownership, exclusion and the safety of the upload, with goroutines ending in any order |
| ImportJobs.ImportAndMigrationExclude | internal/api/codex_migrate_handler.go:116-147 | In every interleaving no job imports beside a running migration, at most one merge runs, and it is the merge of the job in the slot, whose upload exists |
| ImportJobs.MergeFindsItsJob | internal/api/import_jobs.go:415-419 | The exit for a job that is gone is unreachable: a merge always ends on its own job |
| ImportJobs.ImportingKeepsSlotAndUpload | internal/api/import_jobs.go:449-600 | Until its own merge ends, nothing takes the slot or the upload from an importing job: no delete, no reservation, no sweep, however late its file scan |
| ImportJobs.MergedWasInspected | internal/api/import_jobs.go:277-340 | In every interleaving an upload is merged only if its inspection ended well and it was started after that |
| ImportJobs.RejectedIsNotStarted | internal/api/import_jobs.go:290-303 | After a failed or cancelled inspection a start changes nothing |
| ImportJobs.PassedIsStarted | internal/api/import_jobs.go:325-360 | After a passed one, beside no migration, it runs the merge |
| ImportJobs.OnlyFailedMergesAreRetried | internal/api/import_jobs.go:415-443 | A merge that failed is run again by a start, on an upload that is still there; one that succeeded is not |
| ImportJobs.EndedJobsAreIdle | internal/api/import_jobs.go:277-443 | The end of an inspection or a merge leaves its job idle, its deadline counted from then unless it was cancelled |
| ImportJobs.SweepEmptiesExactly | internal/api/import_jobs.go:547-572 | A sweep empties the slot exactly for an idle upload of half an hour, an idle failure of an hour or an idle inspected upload of a day |
| ImportJobs.ScanRemovesExactly | internal/api/import_jobs.go:577-600 | The scan removes an upload exactly if it is a day old and not spared |
| ImportJobs.OverlapBegins | internal/api/handler.go:846-893 | Recompute and another writer begin to overlap if and only if the other one starts while recompute runs |
| ImportJobs.RecomputeAndImportCanOverlap | internal/api/import_handler.go:233-242 | Such a run exists |
| ImportJobs.MeetingBegins | internal/api/import_handler.go:52-65 | An inspection and a migration begin to run side by side if and only if an upload completes while the migration runs, or the migration starts beside a free slot while an inspection still reads |
| ImportJobs.InspectionCanMeetMigration | internal/api/import_handler.go:57-65 | From boot: the first way, a migration started between the gate and the reservation |
| ImportJobs.DeletedInspectionCanMeetMigration | internal/api/import_jobs.go:449-473 | From boot: the second way, a delete of the job under inspection |
| IdentityCodec.Digest.WriteValue | internal/dbmerge/identity.go:88-125 | Appends the tagged, length-prefixed encoding of a value, or nothing and an error |
| IdentityCodec.CanonicalInput | internal/dbmerge/identity.go:76-86 | The bytes hashed are the specified preimage, or an error if and only if a value has no encoding |
| IdentityCodec.DecodeRoundTrip | internal/dbmerge/identity.go:76-132 | A decoder recovers table, columns and typed values from every preimage |
| IdentityCodec.PreimageIsInjective | internal/dbmerge/identity.go:76-132 | Equal preimages if and only if equal identities |
| IdentityCodec.LedgerIdsIdentify | internal/dbmerge/identity.go:20-74 | With a collision-free hash two ledger ids are equal if and only if the rows are of one table, identified by the same columns, and equal there after normalization |
| IdentityCodec.BigEndianRoundTrip | internal/dbmerge/identity.go:127-132 | The length prefix decodes to the length |
| Pricing.Cost | internal/pricing/pricing.go:118-131 | No usage costs nothing, whatever the rates and fallbacks |
| Prices.CostIsAdditive | internal/pricing/pricing.go:125-128 | Counters priced together cost what they cost apart |
| Prices.OneTokenCostsItsRate | internal/pricing/pricing.go:115-128 | One token of a kind costs that kind's rate; a missing cache rate is a tenth, for writes five quarters, of the input rate |
| Prices.CostGrows | internal/pricing/pricing.go:125-128 | With rates that are not negative raising a counter never lowers the price |
| Pricing.CodexIsNeverAuthoritative | internal/receiver/receiver.go:346-351 | No record routed to the Codex path, and no row stored by it, keeps an upstream cost |
| Pricing.ScanPrefixes | internal/pricing/match.go:113-139 | Scanning the keys in any order finds the longest boundary prefix, the one found by shortening the name |
| Pricing.LongestPrefixIsLongest | internal/pricing/match.go:113-139 | That prefix is a key at a boundary, no shorter than any other, and the only one of its length |
| Pricing.FindKey | internal/pricing/match.go:88-139 | Exact or stripped name before alias before prefix, whatever the map order |
| Pricing.PreferenceIsAStrictTotalOrder | internal/pricing/match.go:191-201 | Segments, source rank and name order the candidates strictly and totally |
| Pricing.PickBasename | internal/pricing/match.go:152-189 | Scanning in any order finds the candidate preferred to all others, or that there is none |
| Pricing.WinnerIsUnique | internal/pricing/match.go:180-201 | There is one such candidate |
| Pricing.BasenameIsASuffix | internal/pricing/match.go:152-175 | For a bare name a candidate is a key that ends in a slash and the name |
| Pricing.AliasGoesToLastClaim | internal/pricing/registry.go:133-153 | After walking the entries an alias belongs to the last one that claims it |
| Pricing.IndexOrderMatters | internal/pricing/registry.go:133-153 | The index is the same for every map order if and only if each alias has one claimant in the layer that decides it |
| Pricing.Registry.Reload | internal/pricing/registry.go:93-153 | The rebuilt index is that of some walk of the table and then of the overrides, and names only keys |
| Pricing.Registry.Lookup | internal/pricing/registry.go:178-212 | The answer is a specified one and its entry exists: the second miss branch is unreachable; misses are recorded and stay bounded |
| Pricing.LookupIsDetermined | internal/pricing/registry.go:178-212 | For given keys and index there is one answer |
| Pricing.Registry.Calc | internal/pricing/registry.go:214-221 | The price is that of the entry the lookup answers, or nothing |
| Pricing.ChargeIsDetermined | internal/pricing/registry.go:214-221 | For given tables and index a model and its counters have one price, and no usage is free |
| Prices.ChargesAdd | internal/pricing/registry.go:214-221 | What a registry charges for counters together is what it charges for them apart |
| Prices.OneTokenIsCharged | internal/pricing/registry.go:178-221 | For one token of a kind it charges the rate of the entry found, an override before the table |
| Prices.UnknownIsFree | internal/pricing/registry.go:214-221 | A model that is not found costs nothing |
| Prices.TrustedExactly | internal/pricing/match.go:26-48 | A reported cost is trusted exactly from a client spelled claude-code for a model beginning with claude-, in any case and with white space around |
| Prices.MatchIsByPriority | internal/pricing/match.go:88-139 | A name matches the longest key that is the name, or it without its date, its tag or both; else the longest such alias; else the longest key it continues at a boundary; else nothing |
| Prices.VariantsAreTried | internal/pricing/match.go:63-76 | The names tried are exactly the name and those three shortenings |
| Prices.BetterSourceIsPreferred | internal/pricing/match.go:191-201 | Among keys with one number of slashes the source decides, user, litellm, openrouter, seed, then the name |
| Prices.FewerSlashesArePreferred | internal/pricing/match.go:191-201 | Fewer slashes come first |
| Prices.LexIsByFirstDifference | internal/pricing/match.go:200 | Names compare by their first difference |
| Prices.TrimIsTheMiddle | internal/pricing/pricing.go:133-137 | Normalizing takes white space from both ends and nothing else |
| Prices.TrimOfPadded | internal/pricing/pricing.go:133-137 | And takes all of it: whatever white space surrounds a text, what is left is the text |
| Pricing.Registry.RecordMiss | internal/pricing/registry.go:247-259 | Counts the miss, forgets at most the oldest model, keeps at most 64 |
| Pricing.NormalizeModelIsIdempotent | internal/pricing/pricing.go:133-137 | Normalizing twice is normalizing once, so stored and queried names meet |
| Recompute.Units | internal/db/repository.go:336-338 | The stored units are the nearest to the price, ties away from zero |
| Recompute.Scan | internal/recompute/recompute.go:153-262 | The scan detects exactly the specified changes and counts exactly the rows in the window, those kept as priced upstream, and those without a price, by model |
| Recompute.FiguresAreCounts | internal/recompute/recompute.go:190-236 | The figures of a scan are numbers of rows: those in the window, those of them that are trusted, and those of the rest with usage but no price |
| Recompute.ScanTells | internal/recompute/recompute.go:190-262 | A row is counted as trusted, as without a price, or changed to the nearest units, exactly as its time, client, model, usage, price and cost say |
| Recompute.Run | internal/recompute/recompute.go:84-134 | A dry run writes nothing; a finished run leaves at every priced request of the window, not trusted, with usage and a positive price, the units nearest to that price, every other row and column as it was, and the GROUP BY; a crashed one leaves each row as it was or as it would be, some whole chunks and the old cache |
| Recompute.WriteChunk | internal/recompute/recompute.go:271-300 | A chunk continues the writes where the chunk before stopped |
| Recompute.WritesAreMidway | internal/recompute/recompute.go:271-300 | After any number of changes every row is as it was or as it will be; after all, as it will be |
| Recompute.RerunFinishesTheSame | internal/recompute/recompute.go:84-134 | From any such state a rerun ends in the rows of an uninterrupted run, and a further run detects no change |
| Recompute.FinishedRunIsSound | internal/recompute/recompute.go:84-134 | A finished run repairs any cache and keeps what live writers rely on |
| Recompute.WritesBesideLiveWriters | internal/recompute/recompute.go:264-300 | With any live writers between scan and writes, rows seen with tokens end at their target and rows finalized or inserted meanwhile are left alone |
| Recompute.RecomputeAgreesWithExport | internal/receiver/receiver.go:132-138 | Under one price table a recompute changes no row the receiver priced, whatever its service name and reported cost |
| Recompute.ReportedCostIsKept | internal/receiver/receiver.go:126-138 | The receiver stores the reported cost of a trusted or an unpriced request and the price of any other, to the nearest unit |
| Recompute.RecomputeAgreesWithCodex | internal/receiver/codex_parser.go:621-635 | Nor any row a Codex completion finalized or inserted |
| Recompute.CodexRowsAreJudged | internal/receiver/receiver.go:346-351 | A stored Codex row is never kept as priced upstream |
| Recompute.PricedCompletionIsAllowed | internal/receiver/codex_parser.go:621-635 | A completion priced by the registry is one the cache theorem allows: no usage, no charge |
| Recompute.PricedInsertIsAllowed | internal/receiver/receiver.go:132-138 | So is a request of the other path, whatever it reported to cost |
| Ranges.CalendarsAgree | internal/db/repository.go:355-366 | A midnight function determines the day of every timestamp |
| Ranges.EveryMidnightHasACalendar | internal/db/repository.go:355-366 | Every strictly increasing midnight function has a day function |
| Ranges.DashboardTotals | internal/db/repository.go:814-851 | Summing the cache over the days, in any order, is the sum of its entries in the range |
| Ranges.DashboardIsDirectSum | internal/db/repository.go:814-851 | While the cache is right the dashboard of local days equals the direct sum over the rows of their unix range |
| Columns.DashboardShows | internal/db/repository.go:814-851 | While the cache is right each figure of the dashboard is the plain sum of its own column over the requests between the two midnights |
| Ranges.ClientStats | internal/db/repository.go:859-906 | The client table holds each client of the range with its sums |
| Columns.ClientTableShows | internal/db/repository.go:859-906 | A client is listed exactly if it has a request in the range, and each of its figures is the plain sum of its own column over its requests |
| Ranges.ClientsAddUpToDashboard | internal/db/repository.go:859-906 | The clients of a range, read from the rows, add up to its dashboard, read from the cache |
| Ranges.GroupsAddUp | internal/db/repository.go:864-884 | The groups of any grouped sum add up to the ungrouped one |
| Ranges.NeedsAggRebuild | internal/db/repository.go:384-414 | Asks for a rebuild if and only if some row is older than all the cache covers |
| Ranges.RebuildIsAskedForAGroup | internal/db/repository.go:384-414 | That is, if and only if a rebuild would give a group of an earlier day than all the cache has |
| Ranges.AgreementNeedsNoRebuild | internal/db/repository.go:384-414 | A right cache is never rebuilt for coverage |

## Left out

- HTTP, gRPC, OTLP and JSON decoding, progress events and notifications: records arrive as values, requests as calls.
- SQLite: locks, WAL, BUSY retries and their delays, variable limits; a transaction commits or has no effect. The loop that re-selects a row after a lost guarded UPDATE is not needed then.
- SHA-256: the merge model uses the identity in place of its digest; IdentityCodec proves what the hash is fed, under a collision-free hash.
- Numbers: sums and ids are unbounded integers, prices real numbers; floats, their bits and the overflow of 64-bit sums are not modelled, except in Tokens64.
- NULL columns of the request table and its columns that no modelled query reads; schema validation and column adaptation of uploaded files.
- Names are sequences of characters; lower-casing covers ASCII letters, trimming all Unicode white space.
- codex_daily_model_agg and the codex_api_requests side of recompute; the archive is read, its own cache is not modelled.
- The nearest-match backfill of first-token times from traces, other than for a request that a trace span preceded.
- Records of the receiver that store events, and its clamp of future timestamps; two records are handled one after the other.
- Row ordinals in error reports, per-table statistics, timing metrics, and the retention sanity check after a migration.
- Warnings of the auto-import about archive rows written after a rollback; the one-click migration is one of the other writers there.
- Retention cleanup of events and of the request table's neighbours, other than as another writer of the auto-import.
- DSH clients, read-only views besides the range totals, the pricing admin list, seeds and refreshes, configuration and the tools directory.
- ImportJobs.Server.SweepFiles: models the upload files; the inspection copies and the -wal and -shm companions are not.
- Pricing.Registry.Lookup: locking is not modelled; a lookup sees one state of the registry.
- Pricing.NormalizeModelIsIdempotent: lower-casing covers ASCII letters only.
- RepositoryModule.Repository.UpdateCodexRequestDuration: its three statements commit one by one in the source and are one step here, so a write between them is not covered.
- RepositoryModule.Repository.UpdateCodexRequestTtft: the same.
