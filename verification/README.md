# Geodata service: verified model

This project models the parts of the geodata service on which its data safety rests, and proves properties of them
over all inputs, all interleavings and all reachable states:

- the **row repository**: a thread's scope of pending edits laid over a shared database, the three-way merge of a flush,
  optimistic concurrency, and idempotent requests (`options`, `rows`, `scopes`, `overlay`, `quiescent_flush`,
  `interleavings`, `committed_flush`, `row_repository`, `idempotency`);
- the **work protocol** for imports, promotions and deletions: leases, heartbeats, checkpoints, cancellation, recovery,
  at-least-once delivery, replay by source ordinal, promotion of candidates, the life of an entity and its location
  enrichment (`run_protocol`, `import_runs`, `batching`, `replay`, `promotion`, `rival_runs`, `promotion_job`,
  `candidate_edits`, `delivery`, `dispatch_sweep`, `entity_lifecycle`);
- **Maidenhead coverage** of points, lines and polygons (`reals`, `locator`, `clipping`, `coverage`, `polygons`,
  `triangles`), over exact reals with the tolerance as a parameter;
- the **streaming parsers** for multipart bodies and shapefile framing (`byte_stream`, `multipart`, `shapefile`).

How it is modelled. A database row is a map from field to value; an absent field reads as null. A flush that owns its
transaction is one atomic step, because it reads under an advisory lock and `FOR UPDATE`. What the schema adds is modelled
where rows are stored: the revision trigger of entities, the guard of the run upsert, the `(run, ordinal)` key of staged
candidates, and the queue columns that a flush does not write. Classes and loops of the code are classes and loops here,
each tied by its postcondition to a function or a protocol step about which the lemmas are proved. A worker's handler runs in a
fresh scope of its own (`geodata_operations.py:100-118`), so what it reads first is the committed row. Clock readings, network
answers, the contents of source features and the thread schedule are parameters or nondeterministic choices.

A few statements one might expect do not hold of the code. The model keeps the code's behaviour, shows where each fails, and
proves the exact condition:

- *No lost update* fails for a candidate when another one, staged under a new id, goes for its `(run, ordinal)` place: the upsert
  overwrites a row that the scope never read (`StagingTwiceLosesAReview`, from an empty table on). A committing flush writes a stored candidate for no
  other id exactly when nobody else goes for its place (`OverwrittenExactly`), and a candidate the scope has not edited keeps its
  fields exactly then, or when the last one to take the place holds the same (`SurvivesExactly`). The condition concerns one
  candidate only; whatever happens to others does not matter to it.
- *A candidate is promoted at most once* for the same reason needs its place to itself: a late worker that stages the place again takes the
  mark away, and a second promotion of the same row commits (`PromotedTwice`; `PromotedAtMostOnce` holds while nobody else goes for the place).
- *A flush stores the scope's map* unless a guard, a write-once column or a candidate place holds a write back
  (`FlushStoresTheView` is an equivalence; `GuardedRunIsHeldBack`).
- *A cancelled run has no staged candidates* holds of the commit that cancels it, not forever: a worker still at work
  stages again (`CancelledRunIsStagedAgain`), exactly when its batch is new and its progress does not clash (`LateCheckpointStages`).
- *A replay keeps the review* of a row but clears a promotion link it has read (`ReplayClearsLink`).
- *Approved entities only retire* fails in two ways, and `ApprovedOnlyRetire` proves that there is no third. The revision does not tell two
  lives of a row apart: a promotion, which holds no row lock, may outlive a deletion and a re-creation at the same revision
  (`RecreationDefeatsTheRevision`). And the guard of a promotion reads the entity in one transaction and the assignment reads it again in
  another: an entity that is created and approved in between is missed by the guard and becomes the baseline of the assignment, so that
  the flush finds its revision in order (`LookUpMissesAnApproval`).
- *An idempotent answer is the committed result* except when `once` meets a record of `request_once`: it gets the envelope
  (`AnswersAreCommitted`).
- A flush that dispatches an enrichment request leaves its own scope one revision behind (`DispatchOutdatesItsScope`).

## Model

| member | source | states |
|---|---|---|
| Rows.MergeRow | relational_state.py:609-628 | The field loop computes the merge of baseline, own value and latest row, or reports a clash |
| Rows.MergeMeaning | relational_state.py:613-627 | A merge fails exactly on a clash; edited fields get the new value, all others keep the latest, and a field changes only if the latest row still held its baseline |
| Rows.MergesCommute | relational_state.py:589-628 | Two writers from one baseline: the second commit succeeds exactly when their edits agree, and then the order of commits does not matter |
| Rows.StoredWhole | geodata_store.py:262-270 | The upsert stores a row whole exactly when no guarded, write-once or lease column of the stored row differs |
| Rows.UpsertWrites | geodata_store.py:256-270 | Column by column, what an upsert stores over an existing row: all but a run's adapter, a cancelling run's columns, what of a queue is fixed or leased, and the revision, which rises by one |
| Rows.InsertWrites | geodata_store.py:396-398 | Column by column, what an insert stores: an entity starts at revision one and a queue without a lease |
| Rows.CancellationSticks | geodata_store.py:269-270 | A cancelling or cancelled run keeps its status through every upsert except a cancellation |
| Overlay.StepRefines | relational_state.py:137-170 | Each dictionary operation, iteration and length included, gives the reply and contents of the plain map "table overlaid with pending edits" |
| Overlay.RunRefines | relational_state.py:137-170 | Every sequence of operations of a scope does so |
| Overlay.InvalidateKeepsPending | relational_state.py:296-302 | Invalidating drops clean rows only; every pending edit, delete and event stays |
| Overlay.RollbackLeavesNothing | relational_state.py:717-728 | After a rollback every loaded row is its baseline and nothing is left to write |
| Overlay.ReloadAdopts | relational_state.py:304-315 | After a reload nothing is pending for the row, the plain map shows the stored one, and no other identity is affected |
| Overlay.EvictIsInvisible | relational_state.py:383-391 | Evicting lets go of exactly the candidates read for the run, and is invisible exactly when each of them is what the table holds, as right after a flush |
| Overlay.IdleFlush | relational_state.py:564-588 | Flushing such a scope changes neither database nor scope |
| Overlay.DiscardLeavesNone | relational_state.py:481-495 | A discard removes exactly the run's candidates from table and scope; everything else stays as it was |
| QuiescentFlush.FlushStoresEach | relational_state.py:589-631 | Each changed row is resolved against the row the transaction found and stored by the upsert of its kind, in whatever order rows are written |
| QuiescentFlush.FlushKeepsPlaces | geodata_store.py:329-333 | No flush moves a candidate to another run or ordinal |
| QuiescentFlush.FlushLeavesQueueLease | geodata_store.py:396-398 | A flush never writes the lease of a promotion job nor what was fixed when it was queued |
| QuiescentFlush.PublishLogs | relational_state.py:676-703 | Every event reaches the outbox and, unless the flush deletes its entity, the audit trail, once and over nothing |
| QuiescentFlush.PublishStamps | relational_state.py:648-675 | Exactly the existing rows an event dispatches are stamped, and no other column of any row changes but the revision of those entities |
| QuiescentFlush.RevisionsRise | relational_state.py:668-674 | The revision of an entity rises by one with each event that dispatches it |
| QuiescentFlush.FlushStoresTheView | relational_state.py:564-713 | Without concurrent writers the database that a flush commits, deletes and dispatch stamps included, is the plain map exactly when no write is held back, moved or collides |
| QuiescentFlush.RunThenFlush | relational_state.py:137-250 | End to end: what a fresh scope's operations and flush commit is what a plain dictionary would hold, under the same condition |
| QuiescentFlush.GuardedRunIsHeldBack | geodata_store.py:269-270 | A concrete flush that the guard holds back |
| CommittedFlush.DeletedAreGone | relational_state.py:630-647 | Whatever others committed, a flush removes exactly the rows marked deleted, and keeps every other one |
| CommittedFlush.TrailGoesWithEntity | relational_state.py:690-703 | No audit event of a deleted entity stays or is written, and every other one stays |
| CommittedFlush.EventsOnly | relational_state.py:564-588 | An events-only flush keeps every row but for revisions, every pending edit and every mark of deletion |
| CommittedFlush.FlushIsIdle | relational_state.py:704-715 | After a flush the scope has nothing pending, holds what was written as read back, and has forgotten the deleted rows |
| CommittedFlush.ScopeHoldsWhatIsStored | relational_state.py:704-709 | A written row is in the scope as it is in the database, up to the revision a dispatch raises |
| RowRepository.Repository.Load | relational_state.py:232-250 | Returns the pending or stored row, or none for a deleted or missing identity; records the baseline |
| RowRepository.Repository.Keys | relational_state.py:159-167 | The loop yields the stored and loaded identities that are not marked deleted |
| RowRepository.Repository.SetItem | relational_state.py:144-153 | The new scope after an assignment |
| RowRepository.Repository.DelItem | relational_state.py:155-157 | The new scope after a deletion, and whether the key existed |
| RowRepository.Repository.Invalidate | relational_state.py:296-302 | The loop drops exactly the clean rows selected |
| RowRepository.Repository.Reload | relational_state.py:304-315 | Pending value and baseline become the stored row |
| RowRepository.Repository.RollbackPending | relational_state.py:717-728 | The loop restores baselines and drops new rows, deletes and events |
| RowRepository.Repository.StageImportCandidate | relational_state.py:393-404 | The new scope after staging, with the existing baseline kept |
| RowRepository.Repository.EvictImportCandidates | relational_state.py:383-391 | The loop drops exactly the rows read for the run |
| RowRepository.Repository.DiscardImportCandidates | relational_state.py:481-495 | The new table and scope after a discard |
| RowRepository.Repository.Flush | relational_state.py:564-715 | Rows, deletes, events, audit rows and dispatch stamps commit together, or the flush raises and changes neither database nor scope; afterwards exactly the rows marked deleted are gone and nothing is pending |
| RowRepository.WriteRows | relational_state.py:589-631 | The loop over changed rows computes the flush of that list, or raises |
| Interleavings.FlushLosesNothing | relational_state.py:589-628 | A field changed by a flush was edited by its scope, held the scope's baseline until then and holds the scope's value after |
| Interleavings.ClashRaises | relational_state.py:619-622 | A pending edit that clashes with a committed one makes the flush raise |
| Interleavings.StaleRowRaises | relational_state.py:604-608 | So does a row deleted meanwhile, or an entity with another revision |
| Interleavings.TakenIdRaises | relational_state.py:601-603 | So does a row taken for new whose identity the database holds with other contents |
| Interleavings.BaselineWasRead | relational_state.py:232-250 | In every run, each baseline is a row the database held earlier |
| Interleavings.NoLostUpdate | relational_state.py:564-628 | In every run of any number of scopes and direct statements, each change of a field committed by a scope comes from a flush that edited it and had read, earlier in the run, the value it replaces |
| Interleavings.UnclaimedRow | relational_state.py:589-631 | A candidate whose place nobody else goes for gets exactly its own resolution, or nothing, whatever else the flush writes |
| Interleavings.OthersUntouched | geodata_store.py:329-333 | One candidate write leaves every other row as it was exactly when no other id holds its place, or the holder has the same fields outside the links |
| Interleavings.LinksGoById | relational_state.py:532-542 | The links of a candidate are written under its own id, wherever the rest of its row goes |
| Interleavings.OverwrittenExactly | geodata_store.py:329-333 | A committing flush writes a stored candidate at its own turn and no other exactly when nobody else goes for its place and it keeps to it |
| Interleavings.SurvivesExactly | geodata_store.py:329-333 | A stored candidate the scope has not edited keeps its fields exactly when it has no rival, or the last rival holds the same outside the links |
| RivalRuns.StagingTwiceLosesAReview | relational_state.py:350-381 | A run from an empty table: two workers read the empty window, one stages it, a reviewer confirms, and the other's flush, under another id, takes away the confirmation that its scope never read |
| Idempotency.EffectsAtMostOnce | relational_state.py:730-796 | In every interleaving with aborts, the effects for one key commit at most once |
| Idempotency.AnswersAreCommitted | relational_state.py:741-779 | An answered call got the result committed for its key exactly when the record comes from a call of its own family; otherwise `once` got the stored envelope |
| Idempotency.RecordsStay | relational_state.py:768-779 | A record never changes and no further effects commit for its key |
| Idempotency.LaterRequest | relational_state.py:773-779 | A later call with the same fingerprint gets the recorded result, with another one it is refused; either way nothing commits |
| Idempotency.LockSuffices | relational_state.py:730-767 | Between calls of one family the advisory lock alone prevents a second insert |
| Idempotency.CommitTakesEffect | relational_state.py:730-796 | A prepared call under an unrecorded key commits its effects, its record and its answer together; under a recorded one nothing |
| Idempotency.UnrecordedWorks | relational_state.py:730-767 | A call under an unrecorded key is let in, alone in its lock |
| Idempotency.CommitsSucceed | relational_state.py:730-767 | Among calls of one family every commit takes effect |
| RunProtocol.CancellationIsSticky | geodata_store.py:262-270 | No run of claims, heartbeats, flushes of anything, deaths, dead letters and re-dispatches takes a run out of CANCELLING or CANCELLED |
| RunProtocol.CheckpointKeepsLease | geodata.py:2720-2726 | A checkpoint flush, whenever it commits, leaves status, lease and completion time as they are |
| RunProtocol.FlushOutcome | geodata.py:2131-2215 | A worker's flush ends the run, queues an uploaded one, or leaves the status; an active run keeps lease and completion time unless it ends |
| RunProtocol.LeaseExclusive | geodata.py:2526-2541 | A claim succeeds only at or after the end of the lease last written by any claim or heartbeat |
| RunProtocol.ClaimTakesLease | geodata.py:2526-2541 | Exactly a queued run, or a processing one whose lease has run out, is claimed, and gets the new lease |
| RunProtocol.DeadLetterFails | geodata_import_worker.py:555-577 | A dead letter ends exactly the queued and processing runs, as failed and without lease |
| RunProtocol.RedispatchQueues | geodata_import_worker.py:196-219 | Exactly a processing run whose lease has run out is queued again |
| RunProtocol.CancelRequestEnds | geodata.py:3407-3479 | In every run a request ends a queued or uploading run at once, with no lease, nothing staged and no manifest, marks a processing one, which keeps its lease, and leaves every other alone |
| RunProtocol.CancelledIsNeverClaimed | geodata.py:2526-2541 | After an accepted request no claim, heartbeat, dead letter or re-dispatch does anything to the run |
| RunProtocol.CancelledCommitIsClean | geodata.py:2226-2282 | The commit that makes a run CANCELLED leaves it without staged candidates and without its source manifest |
| RunProtocol.LateCheckpointStages | geodata.py:2720-2726 | A checkpoint under a cancelled run stages nothing new exactly when its batch is staged already or its progress clashes |
| RunProtocol.CancelledRunIsStagedAgain | geodata.py:2720-2726 | A run of the protocol that ends CANCELLED with a staged candidate |
| ImportRunRecords.RunRecord.ClaimImportRun | geodata.py:2518-2553 | When the claiming update succeeds and which five columns it then writes; it is the protocol's claim step |
| ImportRunRecords.RunRecord.HeartbeatImportRun | geodata.py:2570-2586 | One beat is the protocol's heartbeat step; it stops when the run is not processing and reports a cancellation |
| ImportRunRecords.RunRecord.FinishImportCancellation | geodata.py:2226-2282 | The finalizer is the protocol's step, with its two early returns: status, times, lease and statistics reset, staging and manifest removed |
| ImportRunRecords.RunRecord.CancelImport | geodata.py:3407-3479 | Accepted for uploading, queued, processing and closing runs only; ends a queued or uploading run for good, marks a processing one and changes nothing else; it is the protocol's step |
| ImportRunRecords.WorkerScope.QueueUploaded | geodata.py:2369-2383 | A finished upload is queued, unless it was cancelled meanwhile |
| ImportRunRecords.WorkerScope.CompleteImportRun | geodata.py:2132-2175 | Completion edits a final status without lease, or takes over a requested cancellation |
| ImportRunRecords.WorkerScope.FailImportRun | geodata.py:2178-2214 | Failure never overwrites a cancellation seen in the database or the scope |
| Delivery.RecoverImportRun | geodata.py:2787-2861 | A preprocessing handler that succeeds has seen or written its row missing or settled |
| Delivery.ProcessImportRun | geodata.py:2605-2784 | Likewise for the run loop, with cancellation and failure paths |
| Delivery.ProcessImportQueue | geodata.py:3941-4132 | Likewise for promotion |
| Delivery.ExecuteDeletionJob | geodata.py:5513-5621 | Likewise for deletion |
| Delivery.Consume | geodata_import_worker.py:406-613 | A delivery is acknowledged exactly when its handler succeeded and was recorded, or it was processed before and its row is seen settled; it is put off only after a refused claim or a failure, and given up only in a transaction that leaves an import or promotion row settled |
| Batching.BoundedImportBatches | geodata.py:73-107 | The batches concatenate to the input, each is one feature or within both budgets, and no other such partition has fewer |
| Batching.StaysAhead | geodata.py:73-107 | A saturated list over a suffix is never longer than any allowed partition of the whole |
| Batching.TakenSound | geodata.py:84-107 | What the loop has emitted and still holds is the input so far, within budgets and saturated |
| Replay.StageBatch | geodata.py:1590-1774 | The loop stages every accepted feature of the window under its ordinal, with the content just read, the identity and the seven review fields of the row read before |
| Replay.ContentIsFresh | geodata.py:1731-1774 | What a checkpoint commits outside the review is the content just read, except where that is what the worker had read before; there a later change stays |
| Replay.PreprocessedIsComplete | geodata.py:2605-2727 | Whatever the batches, deaths, replays and reviews, a preprocessed run has exactly one row per accepted feature, filed under the feature's index |
| Replay.IdentityStays | geodata.py:1750-1752 | A row staged by any earlier attempt keeps its identity |
| Replay.ReviewStays | geodata.py:1753-1764 | Replays never undo a review: the seven fields are those of the last reviewer |
| Replay.ReplayClearsLink | geodata.py:1731-1764 | The promotion link is cleared when the worker had read one, and kept otherwise |
| Promotion.AlwaysDated | geodata.py:4024-4041 | In every run a candidate is processed exactly when it carries the time of its promotion, and exactly when it names its entity |
| Promotion.PromotedAtMostOnce | geodata.py:3991-4041 | With distinct clock readings no candidate is promoted by two commits, over all interleavings in which its row is not created again |
| RivalRuns.PromotionHappens | geodata.py:4008-4041 | A concrete run that meets these assumptions: a worker reads a confirmed candidate, assigns its entity, marks it, and commits both |
| RivalRuns.PromotedTwice | geodata_store.py:332-333 | A run that meets all of them but the unclaimed place: a late worker un-promotes the candidate, it is confirmed once more, and a second promotion of the same row commits |
| Promotion.StaysPromoted | geodata.py:4030-4041 | A promoted candidate keeps its mark until its row is deleted |
| Promotion.PromotionCommitsBoth | geodata.py:4024-4041 | The entity, at the revision after the one read, and the mark commit in one flush |
| PromotionJob.RunsAreMeanwhile | geodata.py:3991-4041 | What the job relies on between its statements, about its own candidates only, holds of every run in which these are flushed properly and not created again, whatever happens to other candidates and whatever is deleted |
| PromotionJob.Commit | geodata.py:4024-4041 | The flush of a pending promotion: if it commits, the candidate's mark is in the database and so is the entity whenever the scope changed it; if not, the database is unchanged |
| PromotionJob.Materialize | geodata.py:4017-4060 | What became of an open candidate: an approved entity, as the second look finds it, refuses it; a flawed payload refuses it; otherwise there is at most one flush, of exactly the mark and the curated entity over the row looked up or, failing that, read by the assignment, and its outcome decides |
| PromotionJob.PromoteEntry | geodata.py:3992-4060 | The candidate as the scope or the database held it, the entity looked up and the outcome of the flush decide where the entry lands, case by case; every flush is recorded; after a failure nothing is pending |
| PromotionJob.ProcessQueue | geodata.py:3987-4073 | The history of a job, entry by entry, with other processes at work between any two statements: every entry is decided as above and lands in exactly one of created, updated and errors, and whatever is reported promoted is processed in the database into that entity, or deleted since |
| PromotionJob.ReportedIsProcessed | geodata.py:3999-4044 | Whatever a finished job reports as created or updated comes from an entry of its list that is processed into it, or deleted since |
| PromotionJob.PromotionCommits | geodata.py:4040-4044 | What lands as promoted was found processed, or this job's one flush for it committed the mark into the reported entity |
| PromotionJob.ErrorsCommitNothing | geodata.py:4045-4060 | For what is reported under errors, no flush of this job committed |
| PromotionJob.RefusedExactly | geodata.py:1961-1969 | An open, flawless candidate is refused exactly when its entity, as last looked up, is approved and the job does not retire it |
| PromotionJob.CommittedEntity | geodata.py:1951-2052 | What a committed flush leaves, field by field: the candidate processed into the entity it names, an approved entity retired, a changed entity at the job's target status with the website and description it had |
| PromotionJob.LandsAsFound | geodata.py:3999-4060 | Where an entry lands, by the fields of the candidate found and the outcome of its flush |
| PromotionJob.LandsOnce | geodata.py:3991-4060 | Created, updated and errors together are as many as the entries |
| CandidateEdits.CandidateRecord.Confirm | geodata.py:3911-3919 | A review leaves a promoted candidate alone |
| CandidateEdits.CandidateRecord.Enqueue | geodata.py:4181-4215 | When a candidate is accepted for promotion, and what it then holds |
| CandidateEdits.CandidateRecord.Promote | geodata.py:4008-4037 | When a candidate is marked, with the date that makes a second promotion clash |
| CandidateEdits.ReplayIsAReview | geodata.py:1753-1764 | A replay never marks, unmarks or dates a candidate |
| DispatchSweep.Reconciler.Sweep | geodata_import_worker.py:186-219 | Selects the first fifty stale unlocked rows, never one with a running lease; exactly these are stamped, queued if they were processing, and get one outbox row each |
| DispatchSweep.Select | geodata_import_worker.py:188-195 | The query's rows: eligible, unlocked, in order, and nothing eligible before them left out |
| DispatchSweep.SkipShrinks | geodata_import_worker.py:196-219 | A sweep that skips an eligible row takes fifty rows out of those ahead of it |
| DispatchSweep.NoStarvation | geodata_import_worker.py:177-219 | A row with K rows ahead is skipped by at most K / 50 sweeps in a row |
| DispatchSweep.BoundIsAttained | geodata_import_worker.py:188-195 | For every n, a run in which n sweeps skip a row that has 50 n rows ahead |
| EntityLifecycle.EntityRecord.ReviewCandidate | geodata.py:4632-4665 | The review in place: accepted exactly for a candidate and a decision to approve or reject, the status becomes the decision, and an approval requests a missing location |
| EntityLifecycle.EntityRecord.ChangeStatus | geodata.py:4669-4736 | The status change in place: which targets each status allows, that the target is reached and the geometry kept, and when a location is requested |
| EntityLifecycle.EntityRecord.QueueLocationEnrichment | geodata.py:1346-1405 | The request in place: a new id and digest, unless one for this geometry is queued |
| EntityLifecycle.EntityRecord.MoveGeometry | geodata.py:4739-4781 | The geometry edit in place; a changed digest queues a request |
| EntityLifecycle.EntityRecord.TakeResult | geodata.py:1460-1490 | The provider's answer in place, for the current request and geometry only |
| EntityLifecycle.EntityRecord.LoseSource | geodata.py:1266-1280 | A source that no longer lists the entity retires it under that policy and leaves its status otherwise |
| EntityLifecycle.ReviewCommits | geodata.py:4632-4665 | In every run, a scope that loads, reviews and flushes had read a candidate, and if its flush changes the row, leaves the decision, the geometry, and the request for a missing location |
| EntityLifecycle.OperationsKeepCurrent | geodata.py:1346-1480 | Every operation keeps a queued or completed enrichment tied to the current geometry |
| EntityLifecycle.OperationsKeepApproval | geodata.py:4676-4714 | Every edit of a scope's value keeps an approved baseline approved or retires it |
| EntityLifecycle.MaterializedKeeps | geodata.py:1961-1988 | A promotion respects the approval of the entity it looked up, exactly when its guard lets it pass or its target is approved, and leaves a current enrichment |
| EntityLifecycle.EnrichmentIsCurrent | geodata.py:1360-1379 | In every reachable state the stored digest of a queued or completed enrichment is that of the current geometry |
| EntityLifecycle.ResultIsForCurrentRequest | geodata.py:1460-1480 | A provider's answer commits only while its request is current and the geometry unchanged |
| EntityLifecycle.ApprovedOnlyRetire | relational_state.py:606-608 | Across all scopes, an approved row becomes anything but retired exactly when a scope flushes another status at the row's revision and either it outlived the row it read, or its look-up found nothing and its assignment then read an approved row |
| EntityLifecycle.RecreationDefeatsTheRevision | relational_state.py:606-608 | A run in which a promotion that holds no row lock outlives a deletion and re-creation and takes an approval away |
| EntityLifecycle.LookUpMissesAnApproval | relational_state.py:144-153 | A run in which the entity is created and approved between a promotion's look-up and its assignment, and the promotion takes the approval away |
| EntityLifecycle.DispatchOutdatesItsScope | relational_state.py:668-674 | A dispatching flush leaves its scope behind the row |
| EntityLifecycle.RedispatchOutdatesScopes | geodata_import_worker.py:196-219 | A re-dispatch makes every scope that had read the row out of date |
| Locator.NameRoundTrip | maidenhead.py:20-51 | Names of grid cells are read back to the cell |
| Locator.LocatorNamesCell | maidenhead.py:20-51 | The digit-by-digit locator is the name of the grid cell that holds the point |
| Locator.CentreKeepsName | maidenhead.py:279-286 | Re-encoding the centre of a cell returns the cell |
| Locator.KnownLocators | maidenhead.py:20-51 | Locators of the corners of the grid, of the origin and of one place |
| Locator.RefusedPoints | maidenhead.py:20-28 | Which precisions and points are refused |
| Clipping.SegmentIntersectsRect | maidenhead.py:79-106 | Never rejects a contact, accepts only within the tolerance margin, and is exact at tolerance zero |
| Clipping.ClippedWindow | maidenhead.py:88-105 | After each half plane the window holds every contact, and its ends respect the half planes so far |
| Coverage.CandidatesComplete | maidenhead.py:54-66 | The candidate range misses no cell the span reaches |
| Coverage.LineIntersectsRect | maidenhead.py:144-151 | A polyline touches a rectangle exactly if some piece does, within the tolerance |
| Coverage.CellsForComponent | maidenhead.py:185-218 | Every touched grid cell is found and every found one is near the line |
| Coverage.CoveredCells | maidenhead.py:221-286 | Every point of a line in range has its locator in the result; at tolerance zero the result is exactly the covered cells |
| Coverage.PointIsCovered | maidenhead.py:221-286 | Every point of a line in range lies in a cell the line covers |
| Polygons.SparedExactly | maidenhead.py:129-141 | The hole loop spares a point exactly when it is on the boundary of the first hole that holds it, if any does |
| Polygons.CrossesExactly | maidenhead.py:115-120 | An edge counts exactly when one end is above the point, the other is not, and some spot of the edge is level with the point, strictly to its right |
| Polygons.PointInRing | maidenhead.py:109-121 | Finds exactly the contacts within the tolerance and the points with an odd count of such edges; at tolerance zero the contacts are the boundary |
| Triangles.TriangleIsItsHull | maidenhead.py:109-121 | For every triangle, degenerate or not, and every point: the ring test at tolerance zero holds exactly of the mixtures of the three corners |
| Triangles.RingIsItsFan | maidenhead.py:115-120 | For every closed ring, however it winds, and every point off its edges and the diagonals from its first vertex: the ray rule holds exactly when an odd number of the triangles of its fan hold the point |
| Triangles.TriangleIsFound | maidenhead.py:124-141 | Every mixture of the corners of a triangle is found at every tolerance, and at tolerance zero no other point |
| Triangles.TriangularHole | maidenhead.py:129-141 | A triangle with a triangular hole holds exactly the mixtures of its corners that are not inside the hole, whose boundary belongs to it |
| Polygons.PointInPolygon | maidenhead.py:124-141 | Every point inside by the even-odd rule is found at every tolerance, and at tolerance zero no other |
| Polygons.SparedAtEveryTolerance | maidenhead.py:129-141 | A point that the holes spare exactly they spare at every tolerance |
| Polygons.PolygonIntersectsRect | maidenhead.py:154-170 | Every boundary contact and every corner inside is a hit at every tolerance; at tolerance zero nothing else is |
| Polygons.CellsForPolygon | maidenhead.py:185-218 | Exactly the candidates that the rectangle test hits, at every tolerance |
| Polygons.OddInBox | maidenhead.py:115-120 | A point with odd crossings of a closed ring lies in the bounding box of the ring |
| Polygons.CornerIsCandidate | maidenhead.py:196-202 | With a closed outer ring, a cell with a corner inside is among the candidates |
| Polygons.CoveredPolygonCells | maidenhead.py:236-286 | The locators of exactly the candidates that some polygon has hit |
| Polygons.CoverageOfPolygons | maidenhead.py:236-286 | These include the locator of every boundary point in range and, for closed outlines, every cell with a boundary contact or a corner inside, at every tolerance; at tolerance zero no other |
| Multipart.MultipartReader.Fill | common.py:437-444 | A fill moves bytes from stream to buffer and loses none |
| Multipart.MultipartReader.ReadLine | common.py:452-457 | Returns the bytes before the first line break, however the stream splits |
| Multipart.MultipartReader.ReadPart | common.py:459-470 | Sinks exactly the bytes before the first delimiter, or fails when the declared length holds none |
| Multipart.FlushPart | common.py:467-469 | Keeping a delimiter's worth of bytes less one never misses a delimiter |
| Multipart.ReadParts | common.py:477-529 | The part loop parses the rest of the body, whatever the chunks |
| Multipart.ReadMultipart | common.py:420-533 | The streaming parser computes the parse of the declared body under every splitting, with the refusal of invalid metadata and the test for a file, which a metadata object may pass by naming one |
| Multipart.BodyRoundTrip | common.py:472-533 | Printing parts under a CR-free boundary and parsing returns those parts |
| Multipart.ParsedExactly | common.py:472-533 | A body parses to some parts exactly when it is their print, whatever follows, each of them is named, within 4 MiB unless a file, and an object if metadata, and one of them brings a file |
| Multipart.ReadPrinted | common.py:420-533 | The streaming parser returns printed parts under every splitting |
| Shapefile.ValidateShapefileRecords | import_formats.py:159-185 | With headers read whole the validator reaches the verdict on the bytes, however content reads are split; however anything is split it accepts nothing that verdict rejects |
| Shapefile.AcceptedIffWellFramed | import_formats.py:159-185 | Accepted exactly when a 100-byte header is followed by whole records within the limit |
| Shapefile.FramesRoundTrip | import_formats.py:167-185 | Serialised records are accepted and read back |
| Shapefile.CutIsRejected | import_formats.py:171-185 | A cut anywhere inside a record is rejected with the error that names it |
| Shapefile.TooLargeIsRejected | import_formats.py:171-178 | A header that declares, most significant byte first, more 16-bit words than allowed is rejected as too large |

## Left out

- Triangles.RingIsItsFan: for points off the diagonals from the first vertex; that the even-odd rule is topological containment, which would need a Jordan-curve argument, is not claimed.
- Coverage and clipping: floating point; coordinates are exact reals, the tolerance is any value in [0, 1).
- Interleavings.NoLostUpdate: for a candidate, while nobody else goes for its place, because the property is false otherwise (see above); entities are checked by revision instead (`StaleRowRaises`).
- RivalRuns.StagingTwiceLosesAReview: the run row that the late worker flushes beside its candidates, as in `RivalRuns.PromotedTwice`; were its progress to clash, that flush would raise instead (`LateCheckpointStages`).
- Promotion.PromotedAtMostOnce: for a candidate whose row is not created again under the same id, and whose place nobody else goes for, because the property is false otherwise (`PromotedTwice`).
- PromotionJob.ProcessQueue: the rows of the conflation comparison, the repair of a legacy source reference and the totals written into the run afterwards; the checks of a planned entity are a function parameter.
- RunProtocol.LeaseExclusive: clock readings follow the order of commits; the startup repair `recover_import_runs`, which selects rows and loads them in a separate step, is not a step of the protocol.
- RunProtocol.CancellationIsSticky: `mark_import_processed` is not a step of the protocol.
- RunProtocol: whether a terminal status survives a worker whose lease lapsed; heartbeats and final writes carry no owner, so no such claim is made.
- Replay.PreprocessedIsComplete: one living worker at a time (deaths are followed by a new claim), no rows deleted by administrators, and a feature is accepted or not by its source alone.
- Delivery.Consume: a deletion message that is given up makes no claim about its row, as in the code; location-enrichment messages are left to `EntityLifecycle`.
- EntityLifecycle.MaterializedKeeps: a promotion looks up a scope value without pending edits, as its loop does; a pending retirement in the same scope would lift the protection.
- RowRepository.Repository: the dictionary of baselines is split into rows and absent identities; rows are values, so aliasing of loaded dictionaries by domain code is an explicit edit.
- RowRepository.List: rows are written in any order instead of by priority and key, which only matters for deadlocks between lock holders.
- RowRepository.Repository.Flush: candidates without id, run or geometry, which the writer skips.
- Multipart: how JSON metadata and header lines are decoded (function parameters), and the temporary file.
- `AfterSet` on an identity marked deleted without being read: the flush may raise "already exists"; such marks are outside `RunThenFlush`.
- SQL text, JSON encoding, PostGIS, category and source-reference tables, HTTP routing, tokens, object storage, malware scans, telemetry: I/O or wrappers.
- In-memory branches for a service without a database.
- Snapshot disappearance by source, conflation scores, location trees, upload sessions, retention and pagination: simpler, or resting on values the model cannot see.
