# A verified model of the MKB object, index, observation and ledger protocols

MKB keeps content-addressed bytes beside a relational catalogue and lets a garbage collector, upload
commands, lifecycle scans and other owners race over both. It retires superseded index generations behind
frozen deadlines, admits observations through a retry machine, and guards its own schema, cursors and
request rates. This project models those protocols step by step and proves what each promises over whole
runs. Where a promise is not kept, it names the exact condition under which it is.

## How it is organised

| files | subject |
|---|---|
| `LocalStore` | staging, live and quarantine files; promotion from a bounded stream; verified reads |
| `ObjectLedger` | catalogue, references, sessions, proofs, intents; every transaction as a function of the tables |
| `ObjectProtocol` | the state machine: every transaction and every locked file operation is one step, everyone interleaves, the collector may crash between any two of its steps |
| `ByteSafety`, `CrashHealing`, `GraceAndAba`, `UploadSessions`, `PassAccounts`, `LateCommit`, `SteppedOver`, `RefusedCancel` | what that machine keeps and what it does not |
| `LedgerAnswers` | what each of those transactions answers, exactly, read off the rows |
| `ObjectServices`, `OutcomeArtifacts` | the services as classes over mutable tables, each method proved equal to the machine's transaction or to a run of it |
| `TargetRef`, `IndexRetirement`, `RetirementSafety`, `RetirementConvergence`, `RetirementAnswers`, `RetirementService` | fenced retirement of index generations |
| `Observations`, `ObservationAgreement`, `ObservationAnswers`, `ObservationService` | observation admission, attempts and the transition ledger |
| `Pagination`, `GenerationRead`, `CursorCodec` | keyset listings, their cursors and the cursor text |
| `SqlComments`, `Migrations` | comment stripping and the migration chain |
| `RateLimiter`, `RetrievalCandidates` | the fixed-window limiter; candidate normalisation and the chunked fence |
| `Wrappers`, `Strings` | Option, Result, set extrema; split and join |

`dafny verify dfyconfig.toml` checks all of it.

## What is assumed

- Transactions are serialised and an exception undoes all of one (src/persistence/uow.py:26-50), so each is one step.
- There is one maintenance loop, so one collector. Its memory can be lost between any two steps.
- A digest stands for its bytes: SHA-256 and the keyed hash of a session token are injective constructors.
- Identifiers drawn from uuid7 are new. Where the schema would refuse a collision, so does the model.
- The clock does not go back. A release stamp is read before the write lock is granted, so it may be older
  than the transaction, but by less than the grace period; without that bound no grace claim is possible.
- Rows of one query that compare equal may come in any order. Every result holds for all of them.

## What the model found

- **Late commits.** A promotion that finds its target present can commit its row after the collector has
  tombstoned and destroyed that digest: `LateCommit.LateCommitLosesBytes` is such a run.
  `ByteSafety.ByteSafetyExactly` says which live rows are safe in every continuation, with a condition on the
  present state: the bytes are at the live path, or in quarantine and not about to be destroyed.
- **A stepped-over item.** `reconcile_quarantine` reads the catalogue twice for each item. If a row for the
  same bytes commits between the reads, the item is neither restored nor destroyed in that pass, and this is
  the only way quarantine is left non-empty (`CrashHealing.SteppedOverMeansRace`); in the run
  `SteppedOver.PassLeavesQuarantineNonEmpty` a live row's only copy is left there until the next pass.
- **Cancelling a reserved session.** `cancel_session` can return false and still release a hold. Keyed or
  keyless, a false answer changes the tables if and only if the session is reserved and its own hold is
  unreleased (`UploadSessions.RefusedCancelsExactly`). In `RefusedCancel.RefusedCancelLosesAReservation` the
  collector then takes the object and the reservation is still consumed.
- **Rollback and abandon.** The retirement service allows for a pointer that routes back to an older
  generation, but no writer in the repository lowers one, so the rollback is an assumed operator action. A
  pointer rolled back to a retired generation while its item is not served loses that generation when the open
  intent is abandoned (`RetirementSafety.RollbackThenAbandonEmptiesAServingGeneration`);
  `RetirementSafety.PurgeReachesTheNamedGenerationExactly` is the exact condition.
- **Starved discovery.** Repeated scans finish if and only if every superseded generation has a readable,
  printable row or an open intent that names it (`RetirementConvergence.ScansFinishExactly`). Unreadable
  pointer timestamps that sort first fill every discovery page for ever
  (`RetirementConvergence.UnreadableHeadStarvesDiscovery`), and one coordinate that cannot be printed undoes
  every page it is on (`RetirementConvergence.DiscoveryCreatesExactly`).
- **Stale failure reports.** A late report from the execution of an earlier attempt fails the current attempt
  (`ObservationAgreement.StaleReportFailsTheNewerAttempt`, exactly when:
  `ObservationAgreement.FailureLandsOnTheCurrentAttempt`).
- **Long cursors.** The encoder has no limit and the decoder stops at 2048 characters: exactly the payloads of
  at most 1536 bytes come back (`CursorCodec.CursorRoundTripExactly`).
- **Drift behind a gap.** A drifted migration stops the run before any body unless an earlier migration is
  missing from the ledger (`Migrations.BodiesRunExactly`, `Migrations.DriftAfterAGapRunsABody`).

## Model

| member | source | states |
|---|---|---|
| ByteSafety.ByteSafetyExactly | src/services/object_gc.py:169-331 | in any reachable state a live row keeps its bytes at the live path or in quarantine in every continuation, crashes and interleavings included, if and only if it is backed now |
| ByteSafety.CommittedBytesSurvive | src/services/object_gc.py:232-331 | a row whose bytes were live when it committed has them, matching its digest, for as long as it is not tombstoned |
| ByteSafety.RunKeepsInv | src/services/object_gc.py:169-331 | ledger, files, promotions and the collector's position stay consistent over every run |
| ByteSafety.TombstonedWasUnowned | src/services/object_gc.py:270-320 | a second check that tombstones a row proves it is the only live row of its location, has no unreleased reference, and has not been released since the first check |
| ByteSafety.UnbackedRowsCanLoseBytes | src/storage/local_store.py:137-141 | a live row that is not backed has a continuation of at most two steps that leaves it without bytes |
| LateCommit.LateCommitLosesBytes | src/services/object_upload.py:59-70 | nine steps from the empty system end in a live row with its bytes in neither place |
| CrashHealing.ReconcileHeals | src/services/object_gc.py:169-203 | at the completion of a pass, quarantine holds exactly the items it stepped over, each with a live row, and every live row backed at that moment and not stepped over is readable at the live path |
| CrashHealing.PassHeals | src/services/object_gc.py:169-203 | over a whole pass with anyone running meanwhile: a row backed at any moment of it, such as the commit of an upload whose bytes are then live, is intact at the live path at the end if it is still live, unless it was stepped over with its bytes in quarantine only |
| CrashHealing.PassHealsWhatItFound | src/services/object_gc.py:169-203 | the same of every row backed when the pass began |
| CrashHealing.SteppedOverMeansRace | src/services/object_gc.py:169-203 | an item is stepped over if and only if its second read finds a live newest row that its first read could not see |
| SteppedOver.PassLeavesQuarantineNonEmpty | src/services/object_gc.py:169-203 | a run from the empty system, with a crash and an upload committing late, whose completed pass leaves the only copy of a live row's bytes in quarantine |
| CrashHealing.QuietReconcileEmptiesQuarantine | src/services/object_gc.py:169-203 | with no catalogue write during the pass, quarantine ends empty and every recoverable live row is intact at the live path, after any crash |
| PassAccounts.PassAccountsForEveryItem | src/services/object_gc.py:169-203 | over any uninterrupted part of a pass, whoever else runs, every listed item is put back, destroyed, stepped over or still to visit, and only one of these |
| GraceAndAba.TombstonedOnlyAfterGrace | src/services/object_gc.py:240-260 | over every run, by the ledger's stamps, a tombstoned row was owned by nobody at any instant of the grace period before its tombstone nor later, was at least a grace period old if nobody ever owned it, and has exactly one proof |
| GraceAndAba.TakenReferenceAbortsTombstone | src/services/object_gc.py:270-289 | a reference taken between the two checks makes the second refuse, also when released again, because the release moves unowned_at |
| GraceAndAba.CollectableExactly | src/services/object_gc.py:134-167 | the candidate query returns exactly the live rows that the first check would pass or stop only for a cleanup fence |
| GraceAndAba.CandidatePageExactly | src/services/object_gc.py:134-167 | the page of that query holds collectable rows only, oldest first, none twice, and leaves one out only when it is full of older ones |
| LedgerAnswers.CollectableMeans | src/services/object_gc.py:146-164 | a live row is collectable exactly if every reference to it was released a grace period ago and, if there never was one, it is itself that old |
| LedgerAnswers.ChecksExactly | src/services/object_gc.py:240-320 | each answer of both checks of a deletion: stale or in conflict exactly if the row or its unowned time is not as read, else what the fences say, else passed, tombstoned or a database failure |
| LedgerAnswers.BlockersExactly | src/services/object_gc.py:353-380 | the fences in order: a second live row, the kind of the oldest unreleased reference, then a protecting cleanup intent |
| LedgerAnswers.CleanupFencesExactly | src/services/object_gc.py:378-432 | an otherwise collectable candidate is answered with the cleanup fence if and only if an open intent of its Team has unreadable holds or one of the six spellings of the object among the strings, at any depth, of its holds, target or snapshot; a tombstone implies there is none |
| UploadSessions.ReachableLedgersAreSound | src/services/object_gc.py:353-380 | over every run with all writers: at most one live row per Team and digest, unreleased references on live rows only, tombstones and proofs one to one, sessions in agreement with holds |
| UploadSessions.SessionsOwnTheirHolds | src/services/object_upload.py:171-256 | a committed keyed session owns exactly one unreleased hold on a live row, a terminal one owns none, and Team and key name one session |
| UploadSessions.SessionsPersist | src/services/object_upload_ttl.py:54-66 | over every run a session keeps its Team, key, bytes and hold, and consumed, cancelled and expired are absorbing |
| UploadSessions.ReplayReturnsTheSameToken | src/services/object_upload.py:85-135 | the same key with the same bytes, after any run, writes nothing and returns the first token while the object is live, and is refused once it is tombstoned |
| UploadSessions.StatusFollowsTheHold | src/services/object_upload.py:264-316 | to the owner of a session token, status is pending exactly while that session's hold is unreleased and gone exactly when no row of the bytes is live |
| LedgerAnswers.UploadsAddTheirHold | src/services/object_upload.py:79-256 | every successful upload that is not a keyed replay adds exactly one unreleased pending hold, owned by the session of a keyed call and by a public upload otherwise, on the live row of the promoted bytes; a new command adds its session with its token |
| LedgerAnswers.UploadAnswersExactly | src/services/object_upload.py:79-135 | which uploads are new, which are replays, and when each refusal is given |
| LedgerAnswers.TokensExactly | src/services/object_upload.py:363-386 | a token is accepted exactly if it is the one issued for a session of this Team |
| LedgerAnswers.SessionCommandsExactly | src/services/object_upload.py:318-361 | what reserve, consume and cancel answer and write: the state each needs, the one session it moves and the one hold it releases |
| LedgerAnswers.ScanExactly | src/services/object_upload_ttl.py:40-66 | a scan releases exactly its page of old pending holds not kept by a reserved or consumed session, expires the committed sessions that own them, and changes nothing else |
| LedgerAnswers.AbandonedExactly | src/services/object_upload_ttl.py:40-52 | which holds the scan's query selects |
| LedgerAnswers.CancelHandleExactly | src/services/object_upload_ttl.py:71-91 | refused exactly without a live row; else the newest public-upload hold on it is released and nothing else, and the answer says whether there was one |
| LedgerAnswers.StatusExactly | src/services/object_upload.py:264-316 | every disposition and refusal of stat, with and without a token |
| UploadSessions.OnlyItsOwnCommandsEndAReservation | src/services/object_upload.py:318-361 | one step takes a reserved session's hold away if and only if it is its own consume or its own cancel_session |
| UploadSessions.ReservedUploadsSurvive | src/services/object_upload_ttl.py:40-122 | while a reserved session has its hold, no run of scans, sibling cancels, handle cancels or collector passes releases it, tombstones the row or loses bytes that were live, until its own consume or cancel_session |
| UploadSessions.ReservingGuards | src/services/object_upload.py:318-339 | reserve_session of a keyed committed session succeeds and leaves it reserved with its hold |
| UploadSessions.UploadsSurviveTheirReservation | src/services/object_upload.py:74-361 | from a new keyed upload whose bytes were live at its commit, through whatever runs before reserve_session, to the end of the reservation: hold, row and bytes survive |
| UploadSessions.CancellingAReservationDropsItsHold | src/services/object_upload_ttl.py:93-122 | cancelling a keyed reserved session returns false, leaves it reserved, and releases its hold |
| UploadSessions.RefusedCancelsExactly | src/services/object_upload_ttl.py:93-122 | for every token and session, a cancel that returns false changes the tables if and only if the session is reserved and its own hold is unreleased, and that release is then the whole change |
| RefusedCancel.RefusedCancelLosesAReservation | src/services/object_upload_ttl.py:93-122 | a run from the empty system: upload, reserve, a cancel that returns false, tombstone and destruction by the collector, and consume_session still succeeds |
| ObjectProtocol.OthersGrow | src/services/artifacts.py:27-169 | every step of everyone but the collector only adds rows and references or releases in time, and moves no byte at rest |
| ObjectServices.Ledger.Upload | src/services/object_upload.py:74-262 | the catalogue transaction of an upload: new session, replay, conflict, tombstoned catalogue and keyless variants |
| ObjectServices.Ledger.ReserveSession | src/services/object_upload.py:318-339 | committed becomes reserved for a task and generation; any other state is left alone |
| ObjectServices.Ledger.ConsumeSession | src/services/object_upload.py:341-361 | reserved becomes consumed and its holds are released; any other state is left alone |
| ObjectServices.Ledger.CancelSession | src/services/object_upload_ttl.py:93-122 | releases the session's holds always and moves its state only from the cancellable ones |
| ObjectServices.Ledger.CancelHandle | src/services/object_upload_ttl.py:71-91 | releases exactly the newest public-upload hold on the live object |
| ObjectServices.Ledger.CatalogStat | src/services/artifacts.py:143-169 | reuses the live row of a stat or adds one, and references it for its owner |
| ObjectServices.Ledger.Stat | src/services/object_upload.py:264-316 | the disposition of a handle, with or without a session token |
| ObjectServices.Ledger.ExpireHolds | src/services/object_upload_ttl.py:40-66 | releases each abandoned hold of the page and expires the session behind it; a short page leaves none abandoned |
| ObjectServices.ObjectSystem.DeleteCandidate | src/services/object_gc.py:232-351 | is exactly one run, its own steps with the given gaps between them, and its result follows from that run; a proof is added exactly for a deletion, and only a database failure of the second transaction leaves bytes in quarantine |
| ObjectServices.DeletionReportsExactly | src/services/object_gc.py:232-331 | what a deletion reports is read off the last step of its run and the tables before it: deleted, missing bytes, a database failure, a fence, or a conflict |
| ObjectServices.ObjectSystem.ReconcileQuarantine | src/services/object_gc.py:169-203 | is exactly one run, its own reads and moves with the given gaps between them, that completes the listing; the count returned is of the items it put back, and with those destroyed and stepped over makes up the listing |
| ObjectServices.ObjectSystem.CollectCandidates | src/services/object_gc.py:134-167 | the page of the candidate query, each row with the unowned time it was read with |
| ObjectServices.ObjectSystem.ScanOnce | src/services/object_gc.py:205-230 | a completed pass, the candidates of the query at that moment, then their deletions one after the other with their results; as many proofs are added as deletions are reported |
| OutcomeArtifacts.OutcomeArtifactCommitter.Stage | src/services/artifacts.py:63-101 | one entry per process fence, never more than 1024; staging again succeeds exactly for the same bytes and execution and is a conflict otherwise |
| OutcomeArtifacts.OutcomeArtifactCommitter.ValidateAndCommit | src/services/artifacts.py:103-138 | an outcome commits at most once, only if it matches what was staged, and any error leaves the ledger as it was |
| OutcomeArtifacts.CommitReferencesBoth | src/services/artifacts.py:121-137 | a committed outcome leaves both manifests referenced on live rows, one row if they are the same bytes, in a sound ledger |
| LocalStore.DrainAccepts | src/storage/local_store.py:85-104 | a stream is accepted exactly when every chunk is bytes and the whole fits, and then nothing is lost or reordered |
| LocalStore.StepsKeepBytes | src/storage/local_store.py:127-241 | no locked step makes a file disagree with its name, and only destroy can lose bytes |
| LocalStore.PromotedBytesAreReadable | src/storage/local_store.py:78-150 | what a promotion acknowledges is at the live path byte for byte, and a refusal changes nothing |
| LocalStore.PromotionExactly | src/storage/local_store.py:78-150 | a promotion succeeds if and only if every chunk is bytes, the whole fits the budget, an upload is not empty and an expected digest is that of the whole; each refusal has its exact condition |
| LocalStore.LocalObjectStore.PromoteStream | src/storage/local_store.py:78-150 | draining, checking and promoting a stream; no staging file is left behind |
| LocalStore.LocalObjectStore.Receive | src/storage/local_store.py:82-104 | the receiving loop stages exactly the bytes of the stream or names the first offence |
| LocalStore.LocalObjectStore.PromoteStaged | src/storage/local_store.py:127-150 | staged bytes go to the live path, or the bytes already there are checked and kept |
| LocalStore.LocalObjectStore.QuarantineObject | src/storage/local_store.py:186-201 | moves live bytes to quarantine, and says whether there were any |
| LocalStore.LocalObjectStore.RestoreQuarantined | src/storage/local_store.py:203-220 | live bytes win over a quarantined copy; otherwise the copy goes back |
| LocalStore.LocalObjectStore.DestroyQuarantined | src/storage/local_store.py:237-241 | removes the quarantined copy and nothing else |
| LocalStore.LocalObjectStore.ReadVerified | src/storage/local_store.py:162-173 | returns bytes exactly when handle, Team, file and digest agree, and names each refusal |
| TargetRef.ParsePrinted | src/services/index_retirement.py:563-589 | parsing a printed target gives the same item, namespace and generation |
| TargetRef.PrintParsed | src/services/index_retirement.py:575-589 | any text that parses is exactly what printing its parse gives |
| TargetRef.PrintingIsInjective | src/services/index_retirement.py:563-573 | different coordinates print differently |
| TargetRef.PrintsInFull | src/services/index_retirement.py:563-573 | the printed text of an example, character for character |
| RetirementSafety.RetirementSparesServing | src/services/index_retirement.py:369-561 | no retirement step touches a record at or above the generation a serving pointer names, however pointers moved before |
| RetirementSafety.NothingAtOrAboveThePointerIsRetired | src/services/index_retirement.py:507-539 | with generations that only increase, whole runs change only records below where the pointer ends up, abandoned intents included |
| RetirementSafety.PurgeReachesTheNamedGenerationExactly | src/services/index_retirement.py:389-426 | a purge retires the generation a pointer names if and only if its intent is the open due candidate and the pointer is not serving |
| RetirementSafety.RollbackThenAbandonEmptiesAServingGeneration | src/services/index_retirement.py:507-539 | a run after which a pointer serves a generation whose every record was retired |
| RetirementSafety.RunKeepsInv | src/services/index_retirement.py:157-505 | one open intent per Team and target, proofs and completions one to one, and every deletion explained, after every run |
| RetirementSafety.EveryDeletionIsDueAndProven | src/services/index_retirement.py:369-505 | from empty tables: each deleted record has a closed intent of its own generation whose deadline had passed, and each completed intent exactly one proof |
| RetirementSafety.DeadlinesAreFrozen | src/services/index_retirement.py:206-264 | over every run, changes of the grace included, an intent keeps its coordinates and deadline, and closed is final |
| RetirementSafety.ScheduleShape | src/services/index_retirement.py:157-264 | scheduling writes nothing or adds one open intent for a target that had none; a stored target always parses |
| RetirementSafety.ScheduleExactly | src/services/index_retirement.py:157-264 | scheduling succeeds exactly when the coordinates are valid and the fence names the serving pointer as it stands; an open intent keeps its deadline, a new one gets cutover plus grace |
| RetirementAnswers.ScheduleRefusesExactly | src/services/index_retirement.py:168-203 | each refusal of scheduling in its order |
| RetirementAnswers.CutoverExactly | src/runtime/intake/index_rebuild_commit.py:105-159 | a cutover moves the pointer forward and leaves an open intent for the generation it superseded, or does nothing at all, and exactly when |
| RetirementAnswers.DispositionsExactly | src/services/index_retirement.py:374-426 | each disposition of a purge; a stored target is never invalid |
| RetirementAnswers.PurgeChangesExactly | src/services/index_retirement.py:427-539 | a purge or abandonment deletes exactly the live records of the named generation, and reports and proves their number; other dispositions change nothing |
| RetirementConvergence.ScanDecreases | src/services/index_retirement.py:340-367 | with generations having only increased, deadlines past and every superseded generation readable or named by an open intent, one scan at any limit strictly lowers twice the backlog plus the open intents, or both are zero |
| RetirementConvergence.ScansFinish | src/services/index_retirement.py:340-367 | then as many scans as that measure leave no open intent and no live generation below a serving pointer |
| RetirementConvergence.ScansFinishExactly | src/services/index_retirement.py:267-367 | with generations having only increased and deadlines past, every legal sequence of at least that many scans ends with nothing open and nothing superseded if and only if every superseded generation was readable and printable or named by an open intent |
| RetirementConvergence.StuckForEver | src/services/index_retirement.py:291-313 | a superseded generation that is neither stays superseded through any number of scans |
| RetirementConvergence.DiscoveryCreatesExactly | src/services/index_retirement.py:267-313 | discovery opens one intent for each readable row of its page that had none, and for no other generation, or fails and writes nothing exactly when a readable row cannot be printed |
| RetirementConvergence.UnreadableHeadStarvesDiscovery | src/services/index_retirement.py:291-301 | a page's worth of unreadable timestamps that sort first stops discovery whatever else waits |
| RetirementService.IndexGenerationRetirement.ScheduleRetirement | src/services/index_retirement.py:157-264 | the scheduling transaction with its three refusals; on success the intent returned is open and names the retired generation, and the invariant is kept |
| RetirementService.IndexGenerationRetirement.DiscoverRetirements | src/services/index_retirement.py:267-313 | the loop over a page, undone as a whole by an error on any row; the invariant is kept |
| RetirementService.IndexGenerationRetirement.SoftPurge | src/services/index_retirement.py:369-539 | every disposition of a candidate, with the records, proof and intent it leaves; the invariant is kept and intents change only when purged or abandoned |
| RetirementService.IndexGenerationRetirement.ScanOnce | src/services/index_retirement.py:340-367 | discovery, then each due candidate in order, with their outcomes; the invariant is kept |
| ObservationAgreement.ObservationsAgree | src/services/observation_reservations.py:133-275 | after every run attempts are numbered 1 to the generation, all but the last failed, the last in the observation's state; accepted coincides with one link; each attempt's ledger folds to its state and revision |
| ObservationAgreement.HistoryIsFinal | src/services/observation_reservations.py:293-468 | over every run the ledger is append-only, owners are kept, and accepted observations, closed attempts and links never change |
| ObservationAgreement.OneOwnerUntilFailure | src/services/observation_reservations.py:81-183 | after any run a repeated admission is answered with the reserving task until that attempt fails, and then a typed retry of the right generation gets the next attempt |
| ObservationAgreement.AdmissionExactly | src/services/observation_reservations.py:133-183 | an existing observation admits exactly a repeat of its own fingerprint before failure and a typed retry of its generation after; an empty place admits exactly a first attempt |
| ObservationAgreement.SnapshotsAreExclusive | src/services/observation_reservations.py:338-356 | over every run no two observations of a Team are linked to the same snapshot |
| ObservationAgreement.ReportsMoveTogether | src/services/observation_reservations.py:293-428 | observation row, attempt row and ledger move together or not at all, also in updates whose row count is not looked at |
| ObservationAnswers.AcceptanceExactly | src/services/observation_reservations.py:338-384 | an acceptance succeeds if and only if the observation is acquired and no observation of its Team is linked to that snapshot; each other answer has its exact condition |
| ObservationAnswers.AcquisitionExactly | src/services/observation_reservations.py:293-336 | moves a reserved observation, is silent about an acquired one, refuses accepted and failed ones |
| ObservationAnswers.FailureExactly | src/services/observation_reservations.py:386-428 | moves a running observation and is silent about a closed one |
| ObservationAnswers.RefusalsExactly | src/services/observation_reservations.py:92-183 | each refusal of an admission, exactly |
| ObservationAnswers.AdmissionRecords | src/services/observation_reservations.py:185-275 | what a successful admission leaves: the observation of its place with its fingerprint and owner, its attempt, and the execution that now reports for it; a replay leaves only the source |
| ObservationAnswers.PlacesMeetExactly | src/services/observation_reservations.py:44-54 | two requests to one source meet at one observation exactly if their keys agree |
| ObservationAgreement.FailureLandsOnTheCurrentAttempt | src/services/observation_reservations.py:386-428 | a failure report changes an attempt if and only if it is the running current one of its execution's observation |
| ObservationAgreement.StaleReportFailsTheNewerAttempt | src/services/observation_reservations.py:386-428 | a run in which the first attempt's execution fails the second attempt |
| ObservationService.ObservationReservations.ResolveObservation | src/services/observation_reservations.py:81-183 | the admission decision with each of its refusals |
| ObservationService.ObservationReservations.Admit | src/services/observation_reservations.py:81-275 | decision and reservation as one transaction that keeps the agreement |
| ObservationService.ObservationReservations.MarkAcquired | src/services/observation_reservations.py:293-336 | moves a reserved attempt to acquired, is silent when already there, refuses otherwise |
| ObservationService.ObservationReservations.MarkAccepted | src/services/observation_reservations.py:338-384 | links the snapshot once and accepts an acquired attempt |
| ObservationService.ObservationReservations.MarkFailed | src/services/observation_reservations.py:386-428 | fails the current attempt if it is still running |
| Pagination.PagesComplete | src/services/generation_read.py:284-330 | over a growing table, followed pages are strictly descending, list only its rows and, once finished, everything present at the start |
| Pagination.PagesEnd | src/services/generation_read.py:309-330 | a listing finishes within as many pages as the rows fill |
| GenerationRead.ListingIsComplete | src/services/generation_read.py:260-330 | the same of the service: every matching artifact present throughout is listed exactly once in order, and the listing ends |
| GenerationRead.ListRefusesExactly | src/services/generation_read.py:260-311 | each refusal of a listing, in order |
| GenerationRead.KeysExactly | src/services/generation_read.py:284-296 | a row is listed exactly if it is the task's and has every value the filter asks for |
| GenerationRead.GenerationArtifacts.ListArtifacts | src/services/generation_read.py:260-330 | one page, its next cursor and its refusals |
| CursorCodec.StrippedPaddingIsRecomputed | src/services/generation_read.py:142-153 | stripping the padding and recomputing it from the length gives the padded text back |
| CursorCodec.CursorRoundTripExactly | src/services/generation_read.py:142-164 | decoding an encoding gives the bytes back if and only if there are at most 1536 |
| CursorCodec.CursorsAreDistinct | src/services/generation_read.py:142-145 | different payloads of any length have different cursors |
| CursorCodec.AlphabetIsUrlSafe | src/services/generation_read.py:142-155 | the symbols are those of the URL-safe alphabet and both spellings of the last two are read |
| CursorCodec.GroupIsItsNumber | src/services/generation_read.py:142-145 | four symbols spell the number of their three bytes |
| CursorCodec.CursorsAcceptedExactly | src/services/generation_read.py:147-157 | an unpadded cursor decodes exactly if it is short enough, of a possible length and in the alphabet |
| SqlComments.StripSqlLineComments | src/persistence/migration_runner.py:28-62 | the index loop computes the text of the lexer's tokens without its comments, and ends |
| SqlComments.StrippedLexes | src/persistence/migration_runner.py:28-62 | the stripped text lexes to the same tokens, comments gone |
| SqlComments.StrippingIsSafe | src/persistence/migration_runner.py:28-62 | literals come through in order, no comment and no double dash outside a literal is left, a second pass changes nothing, and the first changes nothing exactly on comment-free text |
| SqlComments.LinesArePrefixes | src/persistence/migration_runner.py:53-59 | line for line the result is a prefix of the original: no newline is lost or added |
| Migrations.StoppedRunLeavesAPrefix | src/persistence/migration_runner.py:109-145 | a run stopped anywhere leaves exactly the first migrations applied, each body once and in order |
| Migrations.RerunReachesTheSameSchema | src/persistence/migration_runner.py:109-145 | an interrupted run and its rerun end as one uninterrupted run does |
| Migrations.MarkedExactly | src/persistence/migration_runner.py:131-133 | a file is accepted exactly if it is some text, the marker and blanks |
| Migrations.AppliedExactly | src/persistence/migration_runner.py:132-141 | the script executed for a file lexes to the tokens of its text without comments, and is the text itself if it has none; one ledger row goes with it |
| Migrations.PrefixExecutesItsTexts | src/persistence/migration_runner.py:109-145 | after any stopped runs the scripts executed are those of the first files, in order |
| Migrations.BodiesRunExactly | src/persistence/migration_runner.py:113-130 | a run executes a body if and only if no row is unknown and the first entry out of line is a missing one that can run |
| Migrations.DriftInAPrefixStopsEverything | src/persistence/migration_runner.py:121-126 | over a prefix of ids, drift stops the run with nothing executed |
| Migrations.UnknownRowStopsEverything | src/persistence/migration_runner.py:117-120 | a run refuses as unknown, untouched, if and only if some ledger row is not in the chain |
| Migrations.DriftAfterAGapRunsABody | src/persistence/migration_runner.py:121-145 | a ledger with a gap for which a body runs before drift is reported |
| Migrations.VerifiedExactly | src/persistence/migration_runner.py:148-163 | verification accepts exactly the complete ledger over the core tables |
| Migrations.MigrationRunner.ApplyMigrations | src/persistence/migration_runner.py:109-145 | the loop over the chain, with the engine failing at any body |
| Migrations.MigrationRunner.VerifyMigrations | src/persistence/migration_runner.py:148-163 | the loop that compares chain and ledger |
| RateLimiter.LimiterBounds | src/runtime/security.py:189-204 | over every run each identity gets at most its limit in each window and the map never exceeds max_buckets + 4, even if a clock reading is a window late |
| RateLimiter.AtMostTwiceTheLimit | src/runtime/security.py:189-204 | no interval as long as the window sees more than twice the limit |
| RateLimiter.TwiceTheLimitIsReached | src/runtime/security.py:189-204 | and that bound is reached |
| RateLimiter.GrantedExactly | src/runtime/security.py:189-204 | while the map has room for every identity and window asked for, a call is granted if and only if fewer calls than the limit came before it in its window |
| RateLimiter.DisabledGrantsEverything | src/runtime/security.py:190-191 | a switched-off limiter grants every call and remembers none |
| RateLimiter.FixedWindowRateLimiter.Allow | src/runtime/security.py:189-204 | pruning, overflow counter, count and verdict of one call |
| RateLimiter.FixedWindowRateLimiter.Check | src/runtime/security.py:206-213 | a failing clock refuses the call and raises the degraded signal |
| RateLimiter.FixedWindowRateLimiter.CheckIp | src/runtime/security.py:215-216 | an address counts under its hash, and under one shared name if there is none |
| RateLimiter.FixedWindowRateLimiter.CheckToken | src/runtime/security.py:218-219 | a token counts under its fingerprint in its own dimension |
| RetrievalCandidates.NormaliseCandidates | src/persistence/retrieval_access.py:255-280 | the dictionary and conflict-set loop computes the agreeing ids in order of first appearance |
| RetrievalCandidates.NormalisedExactly | src/persistence/retrieval_access.py:255-280 | the result is exactly the ids seen with one and only one valid coordinate, each once |
| RetrievalCandidates.CoordinatesExactly | src/persistence/retrieval_access.py:246-272 | the coordinates seen for an id are those of the mappings whose three values are clean texts |
| RetrievalCandidates.NormalisedInOrder | src/persistence/retrieval_access.py:255-280 | the ids come in the order of their first usable appearance |
| RetrievalCandidates.OrderAndRepetitionDoNotMatter | src/persistence/retrieval_access.py:255-280 | the same candidates in any order and number normalise to the same set |
| RetrievalCandidates.FilterRetrievalEligible | src/persistence/retrieval_access.py:121-165 | chunks of any size approve what one query over everything would |
| RetrievalCandidates.ApprovedExactly | src/persistence/retrieval_access.py:121-165 | an id is approved if and only if its valid coordinates agree and name a live record of the Team that its item serves |

## Left out

- Media types, promotion journals, the digest columns repeated on references, and row revisions of upload sessions: written alongside and read by nothing modelled here.
- `_reference_object` in src/services/scatter_intake.py: references are modelled as taken on live rows; that it repeats the liveness check itself is not part of this model.
- Keyless upload sessions in the committed-owns-a-hold result: `cancel(handle)` releases their hold without moving the session; they run as an extra writer.
- Concurrent collectors: the repository runs one maintenance loop.
- `delete_if_unreferenced`, `reap_staging_before`, directory creation, fsync and permissions of the local store.
- Vector purges and cleanup jobs, which delete vector records and complete intents of other policies under their own rules.
- The second pointer read and the row-count fences inside one retirement transaction: they cannot fire once transactions are serialised.
- Text forms of timestamps: a stamp is its place in the sort order and the instant it parses to; that fixed-width UTC text sorts as time is taken for granted.
- TargetRef.ParsePrinted: spellings of integers that Python's `int` accepts beyond signed ASCII digits are read as no number; none of them prints back to itself, so parsing rejects them either way.
- RetirementConvergence.ScansFinishExactly: nobody writes between the transactions of one scan; the safety results allow any interleaving.
- The `expected_observation_revision` column is recorded as the source records it, and nothing reads it; the acceptance facts and item epochs kept by other services are not part of this model.
- Trimming, case folding and the fingerprint digest of an observation request: they have been applied to the strings of a request.
- The JSON inside a cursor and the filter digest: injective, so a cursor is its decoded fields or malformed. CursorCodec covers the text.
- CursorCodec.CursorRoundTripExactly: a presented cursor with padding characters of its own is decoded strictly; what lenient decoders accept beyond that is not modelled.
- `list_pointers`, artifact views and deletion tombstone bodies of the generation read service.
- Statements inside a migration body: a body is assumed to open the transaction that the runner commits, so it is one step; file discovery and whitespace beyond Latin-1 are left out.
- `DenialAuditSampler`, redaction, egress policy and the other parts of src/runtime/security.py.
- Projection parsing and hydration in src/persistence/retrieval_access.py.
- HTTP routes, composition, settings, inference adapters, acquisition, the workflow engine and static tables.
