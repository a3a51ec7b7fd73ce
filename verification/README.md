# TOD-DL verification

TOD-DL is a resumable downloader for very large file collections. This project models the parts of
it whose value lies in what survives crashes, concurrent workers, operator commands and unfriendly
input, and proves what they promise.

- **Promotion and recovery** (`Promotion*`, `Checksums`, `Verdicts`, `MovedStorage`, `Recovery*`). A
  transition system whose steps are single SQL commits, single file-system calls, single appended records,
  engine writes and crashes. The file system maps names to inodes and inodes to bytes, so that staging, candidate and
  final names can share an inode. One invariant (`PromotionSafety.Inv`) holds in every reachable
  state; the safety theorems follow from it. A controller start is also given as a function that
  lists every disk it leaves behind, effect by effect; the imperative `Recovery.Controller` is proved
  against that function, and the function is proved to be a run of the transition system. `Checksums`
  follows the expected checksum from the queue to the final; `Verdicts` and `RecoveryVerdicts` say, column
  by column, what every decision of a transfer and of a start leads to.
- **Admission and rechecks** (`Scheduler`, `Recheck`). What `next_pending` may return, how often an
  item starts, how many workers run, and how often an unavailable item is claimed.
- **Ledger, projection, metrics, inspection** (`RunLedger`, `Projection*`, `Metrics`, `RunMetrics`,
  `Paging`, `Attempts`). The committed changes of one session, the summary that is maintained change by
  change, the metrics reduced from it and published while the run serves, and keyset pages served while
  the controller commits.
- **Provenance** (`Provenance*`). A hash-chaining writer and the independent verifier, joined to the
  promotion protocol by `ProvenanceRun`; `ProvenanceMeaning` says what is accepted without the schema's
  interpreter.
- **Inventory** (`LineReader`, `Utf8`, `Listing*`, `Strings`, `Url*`, `Queue*`, `Manifest*`, `Diff*`).
  From the bytes of a listing to a queue file and back to the downloader's entries, and the diff of two
  snapshots. `ListingGrammar` and the `*Meaning` modules say what the functions of each stage do to the text
  of a line, a path, a URL or a queue line.
- **Commands and fixture** (`Control`, `RangeFixture`). Confirmed commands over restarts, and the
  generated representation with its range server.

Source code that changes fields is a class with methods (`Recovery.Controller`,
`Projection.TelemetryStateProjection`, `Metrics.TelemetryPublisher`, `ProvenanceWriter.Writer`,
`LineReader.Stream`, `Listing.ListingParser`, `Control.ControlServer`); loops are methods with
invariants; expressions are functions. Every lemma turns Dafny's automatic induction off, so each
proof rests on its body alone.

## What does not hold

Where a promise fails, the project gives a concrete state or input and, next to it, the exact
condition under which the code keeps it.

- The recovery checks the promotion target and records the stored path, and an import may move the
  stored path in between. A step makes a record false exactly when it is such a record
  (`StepKeepsRecordsIff`), and whether it comes to that is decided when the import runs: the target is
  still free and a file with another digest is at the legacy path (`MisrecordedIff`).
  `MovedStorageExample` is a whole run from the empty state that ends so.
- The recovery never looks at the expected checksum of an interrupted promotion, so an import that brings another
  checksum after a crash leaves a complete item against its checksum (`LateChecksumExample`). Such an import is the only step that can do so (`StepKeepsChecksumIff`), and
  without it every complete item has the bytes that were expected (`CompleteIsExpected`).
- The selection of a run is not one transaction: a crash while it is made can leave a truncated one
  for good, unless nothing was committed, the limit was reached, or every missing entry was already
  taken (`CrashedSelectionIff`, `CrashAfterEntryIff`, `TruncatedSelectionExample`).
- A control request that moves an item twice counts it twice in the summary (`CommitAgreesIff`,
  `RequestAgreesIff`, `HistoryAgreesIff`).
- Two changes of one item that are applied in the wrong order leave an old retry and an old revision
  (`SwappedChangesExample`). The retry map agrees exactly when the change applied last for every item
  leaves the retry of the change committed last (`RetriesAgreeIff`), the revision exactly when the
  change applied last is one of the newest (`RevisionAgreesIff`).
- A finalized event may say that a validator is unavailable and yet compared: the writer accepts it,
  the verifier does not (`WrittenEventOkIff`, `ComparedUnavailableIsWritten`).
- A record that cannot be appended still uses up its sequence number; after that no closed record
  set is accepted (`ProvenanceWriter.Writer.Close`).
- The publisher copies its active samples before the projection, so an item that completes in between
  is counted twice (`DoubleCountExample` is such a run). The published report is right if and only if
  the samples of complete items add nothing (`PublishedReportAgreesIff`), which is so whenever no
  sampled item commits its completion between the two copies.
- A start that imports the same queue again changes nothing if and only if every storage path still
  resolves to itself (`ReimportKeepsIff`). After the recovery of `MovedStorageExample` it does not: the
  path moves a second time (`MovedReimportExample`). A queue without older paths settles at once
  (`PlainQueueSettles`).
- The path `data/ALL_FILES` cannot be exported under a base without `/data`
  (`ExportSucceedsIff`), a collection name that unquoting changes does not round-trip
  (`UrlRoundTripIff`), and a source generation loses the newline that its pattern lets it end in
  (`GenerationSurvivesIff`).
- A scripted body override of the fixture is sent like the representation: the client holds a prefix of
  the representation if and only if every script has no override, or one with a status other than 200,
  or one whose bytes are a prefix (`OneResponseIff`, `DownloadIsPrefixIff`; `OverrideExample` is a download that
  one plain response no longer completes).
- "Retry now" prepared for the whole run may be confirmed for other items (`ItemsAreFixedIff`,
  `RetryScopeExample`).
- A differing source generation makes an unavailable item due at once, so two claims can fall in one
  day (`RecheckRate` has the exact bound, `EarlyRecheckExample`).
- A candidate file is not immutable: it changes exactly when an engine resumes a staging file that
  still shares its inode (`CandidateChangesOnlyByAlias`).
- The inspection bucket and the display bucket of a row differ exactly for excluded items
  (`BucketsAgreeIff`).
- No change of the attempt listing raises the revision, neither a new attempt nor a new outcome
  (`ListingIsUnguarded`, `UnguardedOutcomeExample`), so a walk over the attempts can mix outcomes of
  several states; `WalkShowsOutcomesIff` says exactly when it does not.

## Model

Lemmas whose names end in `Is`, `Means`, `Verdict` or `Outcome` state a result in columns, characters and
positions, without the functions that compute it; the theorems about runs rest on those functions.

| member | source | states |
|---|---|---|
| PromotionSteps.StepKeeps | src/tod-dl.py:2516-2853 | every commit, file-system call, record, engine action, operator action, import, recovery step and crash keeps the whole promotion invariant; `Checksums` and `Verdicts` say what each decision rests on |
| PromotionTheorems.ReachableInv | src/tod-dl.py:2532-2853 | the invariant holds in every state of every run, crashes anywhere included |
| PromotionTheorems.EngineSparesFinals | src/tod-dl.py:2592-2592 | no engine write reaches an inode that has a name in the destination |
| PromotionTheorems.FinalsNeverChange | src/tod-dl.py:2733-2781 | once a final exists, no later state of any run has it changed, replaced or removed |
| PromotionTheorems.CompleteHasEvidence | src/tod-dl.py:2733-2781 | in every reachable state a complete row has a digest, a finalized record of the item with that digest, and a final that hashes to it at the path of that record or at the promotion target of the row |
| PromotionTheorems.RecordPrecedesCompletion | src/tod-dl.py:2769-2773 | the record and the matching final, at the path of the record or at the promotion target of the row, exist before the step that makes the row complete |
| Checksums.PromotingIsExpected | src/tod-dl.py:2710-2738 | in every run the transfer step that makes a row promoting finds staged bytes, records their digest, and that is the expected checksum whenever there is one |
| Checksums.CompletedIsExpected | src/tod-dl.py:2769-2773 | the transfer step that completes a row records the digest of the bytes of a final, and that is the expected checksum whenever there is one |
| Checksums.StepKeepsChecksumIff | src/tod-dl.py:1763-1790 | a step sets a recorded digest against the expected checksum, outside of the review of a mismatch, if and only if it is an import that gives the item another checksum |
| Checksums.ChecksumsAreKept | src/tod-dl.py:2532-2853 | so along a run without such an import no recorded digest is against the expected checksum, outside of such a review |
| Checksums.CompleteIsExpected | src/tod-dl.py:2532-2853 | then every complete item with an expected checksum has a final whose bytes have it, through crashes, recoveries and operator actions |
| Checksums.LateChecksumExample | src/tod-dl.py:2798-2825 | a run with a crash, an import of another checksum and a recovery completes an item against its checksum |
| Verdicts.AdmissionVerdict | src/tod-dl.py:2532-2555 | a chosen item is admitted; then an existing final ends the transfer as unverified, and without one it is reserved |
| Verdicts.ResumeVerdict | src/tod-dl.py:2559-2587 | an engine starts on staged bytes that no checksum protects if and only if stored and observed entity tags are present and equal; the attempt is counted, and with nothing staged the observed validators become the baseline |
| Verdicts.DoubtVerdict | src/tod-dl.py:2575-2583 | otherwise, and only then, the bytes go to review, with the code of a change exactly when two known entity tags, or without a stored one two known dates, differ |
| Verdicts.GatedResume | src/tod-dl.py:2575-2587 | in every run an engine starts on unprotected bytes only with equal entity tags |
| Verdicts.EngineVerdict | src/tod-dl.py:2597-2612 | a finished engine run is hashed if and only if it succeeded, left its file and no control file; it stalls if and only if it did not and a second incomplete body brought no more bytes; else it fails |
| Verdicts.EngineOutcome | src/tod-dl.py:2597-2680 | what each class of failure does to status, attempts, size, code and deadlines: a full disk gives the attempt back, a denial asks the operator, a missing file is due again after one day, anything else waits 60, 120, 240 or 300 seconds |
| Verdicts.DigestVerdict | src/tod-dl.py:2710-2747 | a digest against the expected checksum leads to the review of a mismatch and nowhere else; without one, or with an equal one, it never does; then an announced size decides, and only a file that passes both is promoted |
| Verdicts.DigestOutcome | src/tod-dl.py:2710-2747 | where each of these verdicts leads |
| Verdicts.PromoteVerdict | src/tod-dl.py:2748-2777 | after the intent comes the link, or a collision exactly when the final exists, then the record, the completion, the removal of the staging name and its commit, one after the other |
| Verdicts.PromoteOutcome | src/tod-dl.py:2748-2777 | what each of these steps leaves in files, records, rows and tasks |
| Verdicts.MoveGoesOn | src/tod-dl.py:2516-2530 | a move to the candidates keeps its cause and changes no row before it ends |
| Verdicts.MoveOutcome | src/tod-dl.py:2711-2731 | the link to a free candidate name, the removal of the staging name, the move of the control file and the record of digest and reason, one after the other, and nothing else |
| Verdicts.CandidateOutcome | src/tod-dl.py:2712-2731 | it ends with the review of its cause: code, digest, size, error, target and validators of the row |
| Verdicts.RefutedIsReviewed | src/tod-dl.py:2710-2719 | in every run a staged file whose digest is against the expected checksum ends, unless the controller dies first, as a candidate under the review of a checksum mismatch |
| Verdicts.ClaimVerdict | src/tod-dl.py:1930-1954 | a recheck starts exactly for a selected unavailable item that is due or pulled forward, and the next one is a day later |
| Verdicts.AnswerVerdict | src/tod-dl.py:1956-1987 | an answer sends the item to review exactly when unprotected staged bytes may be of another version, and back to the queue otherwise; without an answer nothing changes |
| PromotionTheorems.ValidatedBytesKeepAName | src/tod-dl.py:2516-2530 | bytes whose digest a validation committed keep some name through every later step and crash |
| PromotionTheorems.OneFinalizedRecordPerSession | src/tod-dl.py:828-861 | a session writes at most one finalized record for an item |
| PromotionRecords.StepKeepsRecordsIff | src/tod-dl.py:2806-2851 | from true records every step keeps them all true, except the record of a recovered promotion whose stored path does not hold the digest, and that one never does |
| PromotionRecords.RecordsNameTheirFinals | src/tod-dl.py:828-861 | along a run without such a step every finalized record names a final with its digest |
| PromotionRecords.UnmovedPathsAreRecorded | src/tod-dl.py:2798-2853 | that is so for every run in which no import moves the storage path of a promoting row |
| PromotionRecords.MisrecordedIff | src/tod-dl.py:1742-1783 | the recovery after an import records falsely if and only if, when the import ran, the target was free and a file with another digest was at the legacy path |
| MovedStorage.MovedStorageExample | src/tod-dl.py:1742-1783 | a run from the empty state with a crash, a foreign file, an import and a recovery ends with a record whose path holds another digest |
| PromotionTheorems.CandidateChangesOnlyByAlias | src/tod-dl.py:2516-2530 | the bytes of a candidate change in a step exactly when an engine writes a staging file that shares its inode |
| PromotionTheorems.WorkIsNotPending | src/tod-dl.py:1918-1928 | an item in work is not pending, except between its selection and its admission |
| PromotionTheorems.NoSecondWorker | src/tod-dl.py:1918-1928 | an item that the scheduler may choose has no worker in any reachable state |
| PromotionTheorems.TasksAreSelected | src/tod-dl.py:1918-1939 | every transfer and recheck works on an item of the run's selection |
| PromotionTheorems.SlotsAreIncomplete | src/tod-dl.py:2772-2773 | an item that holds a telemetry slot is not complete, since the slot is cleared before the commit |
| PromotionTheorems.CountIsCardinality | src/provenance.py:322-326 | the number of finalized records of a session is the number of items they name |
| PromotionTheorems.FinalizedCountIsCovered | src/verify_provenance.py:153-163 | when no work is left and every finalized item is selected, the complete items of the run cover the finalized records |
| Recovery.Controller.constructor | src/tod-dl.py:2963-3016 | a controller starts with the disk it finds and an empty effect log |
| Recovery.Controller.Transition | src/tod-dl.py:1667-1704 | one commit changes one row and is one effect |
| Recovery.Controller.LinkFinal | src/tod-dl.py:2835-2842 | the final takes the inode of the staging file, in one effect |
| Recovery.Controller.UnlinkStaging | src/tod-dl.py:2914-2922 | the staging name goes, in one effect |
| Recovery.Controller.FinalizedEvent | src/tod-dl.py:828-861 | one finalized record of the session is appended, in one effect |
| Recovery.Controller.FinishPromotion | src/tod-dl.py:2815-2825 | the effects are exactly the record, the completion, the removal of staging and its commit, in that order |
| Recovery.Controller.Review | src/tod-dl.py:2798-2853 | a promotion that cannot be finished goes to review with its error and code |
| Recovery.Controller.ReconcilePromotion | src/tod-dl.py:2798-2853 | the effects on one promoting row, in every branch, are those of the specification |
| Recovery.Controller.CleanUp | src/tod-dl.py:2895-2929 | the effects on one complete row are those of the specification |
| Recovery.Controller.Remediate | src/tod-dl.py:2089-2161 | the effects on one reviewed row with a long name are those of the specification |
| Recovery.Controller.Visit | src/tod-dl.py:2798-2929 | a fetched row is repaired by the pass that fetched it and by no other |
| Recovery.Controller.RunPass | src/tod-dl.py:2798-2929 | a pass over rows that were fetched once has the effects of visiting every row of the table in its present state |
| Recovery.Controller.TransitionWithItems | src/tod-dl.py:1843-1876 | a commit during the selection also commits the run items so far |
| Recovery.Controller.ReconcileExistingFile | src/tod-dl.py:1813-1841 | an existing final is accepted, finalized or sent to review with exactly the specified effects |
| Recovery.Controller.Consider | src/tod-dl.py:1843-1876 | one queue entry adds the specified items and effects |
| Recovery.Controller.ScopeRun | src/tod-dl.py:1843-1876 | the selection loop has the effects of the specification, and none when the run has one already |
| Recovery.Controller.RequeueInterruptedTransfers | src/tod-dl.py:2053-2066 | selected rows that a worker held go back to the queue, in one commit |
| Recovery.Controller.Start | src/tod-dl.py:3016-3033 | the whole start has exactly the effects of the specification, in order |
| RecoveryVerdicts.PassTakes | src/tod-dl.py:2089-2929 | a pass takes exactly the promoting rows, or of this run the complete rows without recorded cleanup, or the reviews of a long name that were not remediated, by code or by error |
| RecoveryVerdicts.IntentVerdict | src/tod-dl.py:2798-2853 | an intent is completed if and only if its final has the recorded digest and can be read, or nothing is there yet and the staged file can be linked; every other intent goes to review, and row, names and record are given for each |
| RecoveryVerdicts.CleanVerdict | src/tod-dl.py:2895-2929 | the staging name of a complete row goes and its cleanup is recorded, unless the removal fails |
| RecoveryVerdicts.RemediationVerdict | src/tod-dl.py:2089-2161 | an item with a long name is promoted under its mapped name if and only if nothing refuses it, its staged bytes have the recorded digest, the mapped name is free and the link succeeds; in every case it is tried once |
| RecoveryVerdicts.ExistingVerdict | src/tod-dl.py:1813-1841 | an existing final of an unfinished item is accepted unverified without a checksum, completed with its record when its bytes have the checksum, and reviewed as unreadable or mismatched otherwise |
| RecoveryVerdicts.SelectionIs | src/tod-dl.py:1843-1876 | the first n queue entries select the items without a final, in order, up to the limit |
| RecoveryVerdicts.ScopeVerdict | src/tod-dl.py:1843-1876 | a run with items keeps them, any other run selects the first missing items of the whole queue |
| RecoveryVerdicts.RequeueVerdict | src/tod-dl.py:2053-2066 | exactly the active, running and admitted rows of the run become queued and due, everything else stays |
| RecoveryTheorems.StartSettles | src/tod-dl.py:3016-3033 | whatever I/O fails, a start that ends leaves no promoting row and no selected active or admitted row |
| RecoveryTheorems.StartKeepsPromotable | src/tod-dl.py:2798-2929 | after every effect of a start the item can still be promoted, and a full start completes it |
| RecoveryTheorems.CrashesKeepPromotable | src/tod-dl.py:2798-2929 | any number of starts, each killed after any effect, leave the item promotable |
| RecoveryTheorems.Convergence | src/tod-dl.py:2798-2929 | after any number of killed starts one full start of the run ends with complete, the final present, staging gone and the cleanup recorded |
| RecoveryRepeat.QuietStart | src/tod-dl.py:3016-3033 | a start on a quiet disk has no effect that changes it |
| RecoveryRepeat.StartQuiets | src/tod-dl.py:3016-3033 | a start that could remove every staging file leaves a quiet disk |
| RecoveryRepeat.SecondStartChangesNothing | src/tod-dl.py:3016-3033 | running everything that follows the import again, in a new session and with any I/O errors, changes nothing |
| RecoveryImport.ImportIsAStep | src/tod-dl.py:1763-1811 | the statements for one queue entry are an import step of the promotion protocol |
| RecoveryImport.ImportMeans | src/tod-dl.py:1742-1811 | an import gives a new URL a queued row with the columns of the queue, gives an existing row storage path, checksum and generation, takes the older path only when a file is there and none at the other, pulls a recheck forward exactly for another known generation of an unavailable item that is not due, and leaves every other row alone |
| RecoveryImport.ImportKeepsIff | src/tod-dl.py:1763-1811 | an import changes nothing if and only if every entry has a row with the checksum and generation of the queue and with the storage path that resolves now |
| RecoveryImport.StartKeeps | src/tod-dl.py:3016-3033 | a whole start keeps checksum, generation and logical path of every row, and its storage path unless a remediation maps it |
| RecoveryImport.ReimportKeepsIff | src/tod-dl.py:1742-1790 | importing the same queue after a whole start changes nothing if and only if every storage path still resolves to itself |
| RecoveryImport.RepeatedStartChangesNothing | src/tod-dl.py:3005-3033 | then the second start, import included, changes nothing |
| RecoveryImport.PlainQueueSettles | src/tod-dl.py:1742-1790 | that is so for every queue whose entries have no older path |
| RecoveryImport.MovedReimportExample | src/tod-dl.py:1742-1790 | after an interrupted promotion whose storage path an import moved, the next import moves it back |
| RecoverySelection.CrashedSelectionIff | src/tod-dl.py:1843-1876 | after a crash at any effect of the selection the next start of the run selects what an undisturbed one would have, if and only if no run item was committed, or the limit is reached, or every imported entry without a final is a run item |
| RecoverySelection.CrashAfterEntryIff | src/tod-dl.py:1843-1876 | after the commit for queue entry n that is so if and only if nothing was taken before it or no later imported entry lacks its final |
| RecoverySelection.TruncatedSelectionExample | src/tod-dl.py:1843-1876 | a queue and a disk on which such a crash leaves out an item for good |
| RecoveryRefinement.StartFollows | src/tod-dl.py:3016-3033 | every start, with any I/O errors, is a run of the promotion protocol |
| RecoveryRefinement.CrashedStartIsSafe | src/tod-dl.py:3016-3033 | a start that is killed after any effect leaves a state that satisfies the invariant, with one finalized record per item and session |
| RecoveryRefinement.ReachableCleaned | src/tod-dl.py:2895-2929 | in every reachable state an item whose cleanup is recorded is complete and has no staging file |
| RecoveryRefinement.IntentIsPromotable | src/tod-dl.py:2733-2759 | every reachable promotion intent with its staged file and a free target has what convergence asks for |
| Scheduler.LikeIsPrefix | src/tod-dl.py:1895-1916 | the escaped LIKE pattern matches exactly the URLs with the origin as prefix, up to ASCII case |
| Scheduler.NextPendingIs | src/tod-dl.py:1918-1928 | from any rank on the answer is the first selected item that can start, and none exactly when there is none; which items can start is said by `NextPendingAnswers` |
| Scheduler.NextPendingAnswers | src/tod-dl.py:1895-1928 | the answer is the first selected row that is queued or waits for a retry, has no ceiling or fewer attempts than it, is due, and whose URL begins with no denied origin; there is none exactly when no selected row is like that |
| Scheduler.OriginIs | src/tod-dl.py:1895-1916 | the origin of a URL is its scheme and what stands between the two slashes and the first slash, question mark or number sign |
| Scheduler.AdmittedOriginIsNotDenied | src/tod-dl.py:1895-1928 | no admitted URL lies under the origin of an unresolved access denial |
| Scheduler.StartsWereAdmitted | src/tod-dl.py:1895-1928 | every engine start of every run goes back to one admission of its item, at which it was the first selected row in rank order that was queued or waiting for a retry, below the ceiling, due, and under no denied origin |
| Scheduler.AttemptsNeverExceed | src/tod-dl.py:2587-2631 | with a fixed nonzero ceiling the recorded attempts never exceed it, in any run over any selections |
| Scheduler.StartsAreBounded | src/tod-dl.py:2587-2631 | the engine starts of an item are its recorded attempts plus the restores after a full disk, so the ceiling plus the restores bounds them |
| Scheduler.WorkersAreBounded | src/tod-dl.py:3069-3091 | never more than the configured number of transfers and rechecks are in work |
| Recheck.RecheckRate | src/tod-dl.py:1930-1954 | in any 24 hours the claims of an item number at most one plus the imports that gave it a differing generation |
| Recheck.EventMeans | src/tod-dl.py:1792-1811 | what an import, a missing file, a claim and a return do to the recheck columns |
| Recheck.DueAfterOneDay | src/tod-dl.py:2651-2654 | an item that becomes unavailable, or is claimed, can be claimed again after one day and not before |
| Recheck.DueByImportIff | src/tod-dl.py:1792-1811 | before that exactly an import with another known generation makes it due |
| Recheck.EarlyRecheckExample | src/tod-dl.py:1792-1811 | the bound is reached: one differing import allows a second claim |
| RunLedger.RevisionGuardsListing | src/tod-dl.py:1644-1704 | two states of a session with equal revisions agree in the selection and in every listed column of every row |
| RunLedger.RequestChangesOnce | src/tod-dl.py:947-986 | a repeated request ID changes nothing and is answered with the first reply |
| Projection.TelemetryStateProjection.constructor | src/tod-dl.py:620-631 | the summary of no rows |
| Projection.DisplayBucketIs | src/tod-dl.py:124-137 | the bucket of a row by its status, its attempts and the ceiling |
| Projection.ScanMeans | src/tod-dl.py:633-686 | the scan counts in every bucket the selected rows that show it, keeps exactly the selected rows that wait for a retry with their own deadline and error, and sums the bytes of the complete ones |
| Projection.TelemetryStateProjection.AddRow | src/tod-dl.py:674-686 | one row adds one to its bucket, its bytes when complete, and its retry |
| Projection.TelemetryStateProjection.ApplyChange | src/tod-dl.py:688-707 | the new summary is the old one with the delta of the change |
| Projection.TelemetryStateProjection.SetRevision | src/tod-dl.py:709-712 | a change without an item moves the revision only |
| Projection.TelemetryStateProjection.Hydrate | src/tod-dl.py:633-669 | for every batch size the batched loop counts in each bucket the selected rows that show it, keeps exactly those that wait for a retry with their own deadline and error, and sums the bytes of the complete ones |
| ProjectionTheorems.CommitAgreesIff | src/tod-dl.py:1652-1704 | the changes of a commit turn the summary of the old state into that of the new one if and only if it moves no item twice |
| ProjectionTheorems.DistinctRequestIsClean | src/tod-dl.py:1023-1054 | a request without repeated IDs moves no item twice |
| ProjectionTheorems.RequestAgreesIff | src/tod-dl.py:1023-1054 | a control commit keeps the summary right if and only if it changes no item twice |
| ProjectionTheorems.HistoryAgrees | src/tod-dl.py:1652-1704 | in commit order counts, bytes, retries and revision agree with a scan after every prefix |
| ProjectionTheorems.HistoryMeans | src/tod-dl.py:633-712 | so after every prefix of a session the replayed summary counts the rows of the ledger, column by column |
| ProjectionTheorems.HistoryAgreesIff | src/tod-dl.py:1652-1704 | they agree after every prefix if and only if no request of the session moves an item twice |
| ProjectionTheorems.AnyOrderAgrees | src/tod-dl.py:1652-1665 | in any order of application counts and bytes agree with a scan |
| ProjectionTheorems.RetriesAgreeIff | src/tod-dl.py:688-707 | the retry map agrees if and only if for every item the change applied last leaves the retry that the change committed last leaves |
| ProjectionTheorems.RevisionAgreesIff | src/tod-dl.py:688-712 | in any order of application the revision agrees if and only if the change applied last carries the newest revision |
| ProjectionTheorems.SwappedChangesExample | src/tod-dl.py:688-707 | two changes of one item in the wrong order leave a wrong retry map and an old revision |
| ProjectionTheorems.CountsSumToSelected | src/tod-dl.py:124-137 | in any order of application the counts sum to the number of selected items |
| Metrics.ReduceMetrics | src/download_telemetry.py:51-105 | the loop over rows and active samples yields the report of the row scan |
| Metrics.ReduceProjectedMetrics | src/download_telemetry.py:108-157 | the loop over the active samples yields the report of the counts |
| Metrics.RowReportMeans | src/download_telemetry.py:51-105 | every field of the row-scan report as sums and counts over rows and samples; the estimate exists exactly with active transfers, no unknown length and a positive exact speed, and estimate times speed is what remains |
| Metrics.ProjectedReportMeans | src/download_telemetry.py:108-157 | the same for the report of the counts and the samples |
| Metrics.FastFormRefinesScan | src/download_telemetry.py:51-157 | both reports agree in every field whenever the samples belong to distinct, selected, unfinished items |
| Metrics.ProjectedReportAgrees | src/download_telemetry.py:108-157 | after any committed changes in any order the projection yields the report of a row scan |
| Metrics.ReportsAgreeIff | src/download_telemetry.py:51-157 | for samples of any selected items both reports agree in every field if and only if the samples of complete items add nothing and hide no exact speed |
| Metrics.StaleSlotExample | src/tod-dl.py:2772-2773 | a slot that outlives its completion would be counted twice |
| Metrics.TelemetryPublisher.SetActive | src/download_telemetry.py:224-239 | the slot of the item starts afresh, every other slot stays |
| Metrics.TelemetryPublisher.UpdateSample | src/download_telemetry.py:248-272 | only a held slot is updated, and a total of zero is unknown |
| Metrics.TelemetryPublisher.ClearActive | src/download_telemetry.py:317-320 | the slot of the item goes, every other slot stays |
| Metrics.TelemetryPublisher.RuntimeCopy | src/download_telemetry.py:290-310 | the copy has every slot once |
| RunMetrics.SlotIsUnfinished | src/tod-dl.py:2546-2773 | in every state of a serving run the item of a slot is selected and not complete, from the reservation to the clearing |
| RunMetrics.PublishedReportAgreesIff | src/download_telemetry.py:347-352 | for the samples of any state of a serving run and the projection of any later one, the published report is that of a row scan if and only if the samples of the items that are complete by then add nothing |
| RunMetrics.PublishedReportAgrees | src/download_telemetry.py:347-352 | so it is right in every reachable state, unless a sampled item commits its completion between the two copies |
| RunMetrics.Publish | src/download_telemetry.py:347-352 | publishing copies every slot and reports what a row scan would, under exactly that condition |
| RunMetrics.DoubleCountExample | src/tod-dl.py:2186-2192 | a run from the empty state whose publisher reports one retained byte twice |
| Paging.BucketsAgreeIff | src/inspection.py:472-477 | the inspection bucket is the display bucket except for excluded rows |
| Paging.ScanBatch | src/inspection.py:659-714 | a batch adds its matching rows in order and stops at the row that fills the page |
| Paging.PageMeans | src/inspection.py:647-714 | a page shows exactly the first rows behind the cursor that are in the wanted bucket and have the search text in logical path, stored path or hexadecimal ID |
| Paging.InspectionBucketIs | src/inspection.py:472-477 | the bucket of the inspection service by status, attempts and ceiling |
| Paging.ListQueue | src/inspection.py:647-714 | over any number of batches the page holds the first rows behind the cursor that are in the wanted bucket and have the search text in one of their three texts, and hands out a cursor exactly when it is full |
| Paging.WalkShowsOneState | src/inspection.py:647-714 | a walk that ends unexpired shows exactly the matching rows of one database state, for any page sizes and any commits in between |
| Paging.WalkShowsWanted | src/inspection.py:647-714 | a row of that state is shown if and only if it is in the wanted bucket and the search text stands anywhere in one of its three texts, each row once and in rank order |
| Paging.FilteredIsRanked | src/inspection.py:659-714 | those rows are in rank order, distinct, and all that match |
| Attempts.StepExtends | src/tod-dl.py:798-826 | recording, finishing, restoring or abandoning an attempt adds at most one row, with the highest number, and keeps the keys below it |
| Attempts.StepMeans | src/tod-dl.py:798-826 | what each commit does to the attempt count, the listing and the revision |
| Attempts.PageShows | src/inspection.py:716-761 | a page shows the next keys and hands out a cursor exactly when more follow |
| Attempts.WalkShowsFirstState | src/inspection.py:716-761 | a walk that ends shows exactly the attempts recorded when it began, newest first, although attempts are recorded in between |
| Attempts.RowChangesIff | src/tod-dl.py:798-826 | a listed attempt keeps its place from the end and changes exactly when another outcome comes for its ID |
| Attempts.ListingIsUnguarded | src/tod-dl.py:798-826 | the listing changes exactly by a new attempt or another outcome, and never with a new revision |
| Attempts.WalkShowsOutcomesIff | src/inspection.py:716-761 | a walk shows the rows of its first state, outcomes included, if and only if every row still had its first outcome when its page was read |
| Attempts.UnguardedOutcomeExample | src/tod-dl.py:811-814 | the outcome that a page shows changes under one revision |
| ProvenanceSchema.FieldListsAgree | src/provenance.py:127-176 | the fields of the schema are the fields that the verifier asks for |
| ProvenanceSchema.ConformingEventHasExactFields | src/provenance.py:185-218 | an event without schema error has exactly the key set that the verifier checks by hand |
| ProvenanceMeaning.EventMeans | src/provenance.py:75-218 | an event has no schema error if and only if it has exactly its fields and every one of them is right, field by field for the six event types |
| ProvenanceMeaning.FoundIs | src/provenance.py:75-79 | a pattern finds digests, times, UUIDs and signatures in their written form, with at most one newline behind it |
| ProvenanceVerifier.CheckEvent | src/verify_provenance.py:51-82 | no error is added if and only if the event is right for its place |
| ProvenanceVerifier.Verify | src/verify_provenance.py:133-163 | no error is found if and only if chain, fields, counts and summary are right |
| ProvenanceMeaning.LineMeans | src/verify_provenance.py:51-82 | a line has no error if and only if it is an event with right fields, the next number, the digest of the line before it, an ID that no line before it has, plausible validators and its own digest |
| ProvenanceMeaning.AcceptsMeans | src/verify_provenance.py:51-163 | a record set is accepted if and only if every line is such an event, and the summary has its fields, names run and session, counts lines and finalized lines, ends with the last digest and the counts of the closing line, and its run total covers the finalized lines |
| ProvenanceMeaning.CanonicalMeans | src/provenance.py:41-61 | a value has canonical text if and only if no floating-point number is anywhere in it |
| ProvenanceWriter.Writer.constructor | src/provenance.py:269-294 | an empty record set |
| ProvenanceWriter.Writer.Event | src/provenance.py:296-326 | an event is written exactly when its type is known, it has no credentials, is canonical, conforms and can be appended; it is sealed, numbered and chained; a rejected call changes no record; a failed append loses a number |
| ProvenanceWriter.Writer.Close | src/provenance.py:328-344 | a close succeeds exactly when its event is written, has no credentials, is canonical and conforms, and its summary is canonical; with closing values that fit the run the verifier accepts what was closed; it refuses every set with a lost number |
| ProvenanceClosing.ClosingConforms | src/provenance.py:328-344 | closing values of the right types make a closing event without schema error |
| ProvenanceWriter.WrittenEventOkIff | src/provenance.py:296-326 | the verifier accepts a conforming event in its place if and only if its ID is new and no validator is unavailable and yet compared or given |
| ProvenanceTheorems.RecordEvents | src/provenance.py:296-326 | any sequence of calls, some rejected, keeps the set free of chain and field errors and counts no more files than it announces |
| ProvenanceTheorems.RecordAndClose | src/provenance.py:296-344 | any session of calls closes when the closing values fit and can be written, and the verifier accepts the closed set when the run total covers the finalized events |
| ProvenanceRun.EndedRunCloses | src/tod-dl.py:3126-3145 | the run total of an ended run covers its finalized records, as long as every finalized item is selected |
| ProvenanceRun.CloseRun | src/tod-dl.py:3126-3145 | so a session that announces no file beyond the finalized records of such a run closes, and the verifier accepts the closed set |
| ProvenanceTheorems.TamperShowsCollision | src/verify_provenance.py:133-157 | two event files accepted under one summary are equal record for record, or two different records at one line have one digest |
| ProvenanceTheorems.TamperEvidence | src/verify_provenance.py:133-157 | with a digest that is injective on canonical records the two files are equal |
| ProvenanceTheorems.AcceptedEventsAreNumbered | src/verify_provenance.py:51-82 | accepted events are numbered without gap or repeat and share no event ID |
| ProvenanceTheorems.ComparedUnavailableIsWritten | src/provenance.py:296-326 | every finalized event that the writer accepts has a twin, other in one validator, that the writer accepts and the verifier refuses at every place |
| LineReader.Stream.constructor | src/inventory.py:82-99 | a stream at its start |
| LineReader.Stream.ReadLine | src/inventory.py:82-99 | a bounded read returns the bytes up to and with the newline, and never more than the limit |
| LineReader.ReadLines | src/inventory.py:82-99 | the bounded reads yield exactly the newline split of the stream, longer lines cut and flagged |
| LineReader.LineIs | src/inventory.py:82-99 | bytes without a newline are one line up to the next byte 10 or the end, cut and flagged beyond 8192 bytes |
| LineReader.SplitIsNumbered | src/inventory.py:82-99 | lines are numbered from one, hold no newline and never exceed the limit |
| LineReader.SplitGlues | src/inventory.py:82-99 | when no line is flagged the lines give the stream back |
| Utf8.DecodeEncode | src/inventory.py:206-211 | decoding undoes encoding for every string (section 3 of RFC 3629) |
| Utf8.EncodeDecode | src/inventory.py:117-164 | strict decoding accepts nothing but what encoding yields |
| Listing.ListingParser.constructor | src/inventory.py:105-110 | no line seen |
| Listing.ListingParser.Parse | src/inventory.py:117-184 | the parser yields the entries of the line-by-line specification and the issues of its lines, the first 1000 of them listed |
| Listing.ClassesCoverLines | src/inventory.py:186-197 | every line is in exactly one class, so the accounting error of the report cannot occur |
| ListingGrammar.ClassIs | src/inventory.py:117-164 | from its text a line is blank, undecodable, a header where a section may begin, a directory or a file where one has begun, or not understood |
| ListingGrammar.FileEntryIs | src/inventory.py:166-184 | a file line gives the entry with its number, size token, section and name |
| ListingGrammar.NextModeIs | src/inventory.py:117-164 | a header opens its section, a blank line ends one except right behind the header, a line that is no header where one must stand closes it, every other line stays in it |
| ListingGrammar.IssueIs | src/inventory.py:112-184 | which issue a line raises, and that blank, directory, file and new header lines raise none |
| ListingGrammar.SizeTokenIs | src/inventory.py:30-40 | a size token is digits, at most one fraction and at most one unit |
| ListingGrammar.HeaderNameIs | src/inventory.py:117-164 | the directory that a header names |
| Listing.StructuralIssuesAreBadLines | src/inventory.py:200-203 | every line that is not understood is exactly one structural issue |
| Listing.EntriesAreFileLines | src/inventory.py:117-184 | the entries are the file lines, each under the section it stands in |
| Listing.EntriesInOrder | src/inventory.py:117-184 | the entries keep the order of the lines |
| Urls.UnquoteEncode | src/inventory.py:206-211 | percent-encoding of UTF-8 is undone for every segment (sections 2.1 and 2.3 of RFC 3986) |
| UrlMeaning.EncodeByteIs | src/inventory.py:206-211 | letters, digits and four marks stand for themselves, every other byte is a percent sign and two upper-case digits (section 2.1 of RFC 3986) |
| UrlMeaning.EscapeIs | src/tod-dl.py:267-282 | unquoting replaces a percent sign with two hexadecimal digits by that byte |
| UrlMeaning.NoEscapeIs | src/tod-dl.py:267-282 | and leaves every other text alone |
| UrlMeaning.UrlSplitMeans | src/tod-dl.py:267-282 | splitting finds scheme, authority, path, query and fragment of every URL that is written from them (section 3 of RFC 3986) |
| UrlMeaning.RelativePathMeans | src/tod-dl.py:262-282 | the downloader accepts a URL if and only if it has no user information and no query and its path is a collection and a file path behind it |
| UrlMeaning.BehindMeans | src/tod-dl.py:262-282 | that path is the names of the unquoted segments, and it is refused exactly when a segment unquotes to an absolute path, a name leads upwards or holds a null character, or it is the listing file |
| UrlMeaning.HasUserInfoIs | src/tod-dl.py:267-282 | user information is what stands before the last at sign, and a lone colon is none |
| UrlRoundTrip.ParsedBaseOk | src/inventory.py:225-246 | an accepted base URL has no credentials, one printable collection segment and at most the segment data behind it |
| UrlRoundTrip.ItemUrlLeads | src/tod-dl.py:262-282 | the downloader resolves an item URL to the unquoted collection and the path behind it, or rejects it |
| UrlRoundTrip.UrlRoundTripIff | src/tod-dl.py:262-282 | the downloader finds the destination of the manifest if and only if unquoting leaves the collection name alone |
| UrlRoundTrip.NoPercentIsPlain | src/inventory.py:225-246 | a collection without percent sign is left alone |
| UrlRoundTrip.ItemUrlInjective | src/inventory.py:206-222 | two safe paths never share a URL |
| QueueFile.Export | src/inventory.py:565-606 | the export succeeds if and only if every URL is safe and new, and then writes the heading and one line an item |
| QueueMeaning.QueueUrlOkMeans | src/inventory.py:565-571 | an exportable URL is a printable web URL without user information, query or fragment, whose path is a collection and a file other than the listing |
| QueueMeaning.GenerationOkIs | src/inventory.py:574-600 | a generation is 1 to 128 letters, digits, points, underscores, colons and hyphens, with at most one newline behind them |
| QueueFile.ParseTokens | src/tod-dl.py:315-334 | the token loop finds the tokens of the line or rejects it |
| QueueMeaning.AddTokenMeans | src/tod-dl.py:315-334 | one field adds its key and value if and only if it is a known key, an equals sign and a good value, and the key is new; digests are kept in lower case |
| QueueMeaning.TokensMean | src/tod-dl.py:315-334 | a line is accepted if and only if all its fields are such tokens and no key comes twice, and then every key has its value |
| QueueMeaning.LinesAre | src/tod-dl.py:337-364 | newlines and carriage returns end lines |
| QueueMeaning.WordsAre | src/tod-dl.py:337-364 | white space parts the words of a line |
| QueueFile.ReadQueues | src/tod-dl.py:337-364 | the reader yields every URL once, in order, over all files |
| QueueRoundTrip.QueueReadsBack | src/tod-dl.py:315-364 | an exported file reads back as the exported items, in order, with size and generation |
| QueueRoundTrip.GenerationSurvivesIff | src/tod-dl.py:315-334 | the generation survives if and only if it does not end in a newline |
| ManifestWriter.WriteEntry | src/inventory.py:483-535 | one entry goes into its bucket, its totals and the index of seen paths |
| ManifestWriter.WriteManifest | src/inventory.py:483-551 | the bucket files, concatenated, are the bucketed items, and the totals are theirs |
| ManifestTheorems.ManifestIsStableSort | src/inventory.py:483-551 | the manifest is a permutation of the entries, sorted by disposition, rank and source line |
| ManifestMeaning.ItemMeans | src/inventory.py:483-551 | disposition, rank, rule, URL, destination and collision of every item, from its entry, the rules and the entries before it |
| ManifestMeaning.ManifestMeans | src/inventory.py:483-551 | every entry is one item of the manifest with these columns, in order of disposition, rank and line |
| ManifestMeaning.RankIs | src/inventory.py:336-349 | the rank is the first rule that fits the path, by prefix and by extension |
| ManifestTheorems.DispositionsCover | src/inventory.py:524-526 | the totals by disposition sum to the number of files |
| ManifestTheorems.UrlsAreDistinct | src/inventory.py:496-515 | of the entries with one path the first alone has a URL, and no URL belongs to two paths |
| QueuePipeline.ListingIsParsed | src/inventory.py:117-184 | what the parser yields is in line order and has the sizes that a queue can carry |
| QueuePipeline.ManifestUrlsDistinct | src/inventory.py:601-603 | no manifest lists a URL twice |
| QueuePipeline.ExportSucceedsIff | src/inventory.py:574-621 | for every listing and policy the export fails exactly on the listing file of a base without data segment |
| QueuePipeline.PipelineReadsBack | src/inventory.py:450-621 | for every listing, policy and base with a plain collection, exporting and reading give back exactly the exported items, in order, each with the path that the manifest gives as its destination |
| Diff.LoadSizes | src/inventory.py:624-640 | the loop yields the size map, the duplicates and totals that reconcile |
| Diff.LoadedIs | src/inventory.py:624-640 | the recorded size of a path is that of its first line, and duplicates have a second one |
| DiffMeaning.LoadedMeans | src/inventory.py:624-640 | size, duplicate and unsafe marks of a path, from the lines of the listing |
| DiffMeaning.TotalsMean | src/inventory.py:624-640 | the totals of a snapshot, from its lines |
| Diff.DiffSnapshots | src/inventory.py:643-692 | snapshots that reconcile never end in an error, and every path is counted in one category |
| Diff.DiffIsPatch | src/inventory.py:643-692 | applying the records to the old sizes gives the new ones |
| DiffMeaning.RecordsMean | src/inventory.py:643-692 | there is one record for every path that is not the same on both sides, with both sizes, and it is ambiguous, added, removed or changed by the two listings alone |
| DiffMeaning.TwinIs | src/inventory.py:669-678 | a path has a twin exactly when another path with its normal form went when it came, or came when it went |
| Diff.DiffIsSymmetric | src/inventory.py:643-692 | swapping the snapshots swaps added and removed and keeps every other category |
| Diff.NoSurvivingTwins | src/inventory.py:669-678 | no surviving pair of an added and a removed path shares a normal form |
| Control.ControlServer.constructor | src/controller.py:111-127 | a session without confirmations |
| Control.ControlServer.Prepare | src/controller.py:221-274 | a confirmation fixes action, items, priority, cooldown and deadline, or the request is refused |
| Control.PreparedIs | src/controller.py:221-274 | what every action must be given, and what a preparation fixes, for 60 seconds |
| Control.CarriedIs | src/controller.py:276-306 | a confirmation carries what was fixed and its own values of the rest |
| Control.ControlServer.Confirm | src/controller.py:276-306 | a nonce is spent by every attempt, a handler runs exactly when it was prepared for this action and is in time, and a completed request is replayed |
| Control.ControlServer.Handle | src/tod-dl.py:934-997 | a handler changes exactly the listed and selected rows that its action concerns, each in the columns of the action, once for a request ID, and replies with their number |
| Control.CommitMeans | src/tod-dl.py:934-1360 | for each item action which listed and selected rows change, by status and review code, the new value of every changed column, that every other row and column stays, and the number of changed rows in the reply; an audited action changes no row |
| Control.ControlServer.Work | src/tod-dl.py:1667-1704 | a commit of a worker in between leaves confirmations and replies alone |
| Control.ControlServer.Restart | src/controller.py:111-127 | a restart forgets confirmations and replies, never what was committed |
| Control.RunInterleaving | src/controller.py:221-306 | over every interleaving a nonce triggers at most one call, every call is the prepared one and in time, and a request ID changes the database at most once |
| Control.ItemsAreFixedIff | src/controller.py:276-306 | the items of a call are the prepared ones if and only if items were prepared or none are given at the confirmation |
| Control.RetryScopeExample | src/controller.py:221-306 | "retry now" prepared without items and confirmed with some |
| RangeFixture.FromIsSuffix | src/acquisition_evaluation.py:59-61 | block k of the representation starts at k times the block size, and all blocks together have its length |
| RangeFixture.BytesAre | src/acquisition_evaluation.py:38-61 | every byte of the representation, by its block of 1048576 bytes and its place in it |
| RangeFixture.Read | src/acquisition_evaluation.py:63-77 | a read is the exact slice of the concatenated blocks, and an error exactly outside them |
| RangeFixture.Sha256 | src/acquisition_evaluation.py:79-89 | the digest is that of the whole representation for every chunk size |
| RangeFixture.ParseRange | src/acquisition_evaluation.py:403-413 | an accepted range lies inside the representation |
| RangeFixture.ParsesWrittenRange | src/acquisition_evaluation.py:403-413 | a written range is served as written, its end cut to the representation, or is unsatisfiable (section 14.1.2 of RFC 9110) |
| RangeFixture.NoRangeIff | src/acquisition_evaluation.py:403-413 | a header asks for a range if and only if it is "bytes=", a decimal number, a dash and a text without comma |
| RangeFixture.RangeMeans | src/acquisition_evaluation.py:403-413 | then the range is open, closed and cut, or unsatisfiable, by the two numbers |
| RangeFixture.SendBody | src/acquisition_evaluation.py:512-526 | the chunk loop sends the slice, cut at the scripted byte, and closes exactly when it is cut |
| RangeFixture.Serve | src/acquisition_evaluation.py:420-527 | the answer to every script is that of the specification: an override, a redirect, a refusal or a slice whose connection closes exactly when it falls short |
| RangeFixture.ReplyMeans | src/acquisition_evaluation.py:420-527 | status, length, range and body of the answer to every script, field by field |
| RangeFixture.OneResponseIff | src/acquisition_evaluation.py:440-527 | combining the answer to any script with the prefix that the client holds gives a prefix if and only if the script has no override, or overrides with a status other than 200, or with a prefix |
| RangeFixture.DownloadIsPrefixIff | src/acquisition_evaluation.py:440-527 | over any number of requests the client holds a prefix all the time if and only if that is so of every script |
| RangeFixture.PlainCompletesIff | src/acquisition_evaluation.py:459-527 | a plain response completes what the client holds if and only if that is a prefix, or the response ignores a range that could be met |
| RangeFixture.ResumeRebuildsIff | src/acquisition_evaluation.py:459-527 | one plain response completes a download of any scripts if and only if it has gone right so far or the response starts afresh |
| RangeFixture.ResumeRebuilds | src/acquisition_evaluation.py:459-527 | after any cuts, redirects, refusals and overrides with the right bytes one plain response completes the representation (section 15.3.7 of RFC 9110) |
| RangeFixture.OverrideExample | src/acquisition_evaluation.py:440-456 | after one override with other bytes a plain response completes nothing |
| RangeFixture.CutThenRange | src/acquisition_evaluation.py:512-526 | a body cut after k bytes and the answer to the range from k on make up the whole |

## Left out

- Symbolic links, directories at file names, permissions, the hashing of long paths and the safe-path checks: the file system has regular files, and a refused path is one of the I/O errors that a start may meet.
- Orphaned engines: an engine dies with its controller; while it runs it may write any bytes to its own staging file, which is more than the engine does.
- Files that somebody else edits or removes; foreign files may appear at any free final name.
- Durability calls (`fsync`): a commit, a call and an append are durable when they return.
- Item identities: an item is identified with its URL, so the SHA-256 that names staging and candidate files is taken as injective.
- Record types other than finalized and candidate records do not appear in the promotion machine; the provenance modules have all types.
- The telemetry of a run sees a projection that has caught up with the commits of its state; the order of application is the subject of `ProjectionTheorems`.
- Timestamps, `updated_at`, `last_completion_at` and telemetry texts.
- `reset_retry_now`, the deadline, drain, pause and the waiting of the main loop: they only remove admissions.
- An import and a requeue are one step each for one row and for all selected rows; the start functions begin after the import, which `RecoveryImport` puts before them.
- A recheck is taken to end before the next daily claim of its item is due.
- The computation of a legacy path from a URL; which of the two paths an import takes is modelled (`PromotionRecords.ResolvedStorage`), and the promotion machine allows any path.
- Ed25519, SHA-256, JSON text, NFC and Unicode case: abstract functions. Injectivity of the digest and the form of a signature are explicit hypotheses.
- A summary file that cannot be written after its closing event.
- The checks of the verifier that read the destination and the public key: only events, counts and summary are modelled.
- A closed session with finals that were accepted during the selection, or with promotions of other runs, counts them as session finals and not as outcomes of the run; `ProvenanceRun.Ended` excludes it.
- Universal newlines, decoding with replacement characters and the removal of control characters by `urlsplit`: queue lines are split at newlines, and bytes that are no UTF-8 decode to some text.
- The check of host name and port of a base URL: an abstract predicate.
- Runtime columns of the inspection (phase, totals, speed): they carry no revision and no promise.
- `get_item`, `get_worker`, the framing and the deadline of the inspection socket, missing tables of older databases.
- Exceptions inside a confirmed handler, the socket protocol, and the renewal of Tor circuits beyond its audit row.
- `priority`: no code that selects an item reads it.
- The fixture server's name lookup, its validators, delays and event log, and a client that hangs up; decimal numbers beyond the interpreter's conversion limit.
- Decimal digits outside ASCII, which the interpreter also takes in time stamps and range headers.
- Tor, aria2 and its RPC, process checks, the monitor, the scenario drivers and the adapter of the evaluation.
