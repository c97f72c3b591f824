# Verified models of the trade platform's evidence protocols

This project models, in Dafny, the parts of the trade platform that decide whether evidence
may be trusted, and proves what they keep over whole runs and histories.

| modules | what they model |
|---|---|
| `FlatJson`, `Ledger` | the lines of the off-site backup ledger, the reader that folds them into UPLOADED, REMOTE_EXISTS_UNVERIFIED and RESTORE_VERIFIED, and the appender that survives torn writes |
| `ObjectName`, `PartitionTar`, `CaptureArchive`, `Placement` | names of backed-up objects, the deterministic archive of a partition, what is asked of the capture archive, and where a partition belongs |
| `Backup`, `BackupRun`, `BackupFacts`, `BackupOutcome`, `BackupDrain`, `BackupTable` | a backup run over ledger file and bucket, its report and when there is none, its budget, how runs drain a backlog, and the table of what becomes of each partition |
| `Receipts`, `ReceiptTable`, `Restore`, `RestoreTable`, `OffsiteSystem`, `OffsiteHistory`, `OffsiteReturns` | restore drills on another host, their receipts, the tables of what each object and each line comes to, and the whole protocol as a transition system with crashes and commands at work side by side |
| `Recovery`, `RecoveryTable` | row digests, file inventories and the evidence archive that is published whole or not at all |
| `TerminalCommands`, `Worker`, `WorkerRuns`, `WorkerDistinct`, `WorkerProcess`, `WorkerTable` | the command ledger of the research terminal, the worker whose tables must agree with it, and the table of which outcome each command gets |
| `WorkerHistory`, `WorkerRefinement` | every worker there ever was on one ledger, write by write, and a run as one such history |
| `Holdout`, `HoldoutFacts`, `HoldoutTable` | research cycles, packets, one-shot holdout openings, validations and candidate states; what they keep and what they take |
| `TrialQueue`, `TrialLedger`, `TrialLedgerFacts`, `TrialLedgerRuns`, `TrialLedgerEffects` | the guarded trial queue, and the operations workers use on it under leases, with what each answers and does |
| `HealthGate`, `HealthGateTable` | the data-health gate of signal validation, before and after it learnt about intervals |
| `SegmentGrid` | the recorder's UTC segment grid and its supervise loop |
| `ShardGate`, `ShardGateFacts`, `ShardGateTable` | the CI shards, the check that nothing was dropped, and when it reports which problem |
| `Wrappers`, `Text`, `Framing` | options and results, Python's `str` splitting and ordering, length-framed bytes |

How the pieces stand to each other: a command that changes state step by step is a method
(of a class, where the program has an object) proved equal to a function of the state before;
the lemmas are about that function, and whole runs and histories are folds of it. Database
tables are sequences of rows in order of insertion under any sequence of transactions, each
refused as a whole by the first constraint it breaks. What such a function answers is pinned a
second time by a table: one row per answer, read off inputs and state alone and written
without that function, and a lemma that the answer is given exactly when its row is met. `dafny verify dfyconfig.toml` checks
everything.

What comes from outside is an input: clocks (integer nanoseconds or microseconds), replies of
the bucket, process exits, disk space, locked rows, request arrivals. The digest is a function
of bytes, assumed to separate byte strings only where a lemma says so. Completeness, replay
and manifests of a capture partition are functions of its files.

## Where the program does less than its words

- `scripts/capture_bybit_public.py:207-210` says no segment straddles a UTC day; the folded
  remainder makes one that starts in the last minute of a day do so
  (`SegmentGrid.StraddlesExactly`, `SegmentGrid.StraddlesForAnyLength`).
- `scripts/terminal_lite_recovery.py:155-172` packs names that `unpack_evidence` refuses: those
  with a backslash or a colon (`Recovery.PackUnpacks`).
- `src/trade_platform/research_terminal_commands_v1.py:405` shows the newest 500 commands
  only, so an older runner is neither seen as a duplicate nor closed at a restart
  (`WorkerRuns.SecondRunnerStarts`, `WorkerRuns.RunnerNotClosed`, `WorkerDistinct.RunDiffersExactly`,
  `WorkerRuns.RestartAgrees`).
- `deploy/oci/capture_offsite.py:441-502` lets errors through that it does not catch, each of
  which ends the whole run without a report: a manifest that cannot be read (448), a status
  read that raises, as on a session that is no object or a manifest whose ids are no strings
  (463), a file too large or a name too long for ustar (258), an answer to a PUT that breaks off
  (176). `BackupOutcome.ReportsExactly` says when a run reports; `JunkManifestEndsRun`,
  `ListSessionEndsRun`, `OversizedFileEndsRun` and `BrokenPutEndsRun` are inputs.
- `deploy/oci/capture_offsite.py:659-686`: in a drill the same status read, a replay that
  raises, and a download that breaks off end it without a report or receipt, whatever was
  verified before (`Restore.DrillReportsExactly`, `Restore.RaisingObjectEndsDrill`).
- `deploy/oci/capture_offsite.py:656` with a limit of 0 verifies every object
  (`Restore.LimitExactly`).
- `migrations/versions/20261006_0053_strategy_lab_ledger.py:79` lets half a lease stay on a row
  that is not CLAIMED (`TrialQueue.HalfALeaseStays`); the ledger's own operations never leave one.
- `migrations/versions/20261008_0057_strategy_lab_validation.py:81-98` does not tie an opening's
  cycle to its packet's (`HoldoutFacts.OpeningMayStray`); the registry supplies the packet's own.
- `migrations/versions/20260907_0043_futures_settlement_open_interest.py:193-203` widens the
  uniqueness key that made the latest assessment unique without regrouping the gate: another
  kind ties with a blocking row or masks it (`HealthGate.KindsTie`,
  `HealthGate.MayLetThroughExactly`, `HealthGate.LaterKindMasks`).

## Model

| member | source | states |
|---|---|---|
| `FlatJson.LoadsDumps` | deploy/oci/capture_offsite.py:376 | what the appender writes as one JSON object (section 4 of RFC 8259) reads back as that object: every key, string and integer, escapes and surrogate pairs included |
| `FlatJson.NoStrictPrefixLoads` | deploy/oci/capture_offsite.py:376 | no strict prefix of a written object reads as an object, so a torn line is never mistaken for a whole one |
| `FlatJson.DumpsPrintable` | deploy/oci/capture_offsite.py:376 | a written object holds only printable ASCII: no line break can be inside it, and cutting bytes is cutting characters |
| `Ledger.DecodeEncode` | deploy/oci/capture_offsite.py:344-357 | a written ledger line reads back as exactly its six fields |
| `Ledger.DecodeObject` | deploy/oci/capture_offsite.py:344-357 | what any flat object reads as: the last value under each of six names, as text or number; a record exactly when the five needed ones are there and the two numbers read |
| `Ledger.FoldMeans` | deploy/oci/capture_offsite.py:331-371 | the reader equals a closed form over positions in the file: the first line of a name that is not a verification fixes hashes, size, time and state, which is UPLOADED exactly if that line's outcome is the text UPLOADED and REMOTE_EXISTS_UNVERIFIED for every other text; the state is RESTORE_VERIFIED exactly when a later verification names the same content; a name is inconsistent exactly when some line precedes that line or names other content |
| `Ledger.TornAppend` | deploy/oci/capture_offsite.py:374-384 | crash atomicity: however much of an append reaches a file with any contents, torn ones included, the reader sees the old records, or the old records and exactly this one, and the latter exactly when at most the final newline is missing |
| `Ledger.TornAppendRead` | deploy/oci/capture_offsite.py:331-384 | the same for the reading itself: the old result or the old result with exactly this line folded in, never a third one |
| `Ledger.AnyAppends` | deploy/oci/capture_offsite.py:374-384 | any number of appends, each cut off anywhere: what reads is what survived, in order |
| `Ledger.ReadGrows` | deploy/oci/capture_offsite.py:331-384 | whatever is appended and wherever it is cut off, no entry is lost, none changes what was sent, and none leaves RESTORE_VERIFIED |
| `Ledger.LedgerFile.Load` | deploy/oci/capture_offsite.py:331-371 | the loop over the lines with its two collections computes the fold that `Ledger.FoldMeans` puts in closed form |
| `Ledger.LedgerFile.Append` | deploy/oci/capture_offsite.py:374-384 | the in-place append closes off a torn last line and adds exactly one record to what reads |
| `ObjectName.ParsePrinted` | deploy/oci/capture_offsite.py:262-295 | every name printed from an approved label and a canonical layout parses to that label and path |
| `ObjectName.PrintParsed` | deploy/oci/capture_offsite.py:262-295 | whatever parses prints back to the very name, and its path is a canonical layout under an approved label |
| `ObjectName.AcceptedExactly` | deploy/oci/capture_offsite.py:266-295 | the accepted names are exactly the printed canonical ones |
| `ObjectName.RefusedAs` | deploy/oci/capture_offsite.py:274-295 | which error a refused name gets: the label is looked at first, then the suffix, then the path |
| `ObjectName.NameText` | deploy/oci/capture_offsite.py:262-270 | a canonical name written out, key by key |
| `ObjectName.RestoreStaysInside` | deploy/oci/capture_offsite.py:612-616 | an accepted name has no empty, `.` or `..` component, so applying its components to any root stays strictly below that root |
| `ObjectName.ParseObjectName` | deploy/oci/capture_offsite.py:266-295 | the loop over the four layout keys, with its three errors, computes the parser the lemmas are about |
| `PartitionTar.PartitionTarBytes` | deploy/oci/capture_offsite.py:242-259 | the loop over the sorted directory, and the first offending file as its error, computes the packing the lemmas are about |
| `PartitionTar.PackDeterministic` | deploy/oci/capture_offsite.py:242-259 | the bytes depend only on the name-to-bytes map of the kept files, not on listing order or scratch files |
| `PartitionTar.PackOutcome` | deploy/oci/capture_offsite.py:247-258 | packing succeeds exactly when every kept file is one of the five and fits a ustar header (the "ustar Interchange Format" of the pax utility in IEEE Std 1003.1) |
| `PartitionTar.ReadWritten` | deploy/oci/capture_offsite.py:620-628 | reading inverts writing, and bytes after the end mark change nothing |
| `PartitionTar.ExtractPacked` | deploy/oci/capture_offsite.py:606-634 | extraction inverts packing: the five files come back exactly, and any other set of files is refused |
| `PartitionTar.ExtractExactly` | deploy/oci/capture_offsite.py:620-630 | bytes extract to some files exactly when they are an archive of regular members directly under the path, none twice, that hold exactly the five files with those bytes |
| `PartitionTar.ExtractFails` | deploy/oci/capture_offsite.py:606-634 | and what all others are refused as: no archive; an archive with a member that is no file of the partition or stands twice; one of proper members that lacks some of the five |
| `CaptureArchive.CanonicalNamesParse` | deploy/oci/capture_offsite.py:298-316 | a partition that passes the canonical-path check has a name the restore accepts |
| `CaptureArchive.CompletePacksWhole` | deploy/oci/capture_offsite.py:457-474 | what packs from a COMPLETE partition without raw records is exactly the five files |
| `Placement.PlacedExactly` | deploy/oci/capture_offsite.py:298-316 | a partition is in its place exactly when its manifest states an identity of an approved contract its label admits and it stands at the path of that contract, day and session; otherwise the first of the three that fails is the error |
| `Placement.PackFailsAs` | deploy/oci/capture_offsite.py:242-259 | packing fails over the first file, by name, that cannot be packed, as unexpected or as too large for a ustar header; without such a file it succeeds |
| `Placement.KeptExactly` | deploy/oci/capture_offsite.py:247-249 | what is packed: the regular files whose names do not end in .tmp |
| `Placement.FilesInExactly` | deploy/oci/capture_offsite.py:445-463 | the files of a directory, by name, as the status read and the manifest see them |
| `CaptureArchive.AssumptionsCanHold` | deploy/oci/capture_offsite.py:298-316 | the assumptions made of the archive and of the digest are consistent |
| `BackupRun.ObjectStore.PutNew` | deploy/oci/capture_offsite.py:189-209 | create-if-absent (`If-None-Match: *`, section 13.1.2 of RFC 9110; 412, section 15.5.13): an existing object is never overwritten, and an error, caught or not, may hide that the object was stored |
| `BackupRun.RunBackup` | deploy/oci/capture_offsite.py:413-526 | the whole command, two nested loops over roots and the directories below them that hold a `session.json`, with the in-memory ledger, the running window total, counters and lists, computes one decision per partition on ledger file and bucket, and the report made of these decisions, which `BackupTable.VisitTable`, `BackupTable.ReportTable` and `BackupTable.ReportStates` say outright; an error the loop does not catch (an unreadable manifest, a status read that raises, a file that does not fit, an answer that breaks off) ends the run there |
| `BackupRun.SendOne` | deploy/oci/capture_offsite.py:472-502 | the body of the loop from the path check on: path, pack, budget, PUT, ledger line, cache and total, in that order |
| `Backup.SumWindow` | deploy/oci/capture_offsite.py:433-434 | the sum over the entries newer than the window start, in whatever order they come |
| `Backup.WindowSumMonotone` | deploy/oci/capture_offsite.py:433-434 | a window that starts later weighs no more |
| `BackupFacts.SendMeans` | deploy/oci/capture_offsite.py:441-478 | whatever is sent was packed at its canonical place from a COMPLETE compacted partition, under a name neither on record nor inconsistent, within the budget and the upload limit, and before anything was withheld for the budget |
| `BackupFacts.SentRestores` | deploy/oci/capture_offsite.py:472-478 | every object a run sends has a name the restore accepts and bytes that extract to exactly the five local files |
| `BackupFacts.RunAgrees` | deploy/oci/capture_offsite.py:432-502 | cache agreement: after any number of turns the in-memory map is what the file reads as |
| `BackupFacts.RunWindow` | deploy/oci/capture_offsite.py:433-501 | the running total is always the sum of the window, and a run within its budget stays within it |
| `BackupFacts.RunOrderly` | deploy/oci/capture_offsite.py:466-478 | at most `max_uploads` objects are put on record, and none after the first one withheld for the budget |
| `BackupFacts.Accounting` | deploy/oci/capture_offsite.py:441-502 | of a run that has come this far: every partition met is in exactly one list or counter of the report, or was already on record |
| `BackupOutcome.MisfitExactly` | deploy/oci/capture_offsite.py:242-259 | packing fails for a file that does not fit a ustar header exactly when the first file, by name, that cannot be packed is one of the five and does not fit |
| `BackupOutcome.AbortsExactly` | deploy/oci/capture_offsite.py:445-481 | one partition ends the run by itself exactly when it is closed and its manifest is there and cannot be read, or it comes to its status read and that raises, or it comes to the packing and holds a file that does not fit |
| `BackupOutcome.RunEnds` | deploy/oci/capture_offsite.py:441-505 | a run ends early exactly where a partition it comes to makes it; then nothing behind that one is looked at |
| `BackupOutcome.ReportsExactly` | deploy/oci/capture_offsite.py:441-526 | a run reports exactly when it comes to no such partition and has no PUT whose answer breaks off, and then every partition found is in exactly one list or counter of the report or was already on record |
| `BackupOutcome.ReportAccounts` | deploy/oci/capture_offsite.py:441-526 | the same of the whole command: its report, if there is one, accounts for every directory under the roots that holds a `session.json` |
| `BackupOutcome.ReportsByListing` | deploy/oci/capture_offsite.py:441-526 | from listings and replies alone: one unreadable manifest anywhere and there is no report; no unreadable manifest, no status read that raises, no misfit and no broken answer, and there is one |
| `BackupOutcome.JunkManifestEndsRun` | deploy/oci/capture_offsite.py:448 | an input: a directory with a session and an unreadable manifest ends the run, and what stands behind it is never met |
| `BackupOutcome.ListSessionEndsRun` | deploy/oci/capture_offsite.py:463 | another: a compacted directory with a readable manifest whose session is a JSON list and no object, on which the status read raises |
| `BackupOutcome.OversizedFileEndsRun` | deploy/oci/capture_offsite.py:253-258 | another: a partition ready in every way with one file of 8 GiB or more |
| `BackupOutcome.BrokenPutEndsRun` | deploy/oci/capture_offsite.py:173-209 | another: a PUT that is stored while its answer breaks off leaves the object in the bucket and no line for it |
| `BackupFacts.RecordedNeverPut` | deploy/oci/capture_offsite.py:450-455 | an object whose name the ledger holds is left as it was by any run |
| `BackupFacts.RunNeverOverwrites` | deploy/oci/capture_offsite.py:189-209 | no run changes an object that already exists |
| `BackupFacts.OkMeans` | deploy/oci/capture_offsite.py:408-410 | a report is OK exactly when no partition failed, was stale, was withheld or had another manifest, the ledger does not disagree with itself, and nothing inside the window is unverified |
| `BackupTable.VisitTable` | deploy/oci/capture_offsite.py:441-502 | the exact table of one partition, from its directory, the readings of the archive, the configuration, the clock, ledger file and bucket: one row each for sent, conflict, already recorded, another manifest, disagreeing, stale (over 7200 s), pending, beyond the horizon, not complete, deferred, over budget and every failure with its reason; an outcome is met exactly when its row is |
| `BackupTable.ReportTable` | deploy/oci/capture_offsite.py:441-518 | lifted to the report of a whole run: a name is in uploaded, conflicts, stale, pending or failures (with that reason) exactly when a partition found under it meets that row, and each counter is the number of partitions that meet its row |
| `BackupTable.TallyInOrder` | deploy/oci/capture_offsite.py:441-503 | the lists of names keep the order in which the partitions were met |
| `BackupTable.DecidedAtTheStart` | deploy/oci/capture_offsite.py:450-462 | where no name is found twice, known, other manifest, disagreeing, stale, pending and beyond the horizon are decided by directory, clock and the ledger file at the start of the run |
| `BackupTable.PutReads` | deploy/oci/capture_offsite.py:478-502 | after an answered PUT the file reads one more entry, with the manifest's hash, digest, size and second, UPLOADED exactly if the bucket did not hold the name before; and the bucket holds the packed bytes unless something was there |
| `BackupTable.MetAgain` | deploy/oci/capture_offsite.py:450-453 | a partition that was sent is passed in silence by the next run if its manifest has the same hash, and reported as holding another one if not |
| `BackupTable.ReportStates` | deploy/oci/capture_offsite.py:504-526 | the state counts of a report are those of the file the run leaves: those at the start, one more UPLOADED for each upload listed and one more REMOTE_EXISTS_UNVERIFIED for each conflict listed; its unverified names and window bytes are those of that file |
| `BackupTable.WindowIsSum` | deploy/oci/capture_offsite.py:433-434 | a window weighs the sizes of the entries first put on record after its start, and of no others |
| `BackupDrain.WithholdsExactly` | deploy/oci/capture_offsite.py:433-478 | a run withholds nothing for the budget exactly when it sends nothing, or its window and the first max_uploads of the missing partitions it can send fit the budget |
| `BackupDrain.DrainsWhileRoom` | deploy/oci/capture_offsite.py:441-502 | while each run has that room on the ledger as it finds it, and no upload fails, m runs at any times within the horizon leave exactly n - min(n, m * max_uploads) of the n partitions that can be sent, whatever open, old, uncompacted, incomplete, recorded or refused ones the runs find in between |
| `BackupDrain.Drains` | deploy/oci/capture_offsite.py:433-502 | the same when, in the window of each run, what is on record at the start and all that is to be sent fit the budget, however much older windows hold |
| `BackupDrain.DrainedExactly` | deploy/oci/capture_offsite.py:441-502 | while each run has room: all n are on record exactly when m runs can carry them, m >= n / max_uploads rounded up |
| `Receipts.StatementOfReceipt` | deploy/oci/capture_offsite.py:557-559 | a receipt line states the object and digest it was written for |
| `Receipts.CutReceiptStatesOnly` | deploy/oci/capture_offsite.py:784-804 | however much of a written receipt arrives, what its lines state is the object and digest of something the drill verified |
| `Receipts.AcceptRestoreReceipt` | deploy/oci/capture_offsite.py:536-584 | the loop over the receipt lines, with the in-memory ledger, computes one verdict per line on file and map; an unreadable receipt changes nothing |
| `Receipts.AcceptanceAgrees` | deploy/oci/capture_offsite.py:546-583 | after every line the in-memory map is what the file reads as |
| `Receipts.AcceptMeans` | deploy/oci/capture_offsite.py:563-583 | an entry ends up RESTORE_VERIFIED exactly when it was, or when its name is not inconsistent and some line states the digest on record; nothing else changes |
| `Receipts.AcceptKeepsWindows` | deploy/oci/capture_offsite.py:571-582 | accepting a receipt never changes what any window of the ledger weighs |
| `Receipts.AcceptAccounting` | deploy/oci/capture_offsite.py:554-583 | every line that is not blank is accepted, already known or refused, once |
| `ReceiptTable.LineTable` | deploy/oci/capture_offsite.py:554-583 | the exact verdict of each line, from the ledger at the start and the lines before: blank, unreadable, not in the ledger, other bytes, already verified (then, or by an earlier line) or accepted; a line gets a verdict exactly when it meets that row |
| `ReceiptTable.ReceiptMeans` | deploy/oci/capture_offsite.py:551-584 | the lists reported, in the order of the lines, the count of those already known, and one ledger line for each accepted object, with what was on record of it and the outcome RESTORE_VERIFIED |
| `ReceiptTable.StatementOfObject` | deploy/oci/capture_offsite.py:557-559 | what any flat object states as a receipt line, and that without one of its two keys it states nothing |
| `ReceiptTable.BlankLines` | deploy/oci/capture_offsite.py:555-556 | spaces and tabs alone are passed over; a visible character is not |
| `Restore.RestoreRoot.ExtractPartition` | deploy/oci/capture_offsite.py:606-634 | all five files appear under the target, or nothing changes; an existing target is refused |
| `Restore.CollectMembers` | deploy/oci/capture_offsite.py:619-628 | the loop over the members computes the collection that `ExtractExactly` characterizes |
| `Restore.RunRestoreVerify` | deploy/oci/capture_offsite.py:637-687 | the loop over the names the limit leaves computes the drill of each object on one restore root, whose outcomes `RestoreTable.DrillReportTable` says outright; a destination in use is refused, and an error the loop does not catch ends the drill without a report |
| `Restore.LimitExactly` | deploy/oci/capture_offsite.py:654-687 | a drill with a limit goes over the last so many names, and over no more than the limit exactly when that is not 0 or nothing is listed: with a limit of 0 it goes over all; its report, if there is one, covers each of them |
| `Restore.LimitKeepsTheEnd` | deploy/oci/capture_offsite.py:654-656 | what is drilled is always the end of the listing: without a limit all of it, with a negative one all but the first so many |
| `Restore.LimitOfZero` | deploy/oci/capture_offsite.py:656 | an input: one name and a limit of 0, and it is drilled and reported |
| `Restore.DrillSound` | deploy/oci/capture_offsite.py:659-687 | everything taken as verified, whether the drill comes to a report or not, was downloaded, hashes to what is reported and to the copy of the ledger if there is one, extracts to exactly five files that are complete, replay and sit where their own identity says; and a report lists each name once |
| `RestoreTable.DrillTable` | deploy/oci/capture_offsite.py:659-686 | the exact table of one object: verified, with its digest, manifest hash and record count, exactly when it is canonically named, arrives, matches the copy of the ledger if there is one, extracts where nothing was, is complete, replays whole and is in its place; and one row for each check it may miss first |
| `RestoreTable.DrillReportTable` | deploy/oci/capture_offsite.py:657-687 | the report of a drill over distinct names: the verified list holds exactly the names that meet the verified row, in order and as restored; the failures are exactly the others, in order, each with the first check it missed |
| `Restore.DrillReportsExactly` | deploy/oci/capture_offsite.py:659-687 | a drill comes to a report exactly when no download of a canonical name breaks off and no object it accepts and extracts makes the status read or the replay raise |
| `Restore.RaisingObjectEndsDrill` | deploy/oci/capture_offsite.py:671 | an input: an object whose files make the status read raise ends the drill, and what stands behind it is never fetched |
| `OffsiteSystem.HistorySafe` | deploy/oci/capture_offsite.py:331-805 | over every interleaving of backup turns, receipts accepted beside a running backup, crashes between PUT and append or inside an append, drills that write receipts, receipts that arrive cut off anywhere, and arbitrary changes of the bucket: an entry stands for an answered PUT of bytes with its digest and size, is UPLOADED only if that PUT created the object, and is RESTORE_VERIFIED only if bytes with that digest were downloaded and replayed; the ledger never disagrees with itself |
| `OffsiteSystem.CachesAgree` | deploy/oci/capture_offsite.py:432-583 | in every such history a running backup knows exactly the names of the file, and of each what the file says but for upgrades to RESTORE_VERIFIED that came in since; an acceptance at work knows no name the file does not, and of each the same |
| `OffsiteSystem.RestoreIsTheUpload` | deploy/oci/capture_offsite.py:472-502 | end to end: with a digest that separates byte strings, a RESTORE_VERIFIED object was restored to exactly the five files the local partition had when it was packed |
| `OffsiteReturns.PutIsOnRecord` | deploy/oci/capture_offsite.py:478-502 | in every history, whatever else is at work: after an answered PUT that created the object the file reads UPLOADED for it, and after one that met an existing object REMOTE_EXISTS_UNVERIFIED, and no other entry changed |
| `OffsiteReturns.SentReturnsVerified` | deploy/oci/capture_offsite.py:441-805 | end to end, in every history: an object that is sent, is still there when a drill downloads it, is complete and replays, and whose receipt is accepted, is RESTORE_VERIFIED in the ledger file, whatever else happens in between |
| `OffsiteHistory.HistoryGrows` | deploy/oci/capture_offsite.py:331-384 | between any two moments of any history no entry is lost or restated, and the only change of state is to RESTORE_VERIFIED: an unverified object never becomes UPLOADED |
| `OffsiteHistory.BudgetHolds` | deploy/oci/capture_offsite.py:433-502 | from an empty ledger, with one budget and window and a clock that does not go back, the bytes on record inside the window fit the budget at every moment of every history, acceptances beside the runs included |
| `Recovery.RowDigest` | scripts/terminal_lite_recovery.py:212-220 | the loop feeds the running hash exactly the framed rows and counts them; it fails exactly on a row of 2^64 bytes or more |
| `Recovery.FeedInjective` | scripts/terminal_lite_recovery.py:212-220 | the bytes fed to the hash determine the rows: how many, in which order, and where each one ends |
| `Framing.UnframeFrame` | scripts/terminal_lite_recovery.py:217-218 | a row behind its 8-byte big-endian length is read back whole, whatever follows it |
| `Framing.FrameLayout` | scripts/terminal_lite_recovery.py:217-218 | a framed row is its length as eight bytes, then the row |
| `Framing.FirstByteWeighsMost` | scripts/terminal_lite_recovery.py:217-218 | of the bytes of a length the first weighs most |
| `Recovery.SafeExactly` | scripts/terminal_lite_recovery.py:175-180 | the names `safe_member` accepts are exactly the plain relative paths without a backslash or a colon |
| `Recovery.SafeStaysInside` | scripts/terminal_lite_recovery.py:202-204 | a safe name written under the staging directory stays under it, component by component |
| `Recovery.FileInventory` | scripts/terminal_lite_recovery.py:134-152 | the loop over the walk succeeds exactly when there is no link or special file and the tree fits the ceiling, and then lists every file with its size and digest |
| `Recovery.Host.UnpackEvidence` | scripts/terminal_lite_recovery.py:183-209 | all or nothing: the expected tree is published whole, or the published directories are unchanged; what is ever written is under staging, has safe names and fits the ceiling |
| `Recovery.PackUnpacks` | scripts/terminal_lite_recovery.py:155-209 | the round trip and exactly when there is one: the archive of a directory tree unpacks to that very tree if no name holds a backslash or a colon, and is refused otherwise, because packing does not check names |
| `Recovery.ColonDoesNotUnpack` | scripts/terminal_lite_recovery.py:155-180 | a directory that packs and does not unpack |
| `Recovery.PublishedIsExpected` | scripts/terminal_lite_recovery.py:183-209 | whatever the archive bytes are, a published tree is the archive read whole, of safe regular members none twice, with the expected inventory and digest |
| `RecoveryTable.PublishedExactly` | scripts/terminal_lite_recovery.py:183-209 | a tree is published exactly when the archive bears the expected digest, reads whole, holds that tree as safe regular members none twice, and the tree fits the ceiling and has the expected inventory; in whatever order, and whatever follows the archive's end |
| `RecoveryTable.RefusedAs` | scripts/terminal_lite_recovery.py:183-208 | what every other archive is refused as: the digest first; then the first member that is unsafe, unexpected, repeated, of a wrong size, over the ceiling or in another's way, as just that; then the archive's end; then what is missing |
| `Recovery.InventoryDetermines` | scripts/terminal_lite_recovery.py:206-209 | with a digest that separates byte strings an inventory admits one tree only |
| `TerminalCommands.RecordMay` | src/trade_platform/research_terminal_commands_v1.py:348-360 | a step that keeps a command's events in order is never refused, and keeps the ledger valid |
| `WorkerTable.RecordedExactly` | src/trade_platform/research_terminal_commands_v1.py:348-360 | whether and why an event is refused on any ledger in order: unknown, terminal, or a second CLAIMED or RUNNING; a taken event is one more event of that command and nothing else |
| `TerminalCommands.AppendEachLatest` | src/trade_platform/research_terminal_commands_v1.py:382-394 | one event for each of some commands moves exactly their latest states |
| `TerminalCommands.ActedLatest` | src/trade_platform/research_terminal_commands_v1.py:304-346 | a request, new or repeated, and a settlement by the API touch no command that a worker has claimed or runs, and restate none |
| `TerminalCommands.InlineSettled` | src/trade_platform/api.py:804-813 | a request of an inline kind that passes its gate is settled by the API: its events are REQUESTED and SUCCEEDED or FAILED, a second settlement is refused, and the ledger stays in order |
| `WorkerTable.RequestArrives` | src/trade_platform/research_terminal_commands_v1.py:304-346 | the first request for a number is put at the end of the order with its one event, REQUESTED or BLOCKED, and what it asks is never restated |
| `WorkerProcess.CommandLedger.Record` | src/trade_platform/research_terminal_commands_v1.py:348-360 | refused with the reason when the command is unknown, terminal or already has the event, and then unchanged |
| `WorkerProcess.CommandLedger.Claim` | src/trade_platform/research_terminal_commands_v1.py:362-380 | the oldest REQUESTED command of an allowed kind moves to CLAIMED under this worker, and nothing else changes |
| `WorkerProcess.CommandLedger.AbandonStaleClaims` | src/trade_platform/research_terminal_commands_v1.py:382-394 | every claim made under the prefix fails, and nothing else changes |
| `TerminalCommands.OldestIsFirst` | src/trade_platform/research_terminal_commands_v1.py:362-380 | what is claimed is the oldest: no command that came before it could have been claimed |
| `WorkerProcess.WorkerProcess.StartRunner` | scripts/research_terminal_worker.py:241-267 | refuses a runner shown running with the same inputs or a seventh one; otherwise both tables gain the command |
| `WorkerProcess.WorkerProcess.StopRunner` | scripts/research_terminal_worker.py:269-287 | both tables lose the runner and its command is recorded STOPPED; a runner not owned or of the other kind is refused |
| `WorkerProcess.WorkerProcess.Execute` | scripts/research_terminal_worker.py:304-357 | gate, handler, then one recorded outcome: the one `WorkerTable.ExecuteTable` says |
| `WorkerProcess.WorkerProcess.Reap` | scripts/research_terminal_worker.py:360-365 | exactly the runners whose process is gone leave both tables and are recorded EXITED, without a refusal, and tables and ledger agree afterwards |
| `WorkerProcess.WorkerProcess.StartUp` | scripts/research_terminal_worker.py:381-389 | claims abandoned on this host fail, and the runners the ledger shows as started from this host are recorded EXITED |
| `WorkerProcess.WorkerProcess.ShutDown` | scripts/research_terminal_worker.py:401-408 | every runner left in the table is recorded STOPPED where the ledger takes it; refusals are passed over |
| `WorkerProcess.WorkerProcess.TakeTurn` | scripts/research_terminal_worker.py:391-400 | one turn of the loop: arrivals, reap, claim, execute |
| `WorkerProcess.WorkerProcess.Run` | scripts/research_terminal_worker.py:380-408 | the whole process: start up, loop until an idle turn of a `--once` worker, shut down |
| `Worker.ClaimHolds` | scripts/research_terminal_worker.py:375-393 | a claim takes a command of an allowed kind; without one, nothing is claimable; heavy kinds wait while disk is short |
| `Worker.ExecuteAgrees` | scripts/research_terminal_worker.py:316-324 | executing a claimed command, whatever gate, child process and disk answer, never has its outcome refused, and tables and ledger agree again |
| `WorkerTable.ExecuteTable` | scripts/research_terminal_worker.py:241-357 | the exact outcome of an execution from kind, ledger, tables and answers: BLOCKED for a blocked gate and FAILED for one that raises; with the gate passed a one-shot is SUCCEEDED or BLOCKED exactly if its child finished so and else FAILED, a start is RUNNING exactly if no like is shown, fewer than six run and it spawned, a stop SUCCEEDED exactly if the runner is owned, of its kind and stops; the tables change by a start or stop that goes through only, and no other command but a stopped runner gets an event |
| `Worker.TurnAgrees` | scripts/research_terminal_worker.py:391-400 | one turn keeps the agreement |
| `WorkerTable.TurnTable` | scripts/research_terminal_worker.py:360-400 | a whole turn, exactly: the API's acts first; then every runner whose process is gone leaves both tables and is EXITED; then the first command in order that is requested, of a worker's kind and not heavy while disk is short is claimed and executed, and without one nothing else happens |
| `Worker.TurnsAgree` | scripts/research_terminal_worker.py:391-400 | at every loop head of every run what this worker last recorded as RUNNING is exactly what its two tables hold (and what was lost before it started), at most six, each under its own kind, and it holds no claim |
| `WorkerTable.LoopTakes` | scripts/research_terminal_worker.py:391-400 | the loop takes turn after turn; it ends early by a refused outcome, or by the first idle turn of a `--once` worker, and by nothing else |
| `WorkerRuns.RestartClears` | scripts/research_terminal_worker.py:381-388 | on any ledger in order, and so after a crash anywhere, the start leaves no claim of this host, and of its runners exactly those that the newest 500 commands do not show |
| `WorkerRuns.RestartAgrees` | scripts/research_terminal_worker.py:381-388 | tables and ledger agree after the start but for lost runners of this worker's own name, and agree outright exactly when there are none |
| `WorkerRuns.RunSettles` | scripts/research_terminal_worker.py:380-408 | over every run whose child processes leave readable results: no outcome is ever refused; at the end no claim is held and nothing is RUNNING but what was lost before; every other command this worker claimed has exactly one outcome, and every runner exactly one STOPPED or EXITED |
| `WorkerRuns.StartKeepsDifferent` | scripts/research_terminal_worker.py:241-246 | a start keeps all runners of this worker different in kind, family, dataset, symbol and watch list exactly when no like one is hidden from the newest 500 commands |
| `WorkerRuns.SecondRunnerStarts` | scripts/research_terminal_worker.py:241-246 | and it does not always: with 500 newer commands in between, a second runner just like the first is started |
| `WorkerRuns.RunnerNotClosed` | scripts/research_terminal_worker.py:384-388 | nor is the first one closed by the next worker of the host: it stays RUNNING in the ledger |
| `WorkerDistinct.TurnDiffers` | scripts/research_terminal_worker.py:391-400 | one turn leaves all runners different exactly when it starts none whose like is at work and hidden from the newest 500 commands |
| `WorkerDistinct.RunDiffersExactly` | scripts/research_terminal_worker.py:241-267 | over every run: no two runners in the table share kind, family, dataset, symbol and watch list at any loop head, if and only if the run never starts one beside its hidden like |
| `WorkerDistinct.RunKeepsDifferent` | scripts/research_terminal_worker.py:241-267 | so they differ at every loop head of a run that ends with at most 500 commands in the ledger |
| `WorkerHistory.EveryHistory` | scripts/research_terminal_worker.py:241-408 | over every history of single writes, in which workers of any hosts start one after another, are interrupted or killed between any two of their writes, and the API requests and settles at any time: every command's events stay in order; no event a worker writes is ever refused; at each loop head of each worker its tables are exactly what the ledger shows it running but for what its start-up was not shown, which is nothing under a new name; and no other claim of its host stands |
| `WorkerRefinement.RunIsAHistory` | scripts/research_terminal_worker.py:380-408 | a whole run of turns is one of these histories: what it leaves in the ledger, single writes leave there as well |
| `Holdout.Database.Transact` | migrations/versions/20261008_0057_strategy_lab_validation.py:41-129 | all statements of a transaction, or none |
| `Holdout.Database.InsertRow` | migrations/versions/20261008_0057_strategy_lab_validation.py:58-107 | a BEFORE INSERT trigger overwrites the two instants with the clock before any constraint is looked at |
| `HoldoutFacts.RunKeeps` | migrations/versions/20261008_0057_strategy_lab_validation.py:41-129 | every check, key, foreign key and the exclusion constraint hold after any transactions, and no row is ever changed, moved or lost |
| `HoldoutFacts.OneShot` | migrations/versions/20261008_0057_strategy_lab_validation.py:41-119 | for every history: no instant lies in two opened holdouts, no cycle is opened or validated twice, and outside the grandfathered cycle registered_at < start < end <= opened_at, whatever values were supplied and whatever the clock does |
| `HoldoutFacts.CandidatesTraced` | migrations/versions/20261008_0057_strategy_lab_validation.py:69-129 | every candidate state traces by its validation and opening to an AUTHORIZED packet |
| `HoldoutFacts.NeverOpenedAgain` | migrations/versions/20261008_0057_strategy_lab_validation.py:81-98 | after any further history an opened holdout is still there and any statement that would open a part of it, or its cycle, again is refused |
| `HoldoutFacts.CyclesStampedByTheClock` | migrations/versions/20261008_0057_strategy_lab_validation.py:58-68 | each cycle but the migrated one bears the instant of the transaction that brought it |
| `HoldoutFacts.OpeningsStampedByTheClock` | migrations/versions/20261008_0057_strategy_lab_validation.py:99-107 | each opening bears the instant of the transaction that brought it |
| `HoldoutFacts.OpeningKeepsOwnCycle` | migrations/versions/20261008_0057_strategy_lab_validation.py:81-98 | an accepted opening is of the cycle its packet was written for exactly when the caller saw to it: no foreign key does |
| `HoldoutFacts.OpeningMayStray` | migrations/versions/20261008_0057_strategy_lab_validation.py:81-98 | a transaction the constraints take that opens one cycle under a packet written for another |
| `HoldoutTable.CycleTaken` | migrations/versions/20261008_0057_strategy_lab_validation.py:41-68 | a cycle is taken exactly when it is named after its own midnight, which is still to come or the grandfathered one, has a note, and neither name nor start is there; it bears the clock's instant |
| `HoldoutTable.PacketTaken` | migrations/versions/20261008_0057_strategy_lab_validation.py:69-79 | a packet is taken exactly when it is well formed and new and its study and cycle are there |
| `HoldoutTable.OpeningTaken` | migrations/versions/20261008_0057_strategy_lab_validation.py:81-107 | an opening is taken exactly when its span is over, no instant of it was opened before nor its cycle, that cycle is there with that start, and its packet is there and AUTHORIZED |
| `HoldoutTable.ValidationTaken` | migrations/versions/20261008_0057_strategy_lab_validation.py:108-118 | a validation is taken exactly when it is well formed, new, the first of its cycle, and of that cycle's own opening and packet |
| `HoldoutTable.CandidateTaken` | migrations/versions/20261008_0057_strategy_lab_validation.py:119-129 | a candidate's state is taken exactly when it is one of the two, its study and validation are there, and that validation has not judged the trial before |
| `HoldoutTable.ChangeTaken` | migrations/versions/20261008_0057_strategy_lab_validation.py:41-129 | an UPDATE or DELETE is taken exactly when it picks no row |
| `HoldoutTable.CycleRunsThrough` | migrations/versions/20261008_0057_strategy_lab_validation.py:41-129 | on any tables the constraints allow, a cycle whose rows are coherent and new is registered, opened, validated and judged: nothing in the way of an honest owner |
| `TrialQueue.QueueTable.Update` | migrations/versions/20261006_0053_strategy_lab_ledger.py:85-104 | an UPDATE passes the guard trigger and the checks on every row it picks, or changes nothing |
| `TrialQueue.RunKeeps` | migrations/versions/20261006_0053_strategy_lab_ledger.py:56-140 | over any history of attempted transactions no row is lost, identities are fixed, attempts never decrease, SUCCEEDED and CANCELLED rows are frozen, and evidence is never changed |
| `TrialQueue.EveryHistory` | migrations/versions/20261006_0053_strategy_lab_ledger.py:69-140 | a complete lease exactly while CLAIMED, one queue row and at most one result per trial |
| `TrialQueue.LeaseOnlyWhileClaimed` | migrations/versions/20261006_0053_strategy_lab_ledger.py:79 | no trace of a lease outside CLAIMED exactly when owner and expiry come and go together |
| `TrialQueue.HalfALeaseStays` | migrations/versions/20261006_0053_strategy_lab_ledger.py:79 | the check lets a FAILED row keep its owner |
| `TrialLedgerRuns.PickTakesTheFirst` | src/trade_platform/strategy_lab_ledger_v1.py:268-277 | a claim picks the first candidates by ordinal, up to the limit, each once |
| `TrialLedgerFacts.MoveSound` | src/trade_platform/strategy_lab_ledger_v1.py:259-405 | claim, renew, complete, fail, retry and cancel: the statements are taken, no event identifier is ever used twice, and the invariant is kept; what they do to the rows is said by the tables of `TrialLedgerEffects` below |
| `TrialLedgerEffects.HeldExactly` | src/trade_platform/strategy_lab_ledger_v1.py:299-312 | whose claim holds its row, and which error every other gets: not queued, lost, or expired |
| `TrialLedgerEffects.ClaimTable` | src/trade_platform/strategy_lab_ledger_v1.py:259-297 | a claim takes exactly the first `limit` rows by ordinal that are of the study, not locked, and PENDING or CLAIMED with a lease that ran out; each gets the next attempt, this worker and a lease until now + lease, a CLAIMED event, and for the one who let it run out a LEASE_EXPIRED event; nothing else changes; and its three refusals |
| `TrialLedgerEffects.RenewTable` | src/trade_platform/strategy_lab_ledger_v1.py:314-326 | a renewal is taken exactly from the worker whose claim still holds the row, and moves the end of that lease to now + lease, and nothing else |
| `TrialLedgerEffects.CompleteTable` | src/trade_platform/strategy_lab_ledger_v1.py:328-360 | a completion makes the row SUCCEEDED without a lease, with one result and one event of this worker and attempt; and exactly when it is refused, and as what |
| `TrialLedgerEffects.FailTable` | src/trade_platform/strategy_lab_ledger_v1.py:362-373 | a failure makes the row FAILED without a lease, with one event and no result; and exactly when it is refused, and as what |
| `TrialLedgerEffects.RetryTable` | src/trade_platform/strategy_lab_ledger_v1.py:375-387 | a retry makes exactly the FAILED rows of the study PENDING, in the attempt they had, with one event each |
| `TrialLedgerEffects.CancelTable` | src/trade_platform/strategy_lab_ledger_v1.py:389-405 | a cancellation makes exactly the PENDING, CLAIMED and FAILED rows of the study CANCELLED, without leases, with one event each |
| `TrialLedgerEffects.RegisterTable` | src/trade_platform/strategy_lab_ledger_v1.py:208-255 | a study is registered exactly when its trials are new and apart, and then whole, each PENDING in attempt 0; a study that is there stays as it is |
| `TrialLedgerEffects.WorkerNames` | src/trade_platform/strategy_lab_ledger_v1.py:135-138 | the names a worker may bear, a final newline included, which the pattern lets pass |
| `TrialLedgerRuns.ApplySound` | src/trade_platform/strategy_lab_ledger_v1.py:208-405 | no operation but a registration is ever refused by the database: only for the reasons the ledger itself gives |
| `TrialLedgerRuns.ResultsAreEarned` | src/trade_platform/strategy_lab_ledger_v1.py:259-405 | after every history a trial has a result exactly when it SUCCEEDED, of the row's own attempt, and that attempt was claimed once, by the worker the result names; no attempt is ever given out twice; no half lease is ever left |
| `TrialLedgerRuns.LostForever` | src/trade_platform/strategy_lab_ledger_v1.py:299-371 | a worker whose lease was reclaimed, released or cancelled has every further write refused as a lost lease, after any history |
| `TrialLedgerRuns.LeaseProtects` | src/trade_platform/strategy_lab_ledger_v1.py:259-405 | until a lease runs out nothing anybody else does, short of cancelling the study, touches its row: no second worker receives the trial |
| `TrialLedgerRuns.HolderCompletes` | src/trade_platform/strategy_lab_ledger_v1.py:328-360 | and after any such history the holder's completion is taken |
| `TrialLedgerEffects.RenewedHolds` | src/trade_platform/strategy_lab_ledger_v1.py:299-360 | after a renewal no claim of anybody else before now + lease takes the trial, whatever the history, and the holder may renew or complete it at any instant before that |
| `TrialLedgerEffects.ClaimedHolds` | src/trade_platform/strategy_lab_ledger_v1.py:259-360 | so may whoever claims a trial, until now + lease |
| `TrialLedgerRuns.FailOfUnknownStudy` | src/trade_platform/strategy_lab_ledger_v1.py:362-373 | a forged claim of an unknown study is refused by the foreign key |
| `HealthGate.DistinctOnKeeps` | migrations/versions/20260906_0039_data_health_interval_scope.py:61-74 | sorting and keeping the first of each run keeps one latest row of each group, for every order the ORDER BY allows |
| `HealthGate.Gate39Exactly` | migrations/versions/20260906_0039_data_health_interval_scope.py:41-79 | with this migration's key the gate refuses exactly when the signal is VALIDATED and some applicable group's latest assessment blocks, in any order |
| `HealthGateTable.Refuses39Exactly` | migrations/versions/20260906_0039_data_health_interval_scope.py:50-76 | column by column: refused exactly when the signal is VALIDATED and some assessment made by then of everything, its asset class, its strategy or its instrument blocks, with no later one of the same scope, value and interval |
| `HealthGateTable.MayRefuse10Exactly` | migrations/versions/20260815_0010_persistent_data_health_gate.py:57-80 | the same of the original gate, some way its query may go, with no later one of the same scope and value |
| `HealthGateTable.OneBlocks` | migrations/versions/20260906_0039_data_health_interval_scope.py:61-73 | one blocking assessment of any of the four scopes refuses exactly the signals it concerns |
| `HealthGate.Gate39RefusesMore` | migrations/versions/20260815_0010_persistent_data_health_gate.py:57-80 | whatever the original gate refuses on the same rows, however it breaks its ties, the new one refuses |
| `HealthGate.NoGroupMasksAnother` | migrations/versions/20260906_0039_data_health_interval_scope.py:50-74 | rows of different groups decide apart: together they block exactly when one part does |
| `HealthGate.IntervalsDecideApart` | migrations/versions/20260906_0039_data_health_interval_scope.py:50-74 | so no interval's rows mask another's |
| `HealthGate.MayLetThroughExactly` | migrations/versions/20260815_0010_persistent_data_health_gate.py:57-80 | of two gates one of which groups by one column less (0010 and 0039, or 0039 and one with the kinds apart): the coarser may let rows through, some way its query may go, exactly when every row that blocks as latest of a fine group is masked by a row of another one, no earlier, fine, and latest of the coarse group |
| `HealthGate.LetsThroughExactly` | migrations/versions/20260815_0010_persistent_data_health_gate.py:57-80 | and it lets them through whatever its query keeps exactly when every such row stands behind a later one of another fine group |
| `HealthGate.DifferOnlyByMasking` | migrations/versions/20260815_0010_persistent_data_health_gate.py:57-80 | so where 0010 lets through what 0039 refuses, there is a row that blocks its interval, and every such row is masked |
| `HealthGate.Gate10Masks` | migrations/versions/20260815_0010_persistent_data_health_gate.py:57-80 | and there they do differ |
| `HealthGate.SureExactly` | migrations/versions/20260906_0039_data_health_interval_scope.py:61-74 | without a key that makes the latest unique the query blocks for sure exactly when every latest row of some group does |
| `HealthGate.KindsTie` | migrations/versions/20260907_0043_futures_settlement_open_interest.py:193-203 | the key of a later migration adds the observation kind while the gate stays as it is: two kinds at one instant tie, and the same signal may be refused or let through |
| `HealthGate.FinerRefusesMore` | migrations/versions/20260907_0043_futures_settlement_open_interest.py:193-203 | whatever the coarser of two such gates refuses, in any outcome of its query, the finer one refuses |
| `HealthGate.LaterKindMasks` | migrations/versions/20260907_0043_futures_settlement_open_interest.py:193-203 | and there is such a pair: a settlement price that blocks, and a later open interest that is fine |
| `SegmentGrid.EndIsFirst` | scripts/capture_bybit_public.py:204-217 | the planned end is the first grid instant at least 60 s away, and the bound lies in [60 s, segment + 60 s) |
| `SegmentGrid.EndIsOnly` | scripts/capture_bybit_public.py:204-217 | and that determines the bound |
| `SegmentGrid.OneGridLineAtMost` | scripts/capture_bybit_public.py:212-217 | inside an open segment lies at most one grid instant, within 60 s of its start |
| `SegmentGrid.HandOff` | scripts/capture_bybit_public.py:252-279 | after a segment that ran to its bound the next ends later, and takes the very next slot exactly when the hand-off is at most segment - 60 s |
| `SegmentGrid.Supervise` | scripts/capture_bybit_public.py:240-279 | the loop: a too-short segment is rejected first; a failed fleet is retried; the run ends with the exit code of the turn that ends it |
| `SegmentGrid.RunOnTheGrid` | scripts/capture_bybit_public.py:240-279 | over a whole run, whatever fails in it: every planned end is on the grid, later starts never plan earlier ends, ends strictly increase when segments run to their bounds, and short hand-offs skip no slot |
| `SegmentGrid.ExitMeans` | scripts/capture_bybit_public.py:262-279 | the loop goes on behind a failed fleet and behind a bounded segment that ran to its end, and behind nothing else; the first other turn ends it, with 2 exactly where the disk floor was met, by an error or the fleet's own stop, and with 0 otherwise; one segment is planned for each turn up to that one |
| `SegmentGrid.StraddlesExactly` | scripts/capture_bybit_public.py:207-210 | with a segment that divides the day, a segment straddles midnight exactly when it starts in the last minute of a day: the docstring's "none straddles a UTC day" is not what the code does |
| `SegmentGrid.StraddlesForAnyLength` | scripts/capture_bybit_public.py:207-217 | for any segment length: exactly when the last grid instant up to the next midnight is less than 60 s away |
| `SegmentGrid.HourlySegmentStraddles` | scripts/capture_bybit_public.py:207-217 | an hourly segment that does |
| `ShardGate.Verify` | scripts/ci_test_shard.py:88-121 | the loops over the reports, with the shard last seen for each test, compute the list of problems the lemmas are about |
| `ShardGateFacts.NoProblemExactly` | scripts/ci_test_shard.py:88-121 | no problem exactly when there is one report per shard, all of one non-empty suite, every report says all its tests ran and passed with permitted skips only, no test is in two shards and every discovered one in some |
| `ShardGateFacts.CheckIsSound` | scripts/ci_test_shard.py:52-121 | for reports as `run` writes them: no problem means two jobs, one per shard, of the same suite; every test in exactly one share; every copy of every test in a share started, nothing failed, only permitted skips |
| `ShardGateFacts.CheckIsComplete` | scripts/ci_test_shard.py:52-121 | clean runs never raise a problem, in whatever order the reports come and however often an id is discovered |
| `ShardGateFacts.ReportSays` | scripts/ci_test_shard.py:64-85 | what a written report says of the suite, the share and the run |
| `ShardGateTable.ShardOfExactly` | scripts/ci_test_shard.py:60-61 | a test is in the heavy shard exactly when what precedes its first dot is one of the ten heavy modules, and otherwise in the core |
| `ShardGateTable.ProblemsExactly` | scripts/ci_test_shard.py:88-121 | the check reports each problem exactly when it is due: wrong shards, nothing discovered, another suite, a test assigned to two shards (with the last two, by name), a count that differs, a run that failed, a skip that is not permitted, and the very set of tests no shard took |
| `ShardGateTable.ReportListsInOrder` | scripts/ci_test_shard.py:68-82 | a report lists suite and share in order, each as often as it was discovered, and counts what the runner recorded |

## Left out

- HTTP, pre-authenticated URLs, retries and the ping: the bucket is a map with create-if-absent, get and list, where a failed or broken-off PUT may or may not have stored its object, and a download arrives, fails or breaks off.
- Errors of the file system, and errors other than its own that `tarfile` may raise on bytes that are no archive: files can be read and written, and an archive reads or does not.
- Byte layout of tar and gzip: an archive is a list of length-framed members with an end mark; the ustar limits on a member's name and size are kept, block padding and headers are not.
- JSON beyond flat objects of strings, integers, booleans and null: floats, nested values, lone surrogates, and numbers in strings other than plain decimals do not read, and a line that holds one counts as one that does not parse; an infinite float, on which the reader raises, included.
- Text encoding: ledger and receipt files are taken as decoded text, so a file that is not valid UTF-8, which the program does not catch, is not modelled.
- A second backup run at the same time as the first: the timer starts one only when the last has ended, and each run counts its budget for itself.
- Between the look at the last byte of the ledger file and the write that follows, another command is given room for a newline too many only. One that dies inside that gap with its own line torn is not modelled: the next line is glued to the torn one and both are lost to the reader, so a running backup then knows a name the file does not. Two writes never interleave byte by byte.
- A receipt that no restore drill wrote.
- Internals of the capture archive (replay, status, manifests, and when these raise) and symbolic links under its roots: functions of a partition's files, and plain files.
- A source directory that changes while it is packed as recovery evidence: the second inventory that refuses it is not part of the model.
- Process control, terminal output, Docker, the database dump and identity checks of the recovery script.
- Handlers of the worker's one-shot commands: what their child process leaves behind is an input. A result file that is there and cannot be read makes `execute` raise: that exit is not in the run of turns, but among the histories, as the end of a run with its claim standing.
- The advisory lock that admits one worker at a time: it is taken as held for as long as the process lives.
- The event order of the command ledger is the order of insertion: clocks that go back between two events of a command, and host names in which SQL's LIKE sees a wildcard, are not modelled.
- Infinite timestamps and TRUNCATE, which row triggers do not see, in the three database models; recorded_at columns and JSON contents carry no constraint that matters here.
- Study rows of the trial queue are their identifiers, so registering a known study again under another hash or trial count, which the source refuses, is not told apart from registering the same; the policy slots and bounds checked on them are settled by one line each.
- Result hashes and metrics of a trial: a completion is taken with whatever metrics it has.
- Content addresses: a registration of the trial ledger may be refused by the database when an identifier collides, and nothing here excludes that.
- Compaction, capture sessions and free-disk measurement of the recorder: a fleet run is an outcome and the clock at its start.
- The order in which a shard report lists its skips: the source sorts them, here they stay as the runner recorded them; the check reads them one by one.
- The unittest runner: what it started, failed and skipped is an input of which only one thing is asked, that it starts each test it was given at most once.
- The other migrations, the web tree, the benchmark and acceptance scripts: per-row checks, user interface and measurement.
