# jojobot, modelled in Dafny

This project models the parts of jojobot that keep several copies of one truth and
proves that the copies agree, or says exactly when they do not.

**The fenced event log and the ledger served from it.** `Server` is the database as a
value: rows, lock owner, connections and their transactions, and the moves the server
makes on its own. `Network` is the client's side of it, where every reply may be lost.
`DoltLog` is the log client as a class over a `Remote`; each of its methods is one step
of the relations in `EventLog`, and the theorems about runs (one chain, no late commit,
companions with their batch) are proved about those relations. `TeachingLog` is the
ledger above the log, `LedgerSpec` says what its memory may claim about the durable log,
and `Reconcile` is the boot's comparison with the legacy rows, taken in the name order of `Order`.

**The search projection.** `Postings` and `Records` say what deleting by a term and
rewriting the differences do to an index, `Journal` what the operations staged for journal
entries inside runs do to one, and `Projection` is the index as a class with faults at
every document, commit and reload. `Overlaps`, `ReloadDebt` and `Marks` add the
interleavings: ingests that compared with one mirror, the debt of a failed reload, and the
marks a reading may clear.

**One writer, its image and its lane.** `Writer` and `DeferredCounts`
are state machines over the steps of callers and one worker. `FoldedMemory`
is the memory image above the store, and `Declarations` the fold of a key's writes under
what has been declared.

**The bar.** `Dev` is the selection of jobs for a push, with `Sorting` for what a stable sort does, `Deadline` the clock of one test
binary, `Bundle` the listing of a prebuilt bundle, over the text functions in `Text`.

## What the proofs found

- **A change is told before its job's answer if and only if the job did not panic.** A
  panicking job skips the delivery, so a change it had recorded waits for the next job's
  delivery (`Writer.ToldBeforeTheEndUnlessPanicked`, `Writer.APanicLeavesItsChangeForTheNextJob`).
- **A recovery before the first rebuild leaves an image that goes stale.** It loads the
  image without asking for it, and a write brings up to date only an image that was asked
  for. An image is right after a write if and only if it was asked for, is gone, or the
  write changed nothing it holds (`FoldedMemory.Folded.Write`, `FoldedMemory.AnEarlyRecoveryGoesStale`).
- **A plain list declared over a blank is missed.** The test that spares a re-read compares
  a key's fold, reference and list of references. Whether a blank is a value depends on any
  list, so a declaration that moves a key between list and no list over a standing blank
  leaves the image behind the store; the comment beside the test says otherwise
  (`Declarations.TheTestIsRightExactlyWhenNoListMoves`, `Declarations.APlainListOverABlankIsMissed`).
- **A forget in flight is not seen by the fast path.** A first contact takes no lock, so
  beside a forget whose clear has landed it still answers that the pair is known. A pair
  it answers for is in the durable log if and only if the call in flight has not landed its
  batch, or that batch keeps the pair (`LedgerSpec.AReadAtAnyInstant`,
  `LedgerSpec.AForgetInFlightIsNotSeen`).
- **Overlapping reloads may hide a commit that was answered `Ok`.** The reader is reloaded
  after the writer's lock is gone, so one reload may open its view before another and publish
  after it. What the reader owes and sees is right in every interleaving whose publications
  lower nothing, and so in every one that publishes in the order of its reads
  (`ReloadDebt.PublishingOutOfOrderHidesACommit`, `ReloadDebt.PublishingInReadOrderGoesForward`).
  What was vouched for stays visible if and only if nothing older is published
  (`ReloadDebt.TheReaderKeepsItsWord`).
- **Overlapping ingests may leave what no scan says.** Each compares with the mirror before
  it takes the writer's lock. Of two that compared with one mirror the later may find nothing
  to write where the earlier one wrote, and two that both find an entry new add it twice.
  `Records.OverlappingIngests` and `Overlaps.Overlap` say exactly when the later one is right,
  `Records.AnOlderScanLeavesTheNewer`, `Overlaps.AnEntryNewToBothLandsTwice` and
  `Overlaps.AnEntryOneReadingAddedStays` are inputs at which it is not, and by
  `Records.DamageLasts` and `Overlaps.DamageLasts` the damage stays until an ingest writes that key.
- **A run's new focus does not reach its old entries.** An entry is found and shown under its
  run's working-on line, and an ingest rewrites only the entries that changed, so one that did
  not keeps the line it was written under (`Journal.EntryChangesRewriteAll`,
  `Journal.AFocusStaysBehind`, `Projection.TheIndexIsARebuild`).
- **A reading that lands late hides writes without a mark.** A mark is cleared by the reading
  that showed its write; an older reading ingested after it takes the write out again
  (`Marks.HiddenWritesAreMarked`, `Marks.AnOlderReadingHidesAWrite`).
- **A listing reads back if and only if no path holds a space before a parenthesis**
  (`Bundle.TheListingReadsBack`).

`dafny verify dfyconfig.toml` checks the whole project.

## Model

| member | source | states |
|---|---|---|
| EventLog.RunKeepsGood | crates/jojobot-adapters/src/dolt_log.rs:103-274 | In every run of appends, lost replies, reads, snapshots and reopenings the committed batches form one gap-free chain from position 0, with no identity twice. |
| EventLog.EveryPositionIsInOneBatch | crates/jojobot-adapters/src/dolt_log.rs:201-221 | On such a chain every position up to the head lies in exactly one batch. |
| EventLog.RowsFollowTheChain | crates/jojobot-adapters/src/dolt_log.rs:216-274 | Over any run the companion rows are the companions of the committed batches applied in chain order: they take effect exactly when their batch does. |
| EventLog.NoLateCommit | crates/jojobot-adapters/src/dolt_log.rs:122-165 | Once any call has passed the fence, even one whose own reply was then lost or failed, whether another batch is in the log never changes again unless that batch is appended again, and it is never pending. |
| EventLog.AppendingAgain | crates/jojobot-adapters/src/dolt_log.rs:173-226 | Appending a stored batch to a settled log writes nothing; the only definite answers are its own range and a store error, and it stays one row. |
| EventLog.DefiniteAnswersSettle | crates/jojobot-adapters/src/dolt_log.rs:173-274 | Any answer but an indeterminate one leaves no transaction that could still commit; a refusal or error adds nothing of its own. |
| EventLog.CallGrowth | crates/jojobot-adapters/src/dolt_log.rs:167-274 | One call grows the chain by the batch that was pending, by its own batch, or not at all, and the rows by exactly their companions. |
| EventLog.CallAdds | crates/jojobot-adapters/src/dolt_log.rs:167-274 | Every entry a call adds or leaves pending was pending before or is the call's own. |
| EventLog.TailOfWhole | crates/jojobot-adapters/src/dolt_log.rs:327-351 | The tail read after a batch boundary is the rest of the chain, whole and in order. |
| Server.PlayDrifts | crates/jojobot-adapters/src/dolt_log.rs:122-155 | Whatever the server does on its own (dooming, resolving, releasing connections), its table stays sound and the log only keeps or resolves its pending commit. |
| Server.SteadyStays | crates/jojobot-adapters/src/dolt_log.rs:122-165 | With the lock won and nothing in flight, none of the server's own moves changes a row. |
| Server.ReplacedSnapshotLeavesTheChain | crates/jojobot-adapters/src/dolt_log.rs:363-377 | Replacing the snapshot row leaves the chain of batches as it was. |
| Server.LookupFindsTheBatch | crates/jojobot-adapters/src/dolt_log.rs:180-200 | Looking a slot up finds exactly the batch stored under that identity. |
| Server.LookupIsStored | crates/jojobot-adapters/src/dolt_log.rs:180-200 | A slot query answers something if and only if the chain holds that identity. |
| Server.MaxLastIsTheEnd | crates/jojobot-adapters/src/dolt_log.rs:201-210 | The newest position queried past the snapshot row is the end of the chain. |
| Server.TailRowsAreTheTail | crates/jojobot-adapters/src/dolt_log.rs:327-351 | The rows a tail query selects are the chain's batches after the position, in order. |
| Server.ResolveKeepsSound | crates/jojobot-adapters/src/dolt_log.rs:122-155 | A dying connection's sent commit or snapshot resolves to the log with it or the log without it, and nothing else. |
| Network.Remote.Commit | crates/jojobot-adapters/src/dolt_log.rs:262-273 | A COMMIT that is acknowledged has landed; one that is not may land later, now, or never. |
| DoltLog.DoltLog.Take | crates/jojobot-adapters/src/dolt_log.rs:103-121 | A session is taken only with the lock won, so nothing of an earlier one can still land. |
| DoltLog.DoltLog.Open | crates/jojobot-adapters/src/dolt_log.rs:76-98 | Opening passes the fence: after it succeeds no earlier process's commit can land. |
| DoltLog.DoltLog.Fence | crates/jojobot-adapters/src/dolt_log.rs:122-155 | A fence that succeeds has settled the old session, whose connection is gone or doomed, and makes this one certain; one that fails leaves it uncertain, and only a fault makes it fail. |
| DoltLog.DoltLog.Ready | crates/jojobot-adapters/src/dolt_log.rs:156-165 | A certain session passes without a word to the server; an uncertain one only through the fence. |
| DoltLog.DoltLog.Admit | crates/jojobot-adapters/src/dolt_log.rs:177-210 | The admission reads refuse exactly on a wrong head, a different batch under the identity or a moved end, answer a batch stored before with its range, and write nothing; a wrong head is a conflict before the server is asked, and a store error follows only a fault. |
| DoltLog.DoltLog.WriteBatch | crates/jojobot-adapters/src/dolt_log.rs:211-274 | The transaction ends committed, rolled back, or uncertain with at most this batch pending, and with no fault it ends committed. |
| DoltLog.DoltLog.AppendOwned | crates/jojobot-adapters/src/dolt_log.rs:167-274 | An append is one step of the log: each answer tells what the log may hold, statements that cannot clash do not, and without a fault it answers the batch's range or a conflict. |
| DoltLog.DoltLog.ReadFrom | crates/jojobot-adapters/src/dolt_log.rs:327-351 | A read that answers has passed the fence and returns the first batches of the chain's tail; without a fault it answers. |
| DoltLog.DoltLog.StoreSnapshot | crates/jojobot-adapters/src/dolt_log.rs:363-377 | Storing a snapshot only passes the fence: the chain, the rows and every batch stay. |
| TeachingEvents.TwoRecordsHaveAClearBetween | crates/jojobot-adapters/src/teaching_log.rs:544-576 | Where every record is of a pair not held, two records of one pair have a clear of its run between them. |
| TeachingEvents.ApplyAllIsLocal | crates/jojobot-adapters/src/teaching_log.rs:143-152 | Events change only the pairs of the runs they name. |
| LedgerSpec.CertainAnswersAreTheLogs | crates/jojobot-adapters/src/teaching_log.rs:353-376 | A pair of a certain run is held exactly when the whole durable log folds to it, however the pending commit resolves. |
| LedgerSpec.CertainPairsStay | crates/jojobot-adapters/src/teaching_log.rs:378-399 | A catch-up that went only part of the way moved no pair of a certain run. |
| LedgerSpec.DriftKeeps | crates/jojobot-adapters/src/teaching_log.rs:353-376 | The server's own moves keep the held state a replay of the log, the rows in agreement, and what is beyond the head uncertain. |
| LedgerSpec.StatementsDoWhatEventsDo | crates/jojobot-adapters/src/teaching_log.rs:125-152 | The companion statements of a batch do to the rows what its events do to the held pairs. |
| LedgerSpec.StatementsNeverClash | crates/jojobot-adapters/src/teaching_log.rs:125-142 | No INSERT a batch carries meets a row that is there. |
| LedgerSpec.UnknownAppendKeeps | crates/jojobot-adapters/src/teaching_log.rs:425-471 | After an append of unknown outcome only that batch can be beyond the head, and all of its runs are uncertain. |
| LedgerSpec.TwoFirstsHaveAClearBetween | crates/jojobot-adapters/src/teaching_log.rs:544-559 | Two contacts answered as first for one pair have a clear of its run between them in the durable log. |
| LedgerSpec.RowsFollowAppend | crates/jojobot-adapters/src/teaching_log.rs:402-424 | A batch whose statements do what its events do keeps the rows equal to the fold of the log, whether or not it lands. |
| TeachingLog.LoggedTeachings.CatchUp | crates/jojobot-adapters/src/teaching_log.rs:353-376 | A catch-up that succeeds leaves the held state equal to the whole log with no run uncertain; one that fails leaves uncertain runs and the published pairs as they were. |
| TeachingLog.LoggedTeachings.Publish | crates/jojobot-adapters/src/teaching_log.rs:378-399 | The published set is exactly the held pairs of certain runs. |
| TeachingLog.LoggedTeachings.Recover | crates/jojobot-adapters/src/teaching_log.rs:473-480 | Recovery keeps the ledger valid whatever its attempts met, and leaves a run uncertain only after a fault in each of its attempts. |
| TeachingLog.LoggedTeachings.Send | crates/jojobot-adapters/src/teaching_log.rs:402-424 | Sending a sealed batch keeps the log this ledger's own, never clashes with a row, and says what each answer left in the log. |
| TeachingLog.LoggedTeachings.Commit | crates/jojobot-adapters/src/teaching_log.rs:402-471 | A commit that succeeds extends the log by exactly one batch of these events with their rows and applies them to the held state and the shadow; a store error leaves the log untouched; an unknown outcome leaves that batch sent, landed or neither and at most its runs uncertain; every outcome keeps the ledger valid. |
| TeachingLog.LoggedTeachings.Contact | crates/jojobot-adapters/src/teaching_log.rs:544-559 | False is answered only for a pair the log holds; true exactly when the pair's own record is the one batch the call added to a log that did not hold the pair. A refusal or a store error adds and sends nothing; an unknown outcome may have sent that record and makes at most the pair's run uncertain; every error but a refusal follows a fault. |
| TeachingLog.LoggedTeachings.FirstContact | crates/jojobot-adapters/src/teaching_log.rs:485-513 | Begun between calls: a pair published as known is answered false at once and leaves the log as it was; any false is a pair of the whole durable log, however its pending commit resolves; a refused contact adds and sends nothing, and any other only the pair's record. |
| TeachingLog.LoggedTeachings.FastPath | crates/jojobot-adapters/src/teaching_log.rs:485-507 | At any instant of another call: a pair answered without the lock is in the durable log if and only if the other call's batch has not landed or keeps the pair. |
| LedgerSpec.AReadAtAnyInstant | crates/jojobot-adapters/src/teaching_log.rs:161-167 | A pair published at a call's start is in the log a concurrent reader meets if and only if the call's batch has not landed, or records the pair again after every clear of its run. |
| LedgerSpec.OneEventKeepsUnlessItClears | crates/jojobot-adapters/src/teaching_log.rs:544-576 | A batch of one event, as a contact or a clear sends it, keeps a pair unless it clears the pair's run. |
| LedgerSpec.AnAppendIsMet | crates/jojobot-adapters/src/teaching_log.rs:402-424 | Whatever an append answers, the log it leaves is one that a concurrent reader may meet. |
| LedgerSpec.AForgetInFlightIsNotSeen | crates/jojobot-adapters/src/teaching_log.rs:446-448 | The counterexample: a forget's clear has landed and nothing has been published yet, so a published pair is in no durable log. |
| TeachingLog.LoggedTeachings.HasContact | crates/jojobot-adapters/src/teaching_log.rs:515-521 | A read errs exactly for an uncertain run; an answer given is the whole durable log's. |
| TeachingLog.LoggedTeachings.Taught | crates/jojobot-adapters/src/teaching_log.rs:529-541 | The listing errs exactly while a run is uncertain; given, it is the fold of the durable log. |
| TeachingLog.LoggedTeachings.Clear | crates/jojobot-adapters/src/teaching_log.rs:560-576 | A clear that succeeds leaves the durable log without the run's pairs and with every other pair, by one clear more where the run held a pair and by nothing where it did not; an error adds or sends nothing else. |
| TeachingLog.LoggedTeachings.Fill | crates/jojobot-adapters/src/teaching_log.rs:253-288 | Filling replays the log, imports the rows into an empty one, or reconciles a shadowed one, by one batch or none, and leaves the ledger caught up and valid. |
| TeachingLog.LoggedTeachings.Reconcile | crates/jojobot-adapters/src/teaching_log.rs:290-345 | Reconciling makes the held state the rows' pairs by one batch and changes no row; nothing is appended when they already agree. |
| TeachingLog.LoggedTeachings.Import | crates/jojobot-adapters/src/teaching_log.rs:258-275 | An empty log takes the rows as one batch, each mark once in run and domain order, and no row moves. |
| TeachingLog.LoggedTeachings.Serving | crates/jojobot-adapters/src/teaching_log.rs:35-75 | A boot over any server state this ledger left yields a valid, caught-up ledger that holds the rows' pairs when it is shadowed or the settled log was empty and the settled log otherwise; it adds at most the one batch that brings the log there, moves no row, fails only on a fault, and firsts answered before the restart stay answered once. |
| Reconcile.Differences | crates/jojobot-adapters/src/teaching_log.rs:290-345 | The events lead from the log's pairs to the rows' pairs, run by run and domain by domain in their order, name only runs on which the two disagree, carry the marks' own times, and are none exactly when the two agree. |
| Reconcile.RunDifferences | crates/jojobot-adapters/src/teaching_log.rs:311-340 | One run's events make that run right and touch no other. |
| Reconcile.ImportLeads | crates/jojobot-adapters/src/teaching_log.rs:258-280 | Importing distinct marks into an empty log yields exactly their pairs and records none twice. |
| Reconcile.TheImportIsOrdered | crates/jojobot-adapters/src/teaching_log.rs:258-275 | The import records the same marks, sorted by run and domain. |
| Reconcile.ReconcilingTwiceIsOnce | crates/jojobot-adapters/src/teaching_log.rs:290-345 | Events that lead to the rows' pairs leave those pairs as they are. |
| Postings.WithoutKey | crates/jojobot-adapters/src/search.rs:1085-1110 | Deleting by a key removes the postings of that key and no others. |
| Postings.SamePostingsAreTheSameBag | crates/jojobot-adapters/src/search.rs:1361-1445 | Two indexes equal under every key hold the same postings, counted. |
| Records.NothingChangedIsTheSame | crates/jojobot-adapters/src/search.rs:330-348 | There is nothing to rewrite or evict exactly when both mirrors hold the same records. |
| Records.DifferencesRebuild | crates/jojobot-adapters/src/search.rs:330-348 | Deleting the evicted and changed keys and writing the changed records leaves under each key what a rebuild of the new records writes. |
| Records.WhatADocumentIsWrittenAs | crates/jojobot-adapters/src/search.rs:1515-1690 | A document is written as its entity's labels unless archived, each fact in order, and its prose unless blank, all under its own id. |
| Records.OneReplaced | crates/jojobot-adapters/src/search.rs:1447-1466 | Replacing one record under its key leaves what a rebuild of the new mirror writes. |
| Records.OneEvicted | crates/jojobot-adapters/src/search.rs:1485-1508 | Evicting one key leaves what a rebuild of the mirror without it writes. |
| Records.OverlappingIngests | crates/jojobot-adapters/src/search.rs:885-960 | Two memory or mail ingests that compared with one mirror leave under a key what the later one says if and only if the later one wrote that key or the earlier one changed nothing there. |
| Records.AnOlderScanLeavesTheNewer | crates/jojobot-adapters/src/search.rs:885-960 | The failing input: a scan that equals the mirror both ingests compared with writes nothing, and the message keeps the envelope the newer scan wrote. |
| Records.DamageLasts | crates/jojobot-adapters/src/search.rs:885-960 | From any index and whichever scan was left as the mirror, ingests that follow one another are right under a key if and only if the first index was, or one of them wrote or dropped that key. |
| Projection.FullTextIndex.CommitOrRollback | crates/jojobot-adapters/src/search.rs:1069-1083 | A commit lands all that is staged; a failed one lands nothing; nothing stays staged. |
| Projection.FullTextIndex.ReloadReader | crates/jojobot-adapters/src/search.rs:1036-1068 | A reload makes every landed commit visible and settles the debt; a failed one leaves a debt. |
| Projection.FullTextIndex.Rewrite | crates/jojobot-adapters/src/search.rs:1021-1034 | Either all deletes and writes land or none does, with faults at any document or at the commit. |
| Projection.FullTextIndex.IngestChanges | crates/jojobot-adapters/src/search.rs:1361-1445 | The memory half becomes a rebuild of the scan; a failed write changes neither postings, mirror, view nor marks; the reading clears exactly the marks and the failure stamped by its beginning; an answer of zero means nothing differed, Ok means the reader sees it, and an error follows a fault. |
| Projection.FullTextIndex.IngestMailChanges | crates/jojobot-adapters/src/search.rs:885-960 | The same for the mail half and its own failure stamp. |
| Projection.FullTextIndex.IngestDoc | crates/jojobot-adapters/src/search.rs:1447-1466 | One document replaces everything under its id in index and mirror, or nothing changes. |
| Projection.FullTextIndex.IngestMessage | crates/jojobot-adapters/src/search.rs:969-989 | One message replaces what was under its id in index and mirror, or nothing changes. |
| Projection.FullTextIndex.Forget | crates/jojobot-adapters/src/search.rs:1485-1508 | Forgetting an entity drops the first document that declares it from index and mirror, or nothing changes; an unknown entity changes nothing. |
| Projection.FullTextIndex.IngestSessionsChanges | crates/jojobot-adapters/src/search.rs:1170-1307 | The session mirror becomes the runs read, and the index what committing exactly the staged evictions, additions, replacements and removals leaves, so that each entry stands once as it was last written; a failed write changes neither postings nor mirror, and its failure stamp is cleared even then. |
| Projection.FullTextIndex.StageEntries | crates/jojobot-adapters/src/search.rs:1212-1227 | Stages for each entry of a run an addition, a replacement when it or the owner changed, or nothing; what that does is Journal.EntriesLand. |
| Projection.FullTextIndex.StageRemoved | crates/jojobot-adapters/src/search.rs:1228-1232 | Stages a deletion for each entry the run no longer holds and for no other; what that does is Journal.RemovedLeave. |
| Projection.FullTextIndex.Behind | crates/jojobot-adapters/src/search.rs:772-784 | A behind mark is stamped past every earlier stamp. |
| Projection.FullTextIndex.RefreshFailed | crates/jojobot-adapters/src/search.rs:735-751 | A failed refresh is stamped past every earlier stamp. |
| Projection.OtherHalvesStay | crates/jojobot-adapters/src/search.rs:1361-1507 | A rewrite leaves the postings of every key it does not name. |
| Projection.TheIndexIsARebuild | crates/jojobot-adapters/src/search.rs:1361-1507 | An index that projects its mirrors is posting for posting a full rebuild of documents, messages and entries but for the focus of entries, and it is one outright if and only if each entry was last written under its run's present focus. |
| Projection.AnIngestClearsAsInEveryInterleaving | crates/jojobot-adapters/src/search.rs:1410-1437 | The marks and the failure an ingest clears are those that its two steps clear in the interleavings of Marks. |
| Projection.NothingChangedIsTheSameRuns | crates/jojobot-adapters/src/search.rs:1170-1194 | There is no run to rewrite or evict exactly when both mirrors hold the same runs. |
| Journal.EntryChangesRewriteAll | crates/jojobot-adapters/src/search.rs:1170-1307 | What an ingest stages leaves the same postings under every entry's key as deleting and rewriting every run, if and only if every run that keeps an entry and its owner keeps its focus; for entry identities unique across runs and staying in their run. |
| Journal.AFocusStaysBehind | crates/jojobot-adapters/src/search/distinct.rs:172-202 | The failing input: a run whose focus moved over an unchanged entry is rewritten and its entry keeps the old focus in its text and payload. |
| Journal.RewriteUnder | crates/jojobot-adapters/src/search/distinct.rs:172-202 | Rewriting every run leaves under an entry's key that entry's own posting, once, or nothing. |
| Journal.OneIngest | crates/jojobot-adapters/src/search.rs:1188-1303 | Over any index, whatever it mirrors, an ingest makes of the postings under an entry's key what its own reading says if it evicts the run, removes or replaces the entry, else adds the entry or leaves them. |
| Journal.EntriesLand | crates/jojobot-adapters/src/search.rs:1277-1292 | Staging a run's entries puts, adds or keeps each under its own key and touches no other key. |
| Journal.RemovedLeave | crates/jojobot-adapters/src/search.rs:1293-1299 | Staging the removals deletes the entries the run no longer holds and no other. |
| Journal.IngestTells | crates/jojobot-adapters/src/search.rs:1170-1307 | Over any run of ingests each entry stands in the index exactly once, as its run last had it written. |
| Journal.ToldIsARewrite | crates/jojobot-adapters/src/search.rs:1170-1307 | Such an index equals a rewrite of the mirrored runs if and only if each entry was last written under its run's present focus. |
| Journal.OtherKeysStay | crates/jojobot-adapters/src/search.rs:1170-1307 | A session ingest leaves the postings of documents and messages alone. |
| Journal.RunsLand | crates/jojobot-adapters/src/search.rs:1203-1235 | Under an entry's key only the update of the entry's own run shows; the runs of an ingest do not disturb each other. |
| Journal.EvictedLeave | crates/jojobot-adapters/src/search.rs:1266-1275 | Evicting runs by their own term removes those runs' entries and no other run's. |
| Overlaps.Overlap | crates/jojobot-adapters/src/search.rs:1170-1307 | Two session ingests that compared with one mirror leave under an entry's key what the later reading says if and only if the later one evicts the run, removes or replaces the entry, or the earlier one left there what the later one takes to be there; where no focus moves, if and only if it overwrites or the earlier one changed nothing there. |
| Overlaps.AnEntryNewToBothLandsTwice | crates/jojobot-adapters/src/search/decorators.rs:739-773 | A failing input: two overlapping readings that both find an entry new leave two postings under its key. |
| Overlaps.AnEntryOneReadingAddedStays | crates/jojobot-adapters/src/search/decorators.rs:739-773 | A failing input: a later ingest of an older reading that equals the mirror stages nothing, and the entry it never held stays. |
| Overlaps.DamageLasts | crates/jojobot-adapters/src/search.rs:1170-1307 | From any index and whichever reading was left as the mirror, ingests that follow one another are right about an entry if and only if the first index was, or one of them evicted its run, removed it or replaced it. |
| ReloadDebt.ReloadDebt.Settle | crates/jojobot-adapters/src/search.rs:437-451 | Settling alone: a failure raises the debt to name the commits it covered, a success drops it when it covers them. |
| ReloadDebt.SettlingIsTheLastSteps | crates/jojobot-adapters/src/search.rs:437-451 | Alone, the last steps of a thread in the interleavings leave the debt that settling leaves. |
| ReloadDebt.UnseenCommitsAreCovered | crates/jojobot-adapters/src/search.rs:402-451 | In every interleaving whose publications do not lower what the reader sees, a commit the reader cannot see is covered by an unfinished reload or by a debt naming at least that commit. |
| ReloadDebt.NoDebtSeesEverything | crates/jojobot-adapters/src/search.rs:430-451 | In such an interleaving, zero debt with nothing in flight means the reader sees every commit. |
| ReloadDebt.OkLeavesItsCommitVisible | crates/jojobot-adapters/src/search.rs:1036-1068 | In such an interleaving, an ingest that answered Ok leaves its own commit visible from then on. |
| ReloadDebt.PublishingInReadOrderGoesForward | crates/jojobot-adapters/src/search.rs:1036-1068 | Reloads that publish in the order they read never lower what the reader sees. |
| ReloadDebt.TheReaderKeepsItsWord | crates/jojobot-adapters/src/search.rs:1036-1068 | In every interleaving, every commit that a call vouched for is visible from then on if and only if no reload publishes a view opened before a commit vouched for by then. |
| ReloadDebt.APublicationKeepsThePromises | crates/jojobot-adapters/src/search.rs:1036-1068 | One publication keeps every promise if and only if what it hides was promised to nobody and is still covered; one that goes forward does. |
| ReloadDebt.PublishingOutOfOrderHidesACommit | crates/jojobot-adapters/src/search.rs:953-956 | The counterexample: two overlapping reloads publish out of order, and a commit that was answered Ok is hidden with nothing owed. |
| Marks.RetainClearsOnlyWhatItSaw | crates/jojobot-adapters/src/search.rs:1410-1437 | A behind mark made after a reading began survives its ingest; a mark it clears speaks only for writes its snapshot contains. |
| Marks.ExchangeClearsOnlyWhatItSaw | crates/jojobot-adapters/src/search.rs:940-952 | A failure stamped after a reading began survives its ingest; one it clears belongs to writes its snapshot contains. |
| Marks.UnseenWritesStayMarked | crates/jojobot-adapters/src/search.rs:350-371 | In every run, a marked write no ingest has shown to the index keeps its entity marked. |
| Marks.HiddenWritesAreMarked | crates/jojobot-adapters/src/search.rs:1410-1437 | In every run, a marked write the index does not hold now has its entity marked, in all states, if and only if no ingest lands a snapshot from before a marked write the index showed, but of entities marked after its reading began. |
| Marks.AnOlderReadingHidesAWrite | crates/jojobot-adapters/src/search.rs:1410-1437 | The failing input: an older reading whose ingest lands after a newer one puts the old content back with no mark and no failure on record. |
| Writer.AcceptedJobsRunInOrder | crates/jojobot-adapters/src/writer.rs:163-223 | A job that began found every earlier one over; a queue run dry left none behind. |
| Writer.AJobRunsOnce | crates/jojobot-adapters/src/writer.rs:178-193 | A job never begins again, and once over it stays as it ended. |
| Writer.ChangesFallInTheirOwnJob | crates/jojobot-adapters/src/writer.rs:162-175 | What a job or a call nested in it changes falls between that job's beginning and end and in no other job. |
| Writer.PanicsFailTheirOwnCaller | crates/jojobot-adapters/src/writer.rs:184-192 | A caller still waiting is answered by its own job, and crashes exactly when that job panicked. |
| Writer.DrainWaits | crates/jojobot-adapters/src/writer.rs:220-223 | A drain that returned began after every earlier job was over. |
| Writer.ToldBeforeTheEndUnlessPanicked | crates/jojobot-adapters/src/writer.rs:199-214 | A change is delivered before its job answers, and so before the next job, if and only if the job did not panic. |
| Writer.APanicLeavesItsChangeForTheNextJob | crates/jojobot-adapters/src/writer/publish.rs:73-84 | The counterexample: a change recorded before a panic is still undelivered when the next job begins. |
| Writer.EveryRunIsOrderly | crates/jojobot-adapters/src/writer.rs:163-223 | The queue, the running job, the callers' answers and the deliveries fit each other in every reachable state. |
| DeferredCounts.EveryRunIsExplained | crates/jojobot-adapters/src/deferred_counts.rs:43-90 | In every interleaving the totals are the starting ones plus exactly what the store took of the items decided so far. |
| DeferredCounts.ASettledCallSeesEveryCountQueuedBefore | crates/jojobot-adapters/src/deferred_counts.rs:81-90 | A settling read sees the effect of every count queued before it, and what it read stays explained in every later state. |
| DeferredCounts.NothingQueuedBeforeAResetLandsAfter | crates/jojobot-adapters/src/deferred_counts.rs:105-108 | No count queued before a reset was called lands after it, and the run's total from then on is made of later items alone. |
| DeferredCounts.ADryLaneHasAddedExactlyWhatWasTaken | crates/jojobot-adapters/src/deferred_counts.rs:43-79 | When the lane has run dry every item the store took is in the totals once, whichever applications panicked, and nobody waits. |
| DeferredCounts.ACountIsReadBack | crates/jojobot-adapters/src/deferred_counts.rs:43-90 | On a store that held nothing, a read asked after one count answers exactly that count once. |
| DeferredCounts.TheLaneNeverStops | crates/jojobot-adapters/src/deferred_counts.rs:50-63 | While a call waits the worker has a next step, a panic included, and the item before the token is one fewer. |
| DeferredCounts.QueuedBeforeIsMarked | crates/jojobot-adapters/src/deferred_counts.rs:81-90 | A call's mark counts everything queued at any moment before it was made. |
| Declarations.TheLastWriteDecides | crates/jojobot-domain/src/memory.rs:5010-5076 | A key reads as a value exactly when its last write is one, unless the key only describes a record. |
| Declarations.WhichFoldWins | crates/jojobot-domain/src/memory/types.rs:204-231 | A key sums exactly when some type sums it and it is not one of the six describing keys that a shipped type describes, and keeps its newest value exactly when no type folds it otherwise. |
| Declarations.ACounterReadsItsRun | crates/jojobot-domain/src/memory.rs:5030-5075 | A counter reads as the sum of its run since the last take-off, or as the run's first value when it holds no number. |
| Declarations.AKeyReadsTheSame | crates/jojobot-adapters/src/fold/image.rs:894-933 | A declaration that passed the test leaves a key's reading as it was if and only if no blank stands under it where its list moves. |
| Declarations.AThingReadsTheSame | crates/jojobot-adapters/src/fold/image.rs:894-933 | A thing reads the same under a declaration the test let through if and only if no blank stands where a list moves. |
| Declarations.TheTestIsRightExactlyWhenNoListMoves | crates/jojobot-adapters/src/fold/image.rs:902-933 | Over every store content, the test may be trusted if and only if the declaration moves no key between list and no list, describing keys apart. |
| Declarations.APlainListOverABlankIsMissed | crates/jojobot-domain/src/memory/types.rs:174-196 | The counterexample: a plain list declared over an emptied key passes the test, and the store then serves a key it did not serve. |
| Declarations.AnUnnamedKeyKeepsItsMeaning | crates/jojobot-domain/src/memory/types.rs:198-230 | A key neither the replaced nor the incoming type names keeps its fold, its reference and its list. |
| FoldedMemory.TakeInDoc | crates/jojobot-adapters/src/fold/image.rs:580-594 | Taking one document in keeps the lookup of derived records equal to a build over all documents. |
| FoldedMemory.TakeInListing | crates/jojobot-adapters/src/fold/image.rs:596-613 | Exactly the documents the listing names stay, and the lookup stays what a build makes. |
| FoldedMemory.ForgetBuiltOn | crates/jojobot-adapters/src/fold/image.rs:664-678 | Exactly the holder's records with one of its old sources are taken off. |
| FoldedMemory.RememberBuiltOn | crates/jojobot-adapters/src/fold/image.rs:651-662 | Exactly the holder's records with a source are put on. |
| FoldedMemory.Folded.Fill | crates/jojobot-adapters/src/fold.rs:189-210 | A load gives a full image; a failed one gives none, or keeps the published one while the rail is uncertain. |
| FoldedMemory.Folded.Rebuild | crates/jojobot-adapters/src/fold.rs:167-185 | A rebuild is refused on an uncertain rail and otherwise asks for the image for good. |
| FoldedMemory.Folded.Refresh | crates/jojobot-adapters/src/fold.rs:264-324 | Re-reading what a write touched turns a full image of the store before into a full image after; a lost image is refilled; a failed read leaves none. |
| FoldedMemory.Folded.Recover | crates/jojobot-adapters/src/writer/recovery.rs:40-88 | A recovery settles the doubtful write and loads again; failing, it keeps the rail uncertain and the image as last published. |
| FoldedMemory.Folded.Attempt | crates/jojobot-adapters/src/writer/recovery.rs:92-127 | The store, the doubtful write, the rail and the answer after a write are a function of those before and of what went wrong; a write that does not land leaves the image right. |
| FoldedMemory.WhatAnAnswerMeans | crates/jojobot-adapters/src/writer/recovery.rs:92-127 | Done and Refused are the whole truth about the store with no doubt left; after any other answer the store holds what the write found, or that and this write, and the rail says which may be. |
| FoldedMemory.Folded.Write | crates/jojobot-adapters/src/fold.rs:328-354 | After a write the image is gone or a full load if and only if it was asked for, is gone, or the write changed nothing it holds; a write after a loss refills it. |
| FoldedMemory.Folded.Declare | crates/jojobot-adapters/src/fold.rs:1310-1357 | A declaration taken in without a read leaves the image right if and only if no blank stands under a key that moves between list and no list; one that needs a read leaves an image never asked for as it was, which is right if and only if it is gone or the store loads as before. |
| FoldedMemory.Folded.SayKind | crates/jojobot-adapters/src/fold.rs:1379-1402 | A kind that changed the store reads the image again; one that did not leaves it right. |
| FoldedMemory.Folded.ReadDoc | crates/jojobot-adapters/src/fold.rs:356-370 | A read answers what the store or the last publication answers, and errs exactly on an uncertain rail without an image or an unreachable store. |
| FoldedMemory.Folded.Signal | crates/jojobot-adapters/src/fold.rs:1169-1185 | The change signal of a held image is its count of changes, and the history holds this image under it. |
| FoldedMemory.SignalTwice | crates/jojobot-adapters/src/fold.rs:1169-1185 | Two equal change signals with any run between them: no other image was held in that time. |
| FoldedMemory.Serve | crates/jojobot-adapters/src/fold.rs:167-354 | Over every run of writes, declarations, failed reads, lost answers and failed fences, an image asked for first is gone or a full load, as long as no declaration that lands moves a key between list and no list over a blank that stands in the store it meets. |
| FoldedMemory.BlankedKeysThatStay | crates/jojobot-adapters/src/fold/image.rs:894-933 | A declaration under which no blanked key moves between list and no list moves no standing blank. |
| FoldedMemory.AnEarlyRecoveryGoesStale | crates/jojobot-adapters/src/fold.rs:264-275 | The counterexample: a doubtful write before the first rebuild loads an image that the next write passes by. |
| Dev.DependentsLeftOut | crates/jojobot-bar/src/dev.rs:184-198 | Exactly the packages that reach a selected one by one or more dependencies and are not selected; it ends. |
| Dev.WithDependents | crates/jojobot-bar/src/dev.rs:200-207 | Exactly the selected packages and those that reach one. |
| Dev.Plan | crates/jojobot-bar/src/dev.rs:238-282 | A listed test file of a selected package is skipped because it needs a feature, or else because runs of it are recorded and slow, and is run otherwise; libraries and binaries are run where there are any; jobs stand in listed order, and the count is of the files run without a recorded run. |
| Dev.JobsStandInOrder | crates/jojobot-bar/src/dev.rs:253-281 | Jobs and skips stand in the order of the packages. |
| Dev.TheLibraryComesFirst | crates/jojobot-bar/src/dev.rs:258-281 | In one package the library job comes first, then the binaries, then the tests. |
| Dev.EveryFileIsRunOrSkipped | crates/jojobot-bar/src/dev.rs:238-282 | As often as a test file of a selected package is listed it is run, skipped as slow, or skipped for its feature, in exactly one place each. |
| Sorting.AnyStableSortIsThreeTiers | crates/jojobot-bar/src/dev.rs:310-318 | A permutation in key order that keeps equal keys as listed is the three tiers one after another, and only that is one. |
| Sorting.AnyStableSortIsTheInsertionSort | crates/jojobot-bar/src/dev.rs:314-317 | There is one stable sort by a key: any permutation in key order that keeps the listed order of equal keys is it. |
| Dev.TouchedFirstKeepsTheOrder | crates/jojobot-bar/src/dev.rs:292-318 | Whatever stable sort is used: the touched packages' jobs, then their dependents', then the rest, each in listed order, and the same jobs as given. |
| Dev.WhoseAJobIs | crates/jojobot-bar/src/dev.rs:298-313 | A job is in the first tier exactly when the package it names, or the first that lists its test file, is touched, and in the second when that package is only selected. |
| Dev.NobodysJobIsLast | crates/jojobot-bar/src/dev.rs:298-313 | A job that names no package and no listed file is in the last tier. |
| Dev.APlannedJobNamesItsPackage | crates/jojobot-bar/src/dev.rs:244-281 | A planned job's arguments name its own package, and two planned jobs have different arguments. |
| Text.LinesOfWholeLines | crates/jojobot-bar/src/deadline.rs:82-89 | The lines of two texts joined at a line's end are the lines of each. |
| Text.OneLineOff | crates/jojobot-bar/src/deadline.rs:82-89 | A newline ends a line and takes one return before it along; text no newline ends is a line as it is. |
| Text.TrimTakesTheSpace | crates/jojobot-bar/src/deadline.rs:82-89 | Trimming takes the white space at both ends and nothing more. |
| Deadline.Watch.Starts | crates/jojobot-bar/src/deadline.rs:74-91 | However the file grew between calls, the lines given so far are exactly the start lines of all its complete lines. |
| Deadline.ReadingOn | crates/jojobot-bar/src/deadline.rs:74-91 | Only the unfinished line and the new bytes have to be looked at to read on. |
| Deadline.WhatAStartIs | crates/jojobot-bar/src/deadline.rs:82-89 | A start line is a complete line that, trimmed, begins with one of the two words that announce an execution. |
| Deadline.WhatAStartLineNames | crates/jojobot-bar/src/deadline.rs:93-101 | A line that ends in a parenthesis names the file in it, and a child fits it exactly when it runs that file. |
| Deadline.WhatAPlainLineNames | crates/jojobot-bar/src/deadline.rs:152-175 | A line no parenthesis ends fits only a documentation child, and only if it announces examples. |
| Deadline.Started | crates/jojobot-bar/src/deadline.rs:152-175 | A line is a start if and only if an uncredited child runs what it names; without a process table it is believed. |
| Deadline.Admit | crates/jojobot-bar/src/deadline.rs:225-238 | The newest 64 claims are kept, and the first unmatched line is held apart from the queue. |
| Deadline.Judge | crates/jojobot-bar/src/deadline.rs:239-248 | Each claim sets the clock through a fresh child, or no fresh child fits it and it waits on or has waited out its window; a child is credited once. |
| Deadline.Arm | crates/jojobot-bar/src/deadline.rs:249-268 | Only a clock never set is armed, from the first start line once its window has passed. |
| Deadline.RunJob | crates/jojobot-bar/src/deadline.rs:198-295 | Whatever is printed, each child sets the clock at most once and one setting at most is anything else; a run is killed at the first turn that finds its clock run out, named by the line of the last setting, and survives none. |
| Deadline.PrintingMovesNoDeadline | crates/jojobot-bar/src/deadline.rs:137-151 | While no new child starts, no printed line moves the clock, and a run still going is within the limit of its last setting. |
| Bundle.AnExecutableReadsBack | crates/jojobot-bar/src/bundle.rs:46-55 | A printed line reads back as what was printed if and only if its path holds no space before a parenthesis. |
| Bundle.TheListingReadsBack | crates/jojobot-bar/src/bundle.rs:157-163 | For texts without newlines the reader gives back the lane's pairs in order if and only if no path of the lane holds a space before a parenthesis. |
| Bundle.PairsAreOfTheLane | crates/jojobot-bar/src/bundle.rs:157-163 | The lane's pairs are exactly those of its own executables, in the order they are listed. |

## Left out

Assumed, or outside the model:

- Serialisation of batches and snapshots: members decode, digests do not collide, and an identity is its content; the checksum and length checks are not modelled.
- The snapshot's contents and its loading: a snapshot row holds only the position it covers.
- Two processes beside each other and a crash in the middle of a call: a restart is a new ledger over whatever the server holds.
- EventLog.AppendingAgain: does not say that a re-append must answer, because its reply may be lost again.
- The domain's own refusal of a contact is a parameter, and `at` and `taught_at` are opaque moments; a batch's own time is not modelled.
- Reconcile.Differences: leaves out the time the source gives the batch as a whole.
- A member that fails to decode midway through a batch, and a task that panics inside an append.
- The test-only fault switches: faults are nondeterministic choices at the same places, which a ghost field counts.
- Full-text ranking, queries, snippets, the index schema and `history_text`; a posting is its key and its text.
- Projection.FullTextIndex.IngestSessionsChanges: requires entry identities unique across runs and staying in their run, as the store gives them; scans and boards name each record once.
- A rollback of staged operations is taken to succeed, and the loaded and touched flags are not modelled.
- ReloadDebt.OkLeavesItsCommitVisible: requires that no publication lowers what the reader sees; whether the index library may publish two overlapping reloads out of order is not part of this model. `ReloadDebt.TheReaderKeepsItsWord` needs no such thing.
- Projection.FullTextIndex.IngestChanges: is one step, as are the other ingests; two that overlap are modelled by the operations they stage, in `Records` and `Overlaps`, for two ingests of one half that compared with one mirror.
- Marks.UnseenWritesStayMarked: speaks of writes never shown to the index; of one shown and then put back by an older reading only what `Marks.HiddenWritesAreMarked` says holds. A stamp and its store are one step.
- The writer's native connection: a job's closing of an ambiguous connection is part of the job.
- Subscribers of the publication: delivery is one step, and a subscriber's own panic is not modelled.
- DeferredCounts.EveryRunIsExplained: takes a store's error as definite, so an application that ended with one cannot land later; a refused reset or read is one refusal.
- FoldedMemory.Folded.Refresh: holds what each write may touch to its stated footprint (one thing, or one thing's claims); the lists of who points at what, the numbered handles and the values kept by key are not part of the image here.
- Renames and merges, and the patches they make to the image; a patch that fails reads the image again whole.
- Fractional totals of counters, ages, backing and claim histories of a document.
- Dev.Plan: takes a stable sort and the history's slowness test as given; the classification of changed paths, the clippy and skipped lines and the reading of cargo's metadata are not modelled.
- Deadline.RunJob: takes each look at the children, the resolved paths and the file as given; output is ASCII and only grows.
- Deadline.Started: takes the resolution of a path as a table.
- The manifest's JSON, the package directory of a binary and the binaries of one job.
- Argument handling, git and cargo plumbing, process groups and signals.
