# Living Atlas core, verified

A Dafny model of the parts of Living Atlas whose promises are hard to see by reading them:
the durable, bitemporal, append-only assertion log; the identity registry and its alias
ledger, kept on the same kind of segment files; world-time matching; the compiler that
publishes one authored shape for two wire positions and bundles each document; and the
canonical JSON every digest is taken over.

`dafny verify dfyconfig.toml` checks the whole project. Each file is one module.

## What is modelled, and how

**The assertion log, as values.** `LogRecords`, `Store`, `Recovery` and `LogWorld` give the
log as a state machine. A `World` is the segments on disk, the live store beside them, and
two histories that no operation reads: ids ever minted and commits ever made durable. A step
is a commit, a feed page, a floor advance or a compaction that returns, or one that dies after
any number of whole records and any number of unlinked files, followed by a repairing reopen.
Three things come from outside and are parameters of a step: the clock, minted ids, and
whether the writer's size rule rolls to a new segment. `LogInvariant` states what every step
keeps and `CommitSteps`, `Unlinking`, `CompactionSteps` and `LogRuns` prove it.

**Its theorems.** `CrashRecovery` (every byte cut), `CompactionSteps` and `ExactlyOnce`
(compaction and reads, exactly-once), `Reopening`, `CompactedReopening` and `SyncedRuns`
(reopening, whole and interrupted compaction), `LostStamps` and `LostNotes` (what a stamp or a
compaction record in a reclaimed segment costs), `RepeatableReads` (as-of answers), `Feed`
(the change feed in one process), `FeedReopening` (across crashes and reopens) and `SilentGap`
(a run that breaks it).

**What the answers mean.** The operations are functions with branches of their own, so a
second group of modules says what each leaves or answers without going through those
branches. `QueryMeaning` says which assertions are hits, and of what every count is a count.
`CommitMeaning` says what a commit stores, live, in its group and after a reload, whom it
supersedes, and how it decides. `FeedMeaning` says what a page holds and when it is flagged.
`Reclaiming` says that evidence of damage outlives every run, and which segments a compaction
unlinks; `CompactionAccount` checks a compaction's record and notes against what it did.
`ScanVerdicts` says what a scan reports or refuses, byte by byte. `RegistryMeaning` says what a
merge, a split, a mechanical row, a registration and a rename leave every id resolving to.
`IdentityMarkers` says what a closing marker notices and what a fold keeps. `IntervalEdges`
pins dates, widening and matching to a calendar that only counts. `ContractMeaning` gives JSON
Schema a meaning and shows that rendering keeps it; `BundleMeaning` shows that bundling does.
`JsonReading` is a reader that reads every canonical text back.

**The same log, as it runs.** `LiveLog` is `AssertionLog` over heap cells that are stamped in
place; `LogIndexing` is the read index and the wrapper that shares those cells;
`SegmentWriting` is the segment writer down to short writes; `SegmentScan` is the recovery
scan with its loops; `CompactionPlan` is the compactor's two passes, and `LiveCompaction` runs
them against the live log, its index and the disk. Each method is proved equal to the
value-level operation, so the theorems above are about the running code.

**Bytes.** A segment file is newline-delimited records. Serialising and parsing one record is
a pair of functions assumed only to be inverse, on lines that are never empty and hold no
newline; everything else about bytes is proved. `LineFormat`, `SegmentScan`, `SegmentWriting`
and `GroupCuts` are generic in the record type and serve both logs.

**Identity.** `AliasLedger` is the hash chain, `Redirects` the functional redirect graph and
the walk over it, `IdentityRegistry` and `RegistryRuns` the registry operations and the
invariant of their runs, `ReimportMatching` the matching of source observations,
`LiveRegistry` the class with its inverted trait index, `IdentityLog` its durable log, and
`IdentityDamage` what happens when a line of it goes missing.

**The rest.** `WorldTime` is partial dates over `Date.UTC` (section 21.4.3.4 of ECMA-262).
`ContractSchemas`, `ContractShapes` and `ContractBundle` are the contract compiler, with
bundling as in section 9.3.1 of JSON Schema Core 2020-12, and keywords read as in section 6 of
JSON Schema Validation 2020-12 and section 10 of the Core. `CanonicalJson` is the key-ordered
stringifier, quoting strings as in section 7 of RFC 8259.

Lemmas carry `{:induction false}` so that every induction is written out.

## Where a stronger claim is false

- A compaction carries receipts and marks forward but not stamps. Reloading after it believes
  the same assertions exactly when no stamp is unlinked while the body it stamps stays
  (`ReopenAfterCompaction`); otherwise every such assertion is believed again
  (`LostStampRevives`), and six ordinary operations reach it (`SupersededAssertionComesBack`).
- It does not carry the notes of earlier compactions either: the reload remembers the same
  reclaimed ids exactly when a surviving record names each (`ReopenAfterCompaction`);
  otherwise a reclaimed id is unheard of after a reopen (`LostNoteIsForgotten`), and seven
  ordinary operations reach it (`ReclaimedAssertionIsForgotten`). Both rules together are
  exactly when the reload is the live store (`ReopenAfterCompaction`, `CompactInSync`).
- The retention floor is recomputed from the notes on disk, so after a reopen the feed is free
  of silent gaps exactly when that floor still covers what is missing
  (`ReloadHasNoSilentGapIff`). A segment that holds no assertion passes every compaction rule,
  and when it held the only record of an earlier compaction the reopened feed skips a change
  without a flag (`ReopenedFeedSkipsAChange`).
- Repeating an observation finds its entity only until that entity is observed as something
  else (`ReanchoredAway`); until then it always does (`RepeatFindsTheSame`).
- The index is rebuilt from copies after a compaction, so the next superseding commit leaves it
  behind (`CompactThenSupersede`).
- A page raises the watermark past every issued seq exactly when its cursor was already past
  them (`WatermarkStaysWithin`).
- The end of an interval is the lower bound of its `to`, so an approximate `to` narrows the
  interval, although the comment above `intervalContains` says that an approximate endpoint
  widens. The code is followed. The one exception is an approximate `to` of "0100", whose
  widening begins in 1999 (`ApproximateEndOnlyNarrows`, `ApproximateEndGains`).
- After a reopen a reclaimed assertion's note keeps its seq and instant, but names the first
  segment that its compaction reclaimed, where the live note names the segment that held the
  assertion (`NoteNamesFirstAfterReopen`).
- A sealed segment cut in the middle of a line or of a group is refused; one cut where a group
  ends reads as the shorter file it then is, and nothing reports the loss (`SealedCut`).
- Months tile a year except 0099, because `Date.UTC` moves two-digit years into the twentieth
  century (`MonthsTileTheYear`), and a probe of 0099 is the one year that misses what one of
  its months matches (`YearMatchesIffSomeMonth`, `Year99Misses`). For the same reason an interval
  that begins with 0099 is the only one that does not match its own first date
  (`BeginsWithItself`).
- Removing an observation record from a closed identity group is not noticed; removing any
  other member is (`RemovalIsNoticed`, `RemovedLineRefusesLoad`). A marker counts its members
  rather than matching them, so a record written twice can stand in for one that is gone
  (`TwiceHidesMissing`); where nothing is written twice, nothing it names is missing
  (`NothingIsMissing`).
- `scalar()` looks one level deep, so a rendering is strict exactly when its scalars are
  (`RenderFixesStrictness`, `ScalarGuardIsShallow`).
- A name with a `#` in it is bundled whole and checked only up to the `#`. A bundled document
  passes its own check exactly when every target it names is found again under the cut name
  (`SelfContainedIffCutsFound`); one definition named `a#b` is enough to fail it
  (`HashedNameFailsTheCheck`).
- An undefined array item is written as null (`UndefinedItemReadsAsNull`).

## Model

| member | source | states |
|---|---|---|
| `LineFormat.CutRecords` | packages/atlas-core/src/segment-reader.ts:131-169 | any byte prefix of a written file splits into exactly the records whose lines are whole, and a tail of the remaining bytes |
| `SegmentScan.ScanOneFile` | packages/atlas-core/src/segment-reader.ts:171-247 | reading and folding one file, with its offsets and open group, computes the declarative scan of that file |
| `SegmentScan.ScanSealedFiles` | packages/atlas-core/src/segment-reader.ts:249-300 | the loop over sealed segments computes their fold and refuses a torn or unclosed one |
| `SegmentScan.ScanDirectory` | packages/atlas-core/src/segment-reader.ts:249-488 | the scan with or without repair is the fold of all files, and repair changes only the final one |
| `SegmentScan.CrashCutRecovery` | packages/atlas-core/src/segment-reader.ts:395-443 | for either log: cut the final file at any byte past its header, and the scan is the fold of the longest run of whole groups, leaves exactly their bytes, and a second scan repairs nothing |
| `SegmentScan.SurvivingIsLongest` | packages/atlas-core/src/segment-reader.ts:395-443 | no longer run of whole groups lies before the cut |
| `SegmentScan.CutInsideHeaderRefuses` | packages/atlas-core/src/segment-reader.ts:171-247 | a cut inside the header line is refused, never read as an empty segment |
| `Recovery.FoldIsPlainReading` | packages/atlas-core/src/segment-reader.ts:300-465 | on everything the writer produces, the fold with its open-group buffer is a plain reading of all records: bodies, stamps, receipts, notes and the highest marks |
| `ScanVerdicts.TailNotes` | packages/atlas-core/src/segment-reader.ts:395-443 | cut the final file anywhere past its header: the notes are the lines of a group left open and then the torn line, each with exactly its bytes, and together they are every byte past the last whole group |
| `ScanVerdicts.SealedCut` | packages/atlas-core/src/segment-reader.ts:171-205 | cut a sealed file anywhere past its header: torn inside a line and incomplete inside a group, each refused by its name, and between groups read as the shorter file |
| `ScanVerdicts.SealedCutRefuses` | packages/atlas-core/src/segment-reader.ts:249-300 | the same in a directory, whatever loads before the cut file and whatever follows it |
| `ScanVerdicts.UnreadableLine` | packages/atlas-core/src/segment-reader.ts:137-169 | a whole line that does not parse refuses its file, sealed or final |
| `ScanVerdicts.EmptyFile` | packages/atlas-core/src/segment-reader.ts:176-193 | an empty file is refused |
| `ScanVerdicts.NoHeader` | packages/atlas-core/src/segment-reader.ts:211-217 | so is one that begins with anything but a header |
| `ScanVerdicts.ForeignSegmentRefuses` | packages/atlas-core/src/segment-reader.ts:224-241 | a renamed segment, or one of another epoch, refuses the log wherever it stands |
| `ScanVerdicts.InterleavedRefuses` | packages/atlas-core/src/segment-reader.ts:356-365 | a record that stands alone, inside an open commit, refuses the log |
| `CompactionAccount.ReloadIsPastAll` | packages/atlas-core/src/segment-reader.ts:277-280 | a reloaded clock is at or past every instant that any record on disk states |
| `LogRecords.SubmissionKeyInjective` | packages/atlas-core/src/store.ts:57-59 | with NUL-free clients two submissions share a key exactly when client and key are equal |
| `LogRecords.NulInClientCollides` | packages/atlas-core/src/store.ts:57-59 | with a NUL in the client id two different submissions share a key |
| `LogRecords.ApplyStampsConcat` | packages/atlas-core/src/segment-reader.ts:445-457 | write-once stamping in two rounds is stamping once with both |
| `LogInvariant.EffectiveStamps` | packages/atlas-core/src/store.ts:400-416 | a commit stamps each target once, only where still believed, and misses none it was asked for |
| `CommitMeaning.CommitDecides` | packages/atlas-core/src/store.ts:322-457 | in order: a draft that names no lineage where it must, a key used before with the same payload or another, a name no assertion has and which is reported first, and otherwise committed |
| `CommitMeaning.CommitStoresDraft` | packages/atlas-core/src/store.ts:355-456 | once acknowledged, the live log, the appended group and a reload each hold exactly one assertion with the receipt's id for a draft; subject, relation, valid time, supersedes and content are the draft's, client, fidelity and withholding the request's, and nothing supersedes it yet |
| `CommitMeaning.AddedInOrder` | packages/atlas-core/src/store.ts:355-443 | what a commit adds says what its drafts said, in their order and under the acknowledged ids |
| `CommitMeaning.CommitSupersedesNamed` | packages/atlas-core/src/store.ts:400-453 | every assertion there was stays as it was, except that each believed one that a draft names is superseded at the commit's instant by the first draft that named it; a reload shows the same |
| `CommitMeaning.CommitAcknowledges` | packages/atlas-core/src/store.ts:303-457 | the receipt names the submission and its ids at an instant past all earlier ones, is found under its key, closes the group, and moves seq and belief time on by just that |
| `CommitSteps.CommitKeepsInv` | packages/atlas-core/src/store.ts:322-457 | every commit, accepted or refused, keeps the invariant tying disk, live store and history |
| `CommitSteps.FeedKeepsInv` | packages/atlas-core/src/store.ts:651-686 | every feed page keeps it |
| `CommitSteps.FloorKeepsInv` | packages/atlas-core/src/store.ts:469-487 | every floor advance keeps it |
| `Unlinking.UnlinkKeepsDisk` | packages/atlas-core/src/durable-log.ts:421-423 | unlinking segments whose receipts and marks a survivor carries keeps the disk sound and drops exactly their bodies |
| `CompactionSteps.CompactedDisk` | packages/atlas-core/src/durable-log.ts:391-423 | after the append and any part of the unlinking: bodies less those unlinked, same floor, same watermark, every receipt still held |
| `CompactionSteps.CompactKeepsInv` | packages/atlas-core/src/durable-log.ts:260-437 | every compaction keeps the invariant |
| `CompactionSteps.DoomedOutOfReach` | packages/atlas-core/src/durable-log.ts:340-375 | whatever a compaction drops had stopped being believed by the floor, in the live store too |
| `Reclaiming.UnlinkedExactlyWhenSpent` | packages/atlas-core/src/durable-log.ts:285-423 | a finished compaction unlinks a segment if and only if it is sealed, holds no repair record, and all its bodies are published and stopped being believed by the floor |
| `Reclaiming.KeptForTheFirstReason` | packages/atlas-core/src/durable-log.ts:297-372 | and a segment is refused for the first reason that holds, each reason told from the records alone |
| `Reclaiming.GivenUpInSync` | packages/atlas-core/src/durable-log.ts:340-370 | in sync, what the disk says of an assertion's end is what the live store says |
| `Reclaiming.StepKeepsRepairs` | packages/atlas-core/src/durable-log.ts:158-172 | one step adds to the repair records on disk exactly what a reopen notes |
| `Reclaiming.RepairsOutliveRuns` | packages/atlas-core/src/durable-log.ts:308-315 | through any run, compactions and partial unlinks included, the repair records on disk are those there were and then exactly those its reopens noted, in order |
| `CompactionAccount.CompactionSaysWhatItDoes` | packages/atlas-core/src/durable-log.ts:376-419 | the group is the receipts of what is reclaimed, no others, and then one record naming exactly the unlinked segments, exactly their assertions with their seqs, and where seq, belief time, watermark and floor stand |
| `CompactionAccount.NoteNamesFirstAfterReopen` | packages/atlas-core/src/segment-reader.ts:373-385 | everything reclaimed is noted with its seq and instant, live and after a reopen; the live note names the segment that held it, the reopened one the first that was reclaimed |
| `CompactionSteps.CompactionPreservesReads` | packages/atlas-core/src/durable-log.ts:260-437 | every query without superseded records, present or at an instant at or above the floor, keeps its hits and their order; only the rows evaluated may fall |
| `ExactlyOnce.CompactionsPreserveReads` | packages/atlas-core/src/durable-log.ts:260-437 | the same after any number of compactions |
| `LogRuns.ReloadIsLive` | packages/atlas-core/src/durable-log.ts:87-148 | reloading a sound disk gives a sound live store: receipts, floor, watermark, next seq and belief time |
| `LogRuns.CrashKeepsInv` | packages/atlas-core/src/durable-log.ts:87-172 | dying anywhere in any operation and reopening with repairs keeps the invariant |
| `LogRuns.RunKeepsInv` | packages/atlas-core/src/durable-log.ts:61-437 | so does every run of operations and crashes |
| `CrashRecovery.CrashCutRestores` | packages/atlas-core/src/durable-log.ts:116-148 | through any run of commits, pages, floor advances and rolls, any cut past the header restores a store no caller can tell from the one that stood after the last wholly surviving operation |
| `CrashRecovery.NewLogCrashCutRestores` | packages/atlas-core/src/segment-reader.ts:249-488 | the same from a new log, assuming of the cut only that it is past the header |
| `CrashRecovery.CutInHeaderIsRefused` | packages/atlas-core/src/segment-reader.ts:171-200 | over the same runs, a cut inside the final header is a refusal |
| `CrashRecovery.AppendIsIntended` | packages/atlas-core/src/segment-writer.ts:230-245 | the log's append is the writer's, with the header its journal makes |
| `CompactionAccount.NewSegmentsState` | packages/atlas-core/src/segment-writer.ts:191-245 | a segment that an operation begins is the next in number, holds that operation's group and nothing else, and its header states its number, the epoch and the floor |
| `GroupCuts.CutIsPastDisk` | packages/atlas-core/src/segment-writer.ts:206-245 | every cut that ends on a closed group is a disk some append left, or that and the next segment's header |
| `ExactlyOnce.RetryReplays` | packages/atlas-core/src/store.ts:341-353 | after any later run whatsoever, a retry gets its original receipt and changes nothing, and a changed payload gets a conflict naming it |
| `ExactlyOnce.ExactlyOnceForLife` | packages/atlas-core/src/store.ts:303-457 | over any run with crashes and compactions: at most one commit per client and key, receipts findable live and on reload, instants strictly increasing, seq ranges disjoint and never reissued, every held assertion carrying the seq and instant it was acknowledged with |
| `ExactlyOnce.RecognisesExactly` | packages/atlas-core/src/store.ts:341-353 | with NUL-free clients the store recognises exactly the submissions it has committed |
| `Reopening.ReopenIsInvisible` | packages/atlas-core/src/durable-log.ts:87-148 | in sync, a reload has the same assertions, receipts, notes, floor, watermark, next seq and retention floor |
| `SyncedRuns.InSyncIffReloadAlike` | packages/atlas-core/src/durable-log.ts:87-148 | in a reachable world, being in sync is the same as a reload being invisible |
| `SyncedRuns.CrashInSync` | packages/atlas-core/src/durable-log.ts:87-172 | whatever earlier compactions dropped, a store just reopened is in sync |
| `SyncedRuns.CompactInSync` | packages/atlas-core/src/durable-log.ts:376-428 | a compaction that reclaims anything leaves a synced store in sync exactly when it drops no stamp of a surviving body and no note |
| `SyncedRuns.CleanRunsReopenUnchanged` | packages/atlas-core/src/durable-log.ts:61-437 | from a new log through any run whose compactions drop no stamp of a surviving body and no note, reopening changes nothing a caller sees |
| `CompactedReopening.ReloadKeepsMarks` | packages/atlas-core/src/durable-log.ts:391-419 | however far the unlinking got, a reload has every receipt and every mark |
| `CompactedReopening.ReloadKeepsBeliefs` | packages/atlas-core/src/segment-reader.ts:445-465 | the reload has the live assertions less the bodies unlinked, if and only if no stamp went while its body stayed |
| `CompactedReopening.ReopenAfterCompaction` | packages/atlas-core/src/durable-log.ts:376-428 | exactly when believed assertions come back, exactly when reclaimed ids do, exactly when the whole reload is the live store, and that everything else always comes back |
| `CompactedReopening.UnnamedNotesStay` | packages/atlas-core/src/durable-log.ts:376-428 | for the notes it is enough that no record that goes names an id already reclaimed |
| `CompactedReopening.EveryPrefixStays` | packages/atlas-core/src/durable-log.ts:421-423 | unlinking in ascending order never drops a stamp before the body it stamps |
| `CompactedReopening.BodyOrNote` | packages/atlas-core/src/segment-reader.ts:458-465 | every id the new record names is found as a live body or as a note and never as both |
| `CompactedReopening.InterruptedCompaction` | packages/atlas-core/src/durable-log.ts:402-423 | after any number of unlinks the reload gives each named id a body or a note, and answers every permitted read, retry and commit as before |
| `LostStamps.LostStampRevives` | packages/atlas-core/src/durable-log.ts:391-423 | any compaction that unlinks a stamp and keeps its body leaves the assertion superseded in process and believed after a reopen |
| `LostStamps.SupersededAssertionComesBack` | packages/atlas-core/src/durable-log.ts:260-437 | a concrete possible run that does so |
| `LostNotes.LostNoteIsForgotten` | packages/atlas-core/src/durable-log.ts:402-423 | any compaction after which no record names a reclaimed id leaves its note in process, and neither note nor body after a reopen |
| `LostNotes.ReclaimedAssertionIsForgotten` | packages/atlas-core/src/durable-log.ts:260-437 | a concrete possible run that compacts twice and does so |
| `QueryMeaning.QueryAnswers` | packages/atlas-core/src/store.ts:527-607 | the hits are exactly the assertions whose subject and relation are those asked for, recorded by the instant and not yet given up by it unless superseded ones are asked for, whose interval matches the date; each once, in log order; every count is a count of such rows |
| `QueryMeaning.RefusedExactlyBelowFloor` | packages/atlas-core/src/store.ts:528-538 | a read is refused, and told the floor, exactly when it asks for an instant before it |
| `QueryMeaning.HitDescribes` | packages/atlas-core/src/store.ts:540-584 | a hit carries its assertion as it stands, how much world time it has, and, exactly when a date was asked for, how it matched |
| `Store.CoverageReconciles` | packages/atlas-core/src/store.ts:586-597 | with-valid-time plus its complement is matched, which is at most evaluated |
| `Store.WithoutKeepsHits` | packages/atlas-core/src/store.ts:543-584 | dropping only assertions that stopped being believed by the floor changes no permitted hit |
| `Store.AsOfReadsRepeat` | packages/atlas-core/src/store.ts:543-584 | a read at an instant gives the same hits after any growth past it |
| `RepeatableReads.CrashIsAllOrNothing` | packages/atlas-core/src/durable-log.ts:116-148 | without compactions a crash leaves the disk as it was, a roll aside, or as the finished operation leaves it |
| `RepeatableReads.AsOfReadsAreRepeatable` | packages/atlas-core/src/store.ts:527-607 | for an instant no later than an acknowledged commit and still at or above the floor, any later compaction-free run, reopens included, gives the same ids, fidelities and match qualities |
| `Feed.PageHasNoGap` | packages/atlas-core/src/store.ts:651-686 | a page not flagged as before the retention floor holds exactly the seqs cursor + 1 to next cursor, is short of its limit only at the end, and tells truly whether more follow |
| `Feed.ReclaimFeedInv` | packages/atlas-core/src/store.ts:503-514 | dropping records raises the retention floor over everything dropped |
| `Feed.FeedHasNoSilentGaps` | packages/atlas-core/src/store.ts:651-686 | in one process, under any mix of commits, pages, floor advances and compactions, no unflagged page has a gap |
| `Feed.WatermarkStaysWithin` | packages/atlas-core/src/store.ts:667-676 | a page raises the watermark past every issued seq exactly when its cursor was past them |
| `Feed.WatermarkNeverRunsAhead` | packages/atlas-core/src/store.ts:667-676 | while clients use only 0 and cursors they were given, the watermark never passes the highest issued seq |
| `Feed.MadeUpCursorRunsAhead` | packages/atlas-core/src/store.ts:667-676 | a made-up cursor on an empty log does |
| `FeedMeaning.PageMeans` | packages/atlas-core/src/store.ts:651-686 | whatever the cursor: the first of all assertions past it in log order, up to the limit, the last seq as next cursor, whether more follow, and the watermark raised with its record or left alone |
| `FeedMeaning.FlaggedIffMissing` | packages/atlas-core/src/store.ts:651-686 | a page is flagged if and only if some seq issued after its cursor is gone, and the retention floor is the last such seq |
| `FeedMeaning.FlagTellsTheTruth` | packages/atlas-core/src/store.ts:503-514 | so it is after any run in one process from a new log |
| `FeedMeaning.FloorMeans` | packages/atlas-core/src/store.ts:469-487 | the floor moves forward or not at all, on the record, and reads before it are refused from then on |
| `FeedReopening.ReloadHasNoSilentGapIff` | packages/atlas-core/src/store.ts:257-279 | a reload has no silent gap exactly when every seq between its retention floor and the live one is still held |
| `FeedReopening.EveryPrefixRecalls` | packages/atlas-core/src/durable-log.ts:421-423 | if the notes stay once all unlinking is done, they stay at every point of it |
| `FeedReopening.PartlyUnlinkedFeedInv` | packages/atlas-core/src/durable-log.ts:391-423 | a clean compaction that dies after its append leaves the reloaded feed whole, however much it had unlinked |
| `FeedReopening.NoSilentGapAcrossReopens` | packages/atlas-core/src/store.ts:651-686 | from a new log, through any run whose compactions are clean, with crashes at any point and reopens, no unflagged page has a gap, live or reloaded |
| `SilentGap.ReopenedFeedSkipsAChange` | packages/atlas-core/src/durable-log.ts:308-423 | a concrete run in one process, without a gap live, after which the reopened log's first page skips a seq unflagged |
| `LiveLog.Cell.Supersede` | packages/atlas-core/src/store.ts:444-450 | the only write to a committed record keeps the first supersession |
| `LiveLog.AssertionLog.constructor` | packages/atlas-core/src/store.ts:257-279 | opening on a restored state holds exactly that state, with the retention floor of its notes |
| `LiveLog.AssertionLog.PlanStamps` | packages/atlas-core/src/store.ts:400-416 | the nested loops find the first unknown target, or exactly the effective stamps |
| `LiveLog.AssertionLog.Commit` | packages/atlas-core/src/store.ts:322-457 | committing over stamped-in-place cells is the value-level commit; it only adds new cells after the old ones, and they say what the drafts said, in order |
| `LiveLog.AssertionLog.Query` | packages/atlas-core/src/store.ts:527-607 | the loop with counters is the declarative two-axis read: refused exactly below the floor, and otherwise the wanted assertions, each once and in order |
| `LiveLog.Examine` | packages/atlas-core/src/store.ts:543-584 | one row is counted exactly when the filters ask for it, hit exactly when it is wanted, and described as it matched |
| `LiveLog.AssertionLog.ChangesSince` | packages/atlas-core/src/store.ts:651-686 | a page and its watermark record are the value-level feed step |
| `LiveLog.AssertionLog.AdvanceHistoryFloor` | packages/atlas-core/src/store.ts:469-487 | the floor moves forward only, with its record |
| `LiveLog.AssertionLog.ApplyReclamation` | packages/atlas-core/src/store.ts:503-514 | unmapping and splicing from the end drops exactly the noted records and keeps the cells of the rest |
| `LogIndexing.LogIndex.Add` | packages/atlas-core/src/log-index.ts:31-38 | all three maps stay the maps of everything added, buckets in order |
| `LogIndexing.FiledIsSelected` | packages/atlas-core/src/log-index.ts:27-29 | for NUL-free subjects, filing by key selects by subject and predicate |
| `LogIndexing.DurableLog.constructor` | packages/atlas-core/src/durable-log.ts:174-189 | on open, log and index share the same cells |
| `LogIndexing.DurableLog.Commit` | packages/atlas-core/src/durable-log.ts:193-202 | the wrapper files exactly the log's new cells, so an index that agreed still agrees |
| `LogIndexing.DurableLog.Find` | packages/atlas-core/src/log-index.ts:51-53 | a lookup returns the very cells a filter of the log would, later stamps included |
| `LogIndexing.DurableLog.Read` | packages/atlas-core/src/log-index.ts:40-42 | a lookup by id returns the cell the log would |
| `LogIndexing.DurableLog.Compact` | packages/atlas-core/src/durable-log.ts:425-428 | given notes and a scan, the log drops what is noted, keeps the cells of the rest, and the index is over new cells with the scanned values |
| `LogIndexing.CompactThenSupersede` | packages/atlas-core/src/durable-log.ts:425-428 | compact, then supersede any record that stayed: the log knows, the index does not |
| `SegmentWriting.WriteAll` | packages/atlas-core/src/segment-writer.ts:56-77 | short writes, each from its own offset, add up to the whole payload; a stall leaves a proper prefix and is refused |
| `SegmentWriting.SegmentWriter.Roll` | packages/atlas-core/src/segment-writer.ts:191-211 | a roll begins the next segment with its header, or leaves a torn one |
| `SegmentWriting.SegmentWriter.AppendGroup` | packages/atlas-core/src/segment-writer.ts:230-245 | a group lands whole in one segment, rolling exactly by the size rule; if a write fails, the files are a byte cut of what was intended |
| `CompactionPlan.Judge` | packages/atlas-core/src/durable-log.ts:308-372 | the loops over one segment give the first rule that refuses it, and none exactly when it is sealed, undamaged, published, and given up by the floor |
| `CompactionPlan.Select` | packages/atlas-core/src/durable-log.ts:285-375 | the first pass selects exactly the candidates and lists exactly the refused, in order |
| `CompactionPlan.Announce` | packages/atlas-core/src/durable-log.ts:377-389 | the second pass collects one note, id and seq per body |
| `CompactionPlan.Plan` | packages/atlas-core/src/durable-log.ts:285-419 | the whole plan is the group, the doomed segments and the notes of the compaction step |
| `LiveCompaction.CompactLog` | packages/atlas-core/src/durable-log.ts:260-437 | planned on the disk and carried out: disk, live log and index end as the compaction step leaves them, the index over copies that in a synced log show what the log holds |
| `AliasLedger.VerifyAliasLedger` | packages/atlas-core/src/alias-ledger.ts:200-247 | the walk is intact exactly when every row follows, and otherwise names the first that does not, with the number or the digest expected there and the one found |
| `AliasLedger.PrefixVerifies` | packages/atlas-core/src/alias-ledger.ts:200-247 | a bare prefix still verifies |
| `AliasLedger.HeadBindsHistory` | packages/atlas-core/src/alias-ledger.ts:171-180 | with an injective digest, two verifying ledgers with the same head are the same rows |
| `AliasLedger.TamperingIsDetected` | packages/atlas-core/src/alias-ledger.ts:200-247 | any edit, removal or reorder below a known head fails verification or changes the head |
| `Redirects.Resolve` | packages/atlas-core/src/entity-registry.ts:579-698 | the loop with its visited set and cap is the declarative walk |
| `Redirects.ResolveIsChain` | packages/atlas-core/src/entity-registry.ts:579-698 | where redirects end, resolution is the true chain, too long exactly when it exceeds the cap |
| `Redirects.ResolutionAnswers` | packages/atlas-core/src/entity-registry.ts:579-698 | over any ledger, what is answered where a walk ends: the entity, unknown, dangling, the row's own candidates, assertion or kind, the cycle with the id that closes it, or too long exactly one past the cap |
| `Redirects.FoundMeansEnds` | packages/atlas-core/src/entity-registry.ts:579-698 | an entity found was reached by following the whole chain |
| `Redirects.RedirectGrows` | packages/atlas-core/src/entity-registry.ts:712-790 | a redirect whose target does not lead back only lengthens chains |
| `RegistryRuns.MergeSound` | packages/atlas-core/src/entity-registry.ts:712-790 | the checks before a merge keep the graph ending and grounded |
| `RegistryRuns.SplitSound` | packages/atlas-core/src/entity-registry.ts:801-861 | a split names at least two candidates, all of them entities |
| `RegistryMeaning.MergeDecides` | packages/atlas-core/src/entity-registry.ts:712-790 | a merge is decided if and only if the ids differ, `from` has no row, `into` resolves to an entity by a chain without `from`, and the decision is backed; otherwise it is refused for the first that fails and changes nothing |
| `RegistryMeaning.MergeRedirects` | packages/atlas-core/src/entity-registry.ts:712-790 | after it, one row says so, and `from` resolves to itself and then the chain of `into`, under every cap as long as that chain |
| `RegistryMeaning.MergeLeavesOthers` | packages/atlas-core/src/entity-registry.ts:712-790 | every other id resolves as before under every cap, unless its chain ended at `from`; then it goes on along the chain of `into` |
| `RegistryMeaning.SplitDecides` | packages/atlas-core/src/entity-registry.ts:801-861 | when a split is decided and when each refusal is given |
| `RegistryMeaning.SplitMeans` | packages/atlas-core/src/entity-registry.ts:801-861 | an id that was split resolves to exactly the ids minted for it, and no other answer changes |
| `RegistryMeaning.SplitMints` | packages/atlas-core/src/entity-registry.ts:801-861 | each of them is an entity as it was minted, beside every entity there was |
| `RegistryMeaning.DispositionMeans` | packages/atlas-core/src/entity-registry.ts:871-908 | a disposition is recorded exactly when the id has no row, and the id then resolves to its kind |
| `RegistryMeaning.AssertionMappingMeans` | packages/atlas-core/src/entity-registry.ts:910-954 | a mapping to an assertion likewise, and the id then resolves to that assertion |
| `RegistryMeaning.RecordSplitMeans` | packages/atlas-core/src/entity-registry.ts:956-1010 | a split of existing entities is recorded exactly when there are two or more, all registered, and the id has no row; the first missing one is reported |
| `RegistryMeaning.RegisterMeans` | packages/atlas-core/src/entity-registry.ts:493-498 | registering makes an id name its entity and resolve to itself, and changes nothing else |
| `RegistryMeaning.RenameMeans` | packages/atlas-core/src/entity-registry.ts:531-570 | a rename reaches exactly a registered entity without a row, and changes only what it is called and when |
| `RegistryRuns.StepSound` | packages/atlas-core/src/entity-registry.ts:493-1222 | every operation keeps one row per id, a verifying ledger, ending and grounded redirects, and an ordered entity list, and only adds |
| `RegistryRuns.KnownIdsResolve` | packages/atlas-core/src/entity-registry.ts:579-698 | a known id is never unknown, cyclic or dangling, and too long exactly when its true chain exceeds the cap |
| `RegistryRuns.ReachableLedgersResolve` | packages/atlas-core/src/entity-registry.ts:579-861 | the same over every run from an empty registry |
| `RegistryRuns.HistoryIsKept` | packages/atlas-core/src/entity-registry.ts:1171-1222 | rows are write-once, and every earlier chain is a prefix of the later one |
| `ReimportMatching.StepKeepsApart` | packages/atlas-core/src/entity-registry.ts:1079-1111 | every registry operation keeps the latest observations of any two entities short of a match |
| `ReimportMatching.LatestObservationFindsItsEntity` | packages/atlas-core/src/entity-registry.ts:1026-1111 | in every reachable registry, observing an entity as it was last observed carries exactly it forward |
| `ReimportMatching.RepeatFindsTheSame` | packages/atlas-core/src/entity-registry.ts:1026-1111 | repeating an accepted observation finds the same entity after any run, other observations included, in which that entity was not itself observed anew |
| `ReimportMatching.ObservationOutcome` | packages/atlas-core/src/entity-registry.ts:1026-1111 | every outcome, by what resembles the observation in two traits: several are all listed, one is carried forward with the traits they share and re-anchored, none mints, and fewer than two traits refuses |
| `ReimportMatching.ReanchoredAway` | packages/atlas-core/src/entity-registry.ts:1079-1111 | a run of three accepted observations of one entity after which the first mints another |
| `LiveRegistry.CarriedExactlyWhenUnique` | packages/atlas-core/src/entity-registry.ts:1052-1111 | through the trait index, an id is carried forward exactly when it alone is filed under two of the observed traits or more |
| `LiveRegistry.EntityRegistry.IndexObservation` | packages/atlas-core/src/entity-registry.ts:467-485 | the trait index stays the exact inverse of the latest observations |
| `LiveRegistry.EntityRegistry.Candidates` | packages/atlas-core/src/entity-registry.ts:1052-1068 | votes through the index select exactly the entities a scan would |
| `LiveRegistry.EntityRegistry.ResolveOrMint` | packages/atlas-core/src/entity-registry.ts:1026-1111 | matching, re-anchoring and minting are the value-level operation |
| `LiveRegistry.EntityRegistry.AppendSealed` | packages/atlas-core/src/entity-registry.ts:1171-1222 | a row is sealed onto the head and becomes visible with its entities |
| `LiveRegistry.EntityRegistry.MergeInto` | packages/atlas-core/src/entity-registry.ts:712-790 | merging, with its refusals in order, is the value-level decision, and of a sound registry it leaves `from` leading to where `into` led |
| `LiveRegistry.EntityRegistry.SplitInto` | packages/atlas-core/src/entity-registry.ts:801-861 | so is splitting |
| `LiveRegistry.EntityRegistry.RecordAmbiguous` | packages/atlas-core/src/entity-registry.ts:956-1010 | so is recording a split of existing entities, refusing at the first that is missing |
| `LiveRegistry.EntityRegistry.RecordOutcome` | packages/atlas-core/src/entity-registry.ts:871-935 | so are the mechanical rows |
| `IdentityLog.StepRebuilds` | packages/atlas-core/src/identity-log.ts:277-310 | reading back an operation's group does to the rebuilt registry what the operation did to the live one |
| `IdentityLog.WrittenGroupAccounts` | packages/atlas-core/src/identity-log.ts:420-459 | a written group satisfies its own marker |
| `IdentityLog.RemovalIsNoticed` | packages/atlas-core/src/identity-log.ts:218-275 | take one record out of a closed group: the marker still accounts for it exactly when it was an observation |
| `IdentityMarkers.MarkerCounts` | packages/atlas-core/src/identity-log.ts:208-253 | a marker accounts for a group if and only if every member is of its group, those it should name it names, and as many are present as it names |
| `IdentityMarkers.NothingIsMissing` | packages/atlas-core/src/identity-log.ts:208-253 | where nothing is written twice, it then misses nothing it names |
| `IdentityMarkers.TwiceHidesMissing` | packages/atlas-core/src/identity-log.ts:208-253 | an entity written twice hides that another is gone |
| `IdentityMarkers.UnaccountedIsCorrupt` | packages/atlas-core/src/identity-log.ts:208-253 | closing a group fails, as corrupt, exactly when the marker does not account for it |
| `IdentityMarkers.FirstRowWins` | packages/atlas-core/src/identity-log.ts:264-271 | every row is kept in order and looked up by the first for its id, every other is reported as a conflict |
| `IdentityMarkers.LatestVersionWins` | packages/atlas-core/src/identity-log.ts:255-275 | of an entity's versions and of its observations the latest is the one kept |
| `IdentityLog.IdentityLogRoundTrip` | packages/atlas-core/src/identity-log.ts:150-357 | after any run and any cut past the final header, the scan rebuilds entities in order, rows, observations and next row number of the last whole group |
| `IdentityLog.RemovedMemberRefusesLoad` | packages/atlas-core/src/identity-log.ts:218-275 | a load that reaches a closed group with an entity or alias record missing is refused, whatever follows |
| `IdentityDamage.RemovedLineRefusesLoad` | packages/atlas-core/src/identity-log.ts:218-275 | after any run of registry operations, take any entity or alias line out of any file and the load is refused |
| `IntervalEdges.DateUTCCounts` | packages/atlas-core/src/time.ts:94-131 | the closed form for dates is a calendar counted year by year and month by month, months outside the year and two-digit years included |
| `IntervalEdges.SpanCounts` | packages/atlas-core/src/time.ts:94-115 | a date spans from its first instant to that of the next year, month or day, whichever it names, read digit by digit |
| `IntervalEdges.WideningCounts` | packages/atlas-core/src/time.ts:121-131 | widening reaches one unit of the date's own precision to either side |
| `IntervalEdges.OneUnitEarlier` | packages/atlas-core/src/time.ts:121-131 | the unit before a month is the whole month before it; before a year, the whole year, but for 0000 and 0100 |
| `IntervalEdges.MatchesFromBoundToBound` | packages/atlas-core/src/time.ts:184-206 | an interval matches a date if and only if it has a bound and none unknown, the date ends after its `from` and begins before its `to`, an approximate bound lying one unit earlier; possible exactly when a bound is approximate |
| `IntervalEdges.SinceMatches` | packages/atlas-core/src/time.ts:184-206 | open at the end: exactly the dates that end after the first instant of `from`, certain, or possible one unit earlier when approximate |
| `IntervalEdges.UntilMatches` | packages/atlas-core/src/time.ts:184-206 | open at the start: exactly the dates that begin before the first instant of `to`, or one unit earlier when approximate |
| `IntervalEdges.BeginsWithItself` | packages/atlas-core/src/time.ts:184-206 | an interval that begins with a date matches that date, certainly, unless it is the year 0099 |
| `WorldTime.OverlapIsSharedInstant` | packages/atlas-core/src/time.ts:184-206 | the two half-open comparisons mean a shared instant |
| `WorldTime.DayRollover` | packages/atlas-core/src/time.ts:103-115 | the day after a month's last is the first of the next, December and leap years included |
| `WorldTime.MonthsTileTheYear` | packages/atlas-core/src/time.ts:94-115 | months tile a year, exactly when the year is not 0099 |
| `WorldTime.DaysTileTheMonth` | packages/atlas-core/src/time.ts:94-115 | days tile a month |
| `WorldTime.YearMatchesIffSomeMonth` | packages/atlas-core/src/time.ts:184-206 | a year probe matches exactly when some month of it does, for every sensible interval, exactly when the year is not 0099 |
| `WorldTime.MonthMatchesIffSomeDay` | packages/atlas-core/src/time.ts:184-206 | a month probe matches exactly when some day of it does |
| `WorldTime.YearMatchesIffSomeDay` | packages/atlas-core/src/time.ts:184-206 | the same down to days |
| `WorldTime.Year99Misses` | packages/atlas-core/src/time.ts:94-115 | an interval open from June 1999 matches a month of 0099 and not the year |
| `WorldTime.CutsAreSafeIffStartBeforeEnd` | packages/atlas-core/src/time.ts:184-206 | probes can be cut into pieces exactly when the interval starts before it ends |
| `WorldTime.ApproximateEndCuts` | packages/atlas-core/src/time.ts:184-206 | unless it is the year 0100, an approximate end cuts off exactly the probes that begin after its widening |
| `WorldTime.ApproximateEndOnlyNarrows` | packages/atlas-core/src/time.ts:121-131 | an approximate end matches nothing an exact one does not, exactly when it is not the year 0100 |
| `WorldTime.ApproximateEndGains` | packages/atlas-core/src/time.ts:121-131 | with an approximate end of 0100 the interval matches "0150", and with the exact one it does not |
| `ContractMeaning.RenderingMeans` | packages/atlas-contract/src/shape.ts:194-320 | whatever renders accepts exactly the values its shape describes at that position: properties by name, required ones present, nothing undeclared from a caller, bounds, null, the reserved `other`, known kinds in full and unknown ones as they are |
| `ContractMeaning.InputIsValidOutput` | packages/atlas-contract/src/shape.ts:1-35 | what a shape admits from a caller it admits in an answer |
| `ContractMeaning.UndeclaredField` | packages/atlas-contract/src/shape.ts:196-208 | a field nobody declared is refused from a caller and is no reason to refuse an answer |
| `ContractMeaning.StrictnessMeans` | packages/atlas-contract/src/generate.ts:319-334 | an object passes the strictness check on input exactly when it would refuse one more, undeclared, field; passing it on output means it would not |
| `ContractMeaning.ReservingMeans` | packages/atlas-contract/src/generate.ts:397-407 | a closed list passes its check exactly when it accepts `other` or states its reason |
| `ContractMeaning.RecordsAreNoticed` | packages/atlas-contract/src/generate.ts:375-382 | a reference to a record is noticed, and so is exactly every reference with `:record:` somewhere in it |
| `ContractShapes.RenderFixesStrictness` | packages/atlas-contract/src/shape.ts:194-320 | every object at every depth has the strictness of its position, exactly when no scalar hides one that has not |
| `ContractShapes.InputNamesNoRecord` | packages/atlas-contract/src/generate.ts:375-382 | an input rendering references no record, exactly when no scalar does and no definition is named like one |
| `ContractShapes.OutputEnumsReserveOther` | packages/atlas-contract/src/generate.ts:397-407 | every output enum reserves `other` or states a reason, exactly when every scalar's does |
| `ContractShapes.RendersWhatIsInPlace` | packages/atlas-contract/src/shape.ts:248-298 | a shape renders exactly when nothing in it, at any depth, is out of place: for input no record and no union, for output no union naming an unpublished kind; and a refusal says which |
| `ContractShapes.ScalarGuardIsShallow` | packages/atlas-contract/src/shape.ts:125-130 | an object one keyword down passes the guard and renders open on input |
| `ContractSchemas.EverywhereIsEveryNode` | packages/atlas-contract/src/generate.ts:291-313 | a check that passes holds of every node the walk reaches |
| `ContractBundle.Bundler.Visit` | packages/atlas-contract/src/generate.ts:223-251 | the reference walk ends, collects everything reached, and never goes beyond or fails within any closed set |
| `ContractBundle.Collect` | packages/atlas-contract/src/generate.ts:212-253 | what is collected is the least closed set; collecting fails exactly when there is none, and then names a reference that some chain from the root meets and nothing published answers to |
| `ContractBundle.EveryMemberIsReached` | packages/atlas-contract/src/generate.ts:212-253 | what is embedded is exactly what some chain of references from the root leads to |
| `ContractBundle.SelfContainedIffCutsFound` | packages/atlas-contract/src/generate.ts:344-373 | a bundled document passes its self-containment check exactly when every target it names is found again once its name is cut at the first `#` |
| `ContractBundle.BundleIsSelfContained` | packages/atlas-contract/src/generate.ts:344-373 | so it passes whenever no published name holds a `#` |
| `ContractBundle.Bundle` | packages/atlas-contract/src/generate.ts:212-277 | whenever bundling returns: least closure, embedded, and self-contained exactly under that condition |
| `BundleMeaning.ReferencesKeepTheirTargets` | packages/atlas-contract/src/generate.ts:253-277 | inside the document every reference leads to the very schema it named in the library |
| `BundleMeaning.BundlingKeepsMeaning` | packages/atlas-contract/src/generate.ts:195-277 | the bundled document accepts exactly what the root accepts with references followed through the library, however deep, cyclic definitions included |
| `ContractBundle.DefRefSplits` | packages/atlas-contract/src/generate.ts:344-373 | the check looks any name up only as far as its first `#` |
| `ContractBundle.HashedNameFailsTheCheck` | packages/atlas-contract/src/generate.ts:212-373 | a library with one definition named `a#b` and a document that refers to it: bundled, and refused by the check |
| `JsonReading.TextReadsBack` | packages/atlas-core/src/ids.ts:114-121 | every value's text is JSON and reads back as its canonical form and nothing else |
| `JsonReading.ObjectReadsBack` | packages/atlas-core/src/ids.ts:114-121 | an object reads back with its keys in order and exactly its defined entries |
| `CanonicalJson.SameTextIffSameCanon` | packages/atlas-core/src/ids.ts:114-121 | two values have the same text exactly when they have the same canonical form |
| `CanonicalJson.SameCanonIffSameValue` | packages/atlas-core/src/ids.ts:114-121 | canonical forms agree exactly when the values do: objects as unordered entries, undefined ones absent, arrays item by item, at every depth |
| `CanonicalJson.KeyOrderIsIgnored` | packages/atlas-core/src/ids.ts:114-121 | the order in which keys were inserted does not show, at any depth |
| `CanonicalJson.TextIsFaithful` | packages/atlas-core/src/ids.ts:114-121 | two values have the same text exactly when they are the same value |
| `CanonicalJson.EqualDigestsMeanEqualPayloads` | packages/atlas-core/src/ids.ts:89-104 | with an injective hash, digests are equal exactly when the payloads are the same value |
| `CanonicalJson.UndefinedItemReadsAsNull` | packages/atlas-core/src/ids.ts:114-121 | an undefined array item collides with null |

## Left out

- fsync, file modes and directory sync: a returned append is durable, and one that fails ends the process, since the writer goes on as if nothing happened.
- SHA-256, random ids and schema validation: the hash is an injective function (the request digest is the payload it covers), minting is an oracle of fresh ids, and parsing inverts serialising.
- The size rule in runs of the assertion log: a roll is a choice made from outside at every append, which covers every size limit; `SegmentWriter.AppendGroup` has the rule itself.
- Belief time as text: instants are integers, because canonical UTC strings sort as their instants do.
- A final segment torn inside its header: the load refuses it and what an operator then does is not modelled.
- `scanSegmentLog`'s distinction between an unparseable line and an unknown record kind: both are one refusal; the format-mismatch refusal cannot be reached by the model's records.
- The compactor's refusal on a log that needs repair: worlds only hold repaired logs.
- The list of conflicting supersessions in the load report: no reachable disk has any.
- Fields nothing here reads (kind, value, evidence, confidence, display names, provenance details) are one opaque text.
- `readSubmissionById`, `rename`'s refusal texts and the matched traits of an ambiguous match, which only add easy members.
- Order of a bundled document's embedded definitions: they are listed in no particular order, where the generator sorts them; nothing resolves by it.
- Lone surrogates and the order of characters outside the basic plane in canonical keys: texts are sequences of scalar values in code-point order; the theorems use only that the order is total.
- White space and fractions in the JSON reader: no canonical text of the values here holds them.
- Descriptions and the `x-atlas` keywords of rendered schemas, which validate nothing.
- Unresolvable and same-document references: `BundlingKeepsMeaning` takes the first to accept nothing and the second to mean the same in both.
- `BundlingKeepsMeaning`: for names without a `#`, because one with a `#` is looked up only as far as it (`DefRefSplits`).
- An `anyOf` without options: JSON Schema forbids it, an author can write it, and it is taken to ask nothing; an `additionalProperties` that is neither absent nor false is taken to ask nothing either.
- Numbers other than integers, undefined array items and repeated keys in canonical JSON: `TextIsFaithful` is about values a parser or a draft can produce; `UndefinedItemReadsAsNull` shows what the second costs.
- `InputNamesNoRecord`: stated for definition references as rendered, so a definition whose name itself contains `:record:` counts as naming one, as the check has it.
- `WatermarkNeverRunsAhead`: one process, since which cursors a client keeps across a crash is up to the client.
- `AsOfReadsAreRepeatable`: starts from a log in sync with its disk, which every reopened log is, because a stamp lost to an earlier compaction would come back unstamped.
- packages/atlas-client, packages/atlas-mcp, packages/atlas-gates, packages/atlas-e2e and packages/activity-replay: network and SDK plumbing, access checks, build lints and harnesses.
