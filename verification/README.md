# A verified model of the audit log and its neighbours

This project models the tamper-evident audit log of a workspace and five smaller state machines beside it,
and proves what their source and documentation promise. `dafny verify dfyconfig.toml` checks everything.

## The audit log

The log is a hash-linked list of JSON lines, kept in one live file, rotated archives, and a file of cut
records that stand in for pruned history. Four parts have to agree about it.

- **The verifier** (`ChainWalk`) walks every line, oldest first. Its specification is a left fold that
  remembers one damaged line; the method is the source's own loop. `ChainMeaning` says without any walk which logs
  are accepted; `ChainCounts` tells every number of the answer, and every failure, from the lines; `ChainFacts` and
  `ChainEvidence` say what acceptance implies, which changes the links make evident, and which they do not.
- **Cut records** (`ChainCuts`, `ChainPrune`) summarise what a prune removes.
- **The writer** appends, repairs a torn end, rotates, prunes and hands over between windows. `WriterSteps`
  gives each step as a function of the whole state and of how every read and write ends; `AuditLogWriter` is the
  object of the source, with its fields, whose methods are proved to do exactly that.
- **The head checkpoint** (`Checkpoint`) is kept outside the log, so that a lost end is noticed.

`AuditDisk`, `Retention` and `DiskHistory` relate the files to the history behind them: every chained row ever
landed, of which the files hold the end. `RetentionRuns` says which archives a prune, a rotation and a sweep keep.
`WriterRuns` shows what each step keeps, and `WriterAnswers` exactly when each answers what and what it then stores.
`WindowRuns` runs any number of windows, interleaved step by step, with torn writes, restarts, crashes before a
checkpoint advance, and changes of owner. `LossRuns` runs them after rows were removed from outside; `LossEnds` says
how that ends.

### What the runs assume

- A digest is a free constructor on a line. It stands for SHA-256 (section 6.2 of FIPS 180-4): injective, never
  `genesis`, and no line contains its own digest.
- How a read, an append, a rename, an unlink or a checkpoint write ends is an input of the step, as are times, row
  ids and whether a rotation threshold is passed.
- A rotation makes the newest archive, by stamp and by time, and the cut record of a prune is written. Without the
  first see `Retention.PrefixIffTimesInOrder`, without the second `ChainEvidence.RemovedRangeIsEvident`.
- Each acquisition has a fresh fence, and one window holds it while a step runs. A checkpoint advance may run after
  the fence has moved on.
- A live log without a line that is not blank is below both rotation thresholds.
- Every line that parses is an object; blank space around a line is not modelled.
- In runs after a loss, row ids are none that the checkpoint or a window holds, as UUIDs are. The files
  that remain after a removal keep the layout the writer gives them: an archive still holds a line that is not blank.

### Where the code does less than one might expect

- `noteChainVerified` advances the checkpoint whatever it answers. A writer that holds an older row, one that is still
  in the files or pruned, and can store it, so overwrites the checkpoint, and a found loss is no longer reported: a
  window that is not the owner, the owner when the loss is not yet settled for, and either when the break is no longer
  known (`LossRuns.NoteErases`, `LossRuns.NoteErasesHere`). A writer that holds a lost row moves the checkpoint to
  that, and the loss is still reported. With no file present the same advance makes a false report of loss
  (`WindowRuns.NoteOverNothing`).
- A diagnosed damaged line can be blanked or removed unseen, or replaced by a legacy row before the chain begins, or by
  a cut record that the walk takes there and that leaves the link of the diagnosis acceptable
  (`ChainEvidence.ChangedDamageIff`, `ChainEvidence.DamageReplacements`).
- A cut record that claims a chained row as legacy tail lets that row be edited or removed
  (`ChainEvidence.EditedRowIff`, `ChainEvidence.RemovedRangeIff`).
- A damage row that is itself torn leaves two damaged lines in a row, which `verifyChain` reports as malformed until
  retention removes them (`ChainFacts.AcceptedIff`, `WindowRuns.LandedRowsAreAccepted`,
  `WindowRuns.TornDamageRow`).
- Recovery is installed on the result of the election even when the fence was lost in the meantime, and then only
  (`StartUp.InstalledOnCurrentResult`, `StartUp.StaleResultInstalls`). A call of `installRecovery` waits for the runs
  started before it and for no other (`StartUp.CallWaitsForEarlierRunsOnly`, `StartUp.CallOvertakesLaterRunsOnly`,
  `StartUp.LaterRunIsNotAwaited`).
- A touched archive can outlive a newer one (`Retention.PrefixIffTimesInOrder`).

## The smaller cores

- `CanonicalJson` is the recursive printer over a graph of heap objects, with its set of ancestors and its depth
  bound; `CanonicalText` is the text and a parser for it; `StrictText` is a reader that takes one spelling only, and
  `CanonicalMeaning` says what a text and a refusal tell of the body. A finite number is its shortest decimal text, as ECMAScript
  prints it; escapes follow section 7 of RFC 8259.
- `GenerationClock` is the cached start of the live audit generation.
- `Transcripts` is the map of per-run promise chains.
- `StartUp` is the pair of start-up latches, with a step at every await.
- `CatalogWrites` is the record-then-manifest save.

## Model

| member | source | states |
|---|---|---|
| `ChainWalk.VerifyChain` | `src/audit/audit-chain.ts:384-557` | the loop, which looks ahead from a damaged line, answers what the left fold with one line of memory answers, for every list of lines and every probe: verdict, first failing entry, counts, damages, positions; what those say of the lines is `ChainCounts.AnswerTold`, `ChainCounts.DamagesTold` and `ChainCounts.FailureTold` |
| `ChainCounts.AnswerTold` | `src/audit/audit-chain.ts:452-557` | of every accepted log, cut records included: entries, cuts and unchained prefix are the chained rows, cut records and legacy rows counted line by line; the pruned rows and legacy rows are what the records say they removed; the tail is their sum with the rows; the transition is told by the first link; and the probe is found at the position of the first row with its digest, or there is none |
| `ChainCounts.FailureTold` | `src/audit/audit-chain.ts:426-557` | of every other log: the lines before the failing one are taken, and the failing one is a damaged line that the next non-blank line does not diagnose, or does not fit after them, with the one reason and detail for what is wrong with it |
| `ChainCounts.WalkedIsRight` | `src/audit/audit-chain.ts:452-551` | no line of a walked log is wrong for any reason a log fails for, damage apart: records are whole and join, legacy rows come before the chain begins, links agree |
| `ChainCounts.DamagesTold` | `src/audit/audit-chain.ts:430-439` | one reported damage for each damaged line, in order, with its place, its length in bytes and its digest |
| `ChainWalk.DiagnoseDamage` | `src/audit/audit-chain.ts:569-600` | a damaged line is diagnosed exactly when the next non-blank line is a damaged-tail row of the known version with its length, its digest and the link that stood before it |
| `ChainCounts.DiagnosisTold` | `src/audit/audit-chain.ts:569-600` | the row is of version 1, with the length and the digest of the damaged line and the link before it, and nothing else diagnoses it |
| `ChainFacts.AcceptedIff` | `src/audit/audit-chain.ts:426-557` | for all lines, cut records included: accepted if and only if the walk that passes over a damaged line followed by another takes every line (so any other damaged line is diagnosed by the row after it), no damaged line is followed by another, and the last line is not damaged |
| `ChainMeaning.AcceptedMeans` | `src/audit/audit-chain.ts:426-557` | a log, cut records first, is accepted if and only if each record is whole and begins where the one before it ended, legacy rows come first, the chained rows link each to the one before and the first to what the records leave or else to genesis or the last legacy row, and every damaged line is diagnosed by the next non-blank line |
| `ChainMeaning.AcceptedWithoutCuts` | `src/audit/audit-chain.ts:426-557` | the same of a log without cut records, where the first row links to genesis or to the last legacy row |
| `ChainMeaning.CutsWalk` | `src/audit/audit-chain.ts:452-508` | the walk takes cut records if and only if they join, and then stands on the last row they removed or on the last legacy row they account for |
| `ChainMeaning.WalksIffDeclared` | `src/audit/audit-chain.ts:426-557` | from where cut records leave it, the walk takes lines if and only if they link and damage is diagnosed so far (the last damaged line may still wait); it then stands on the last chained row, or what the records left |
| `ChainFacts.AcceptedReportsDamage` | `src/audit/audit-chain.ts:430-439` | an accepted log reports exactly its damaged lines, in order |
| `ChainFacts.CountsRows` | `src/audit/audit-chain.ts:549-556` | over lines without cuts the walk counts the chained rows and finds the probe at the position of its first occurrence |
| `ChainEvidence.RowsAreLinked` | `src/audit/audit-chain.ts:511-551` | the chained rows a walk accepts are linked each to the one before, from a link the start accepts |
| `ChainEvidence.Binding` | `src/audit/audit-chain.ts:511-551` | two accepted cut-free logs with one head digest have the same chained rows in the same order, the same transition, and for a legacy-tail transition the same last legacy row |
| `ChainEvidence.StopsAtFirstLink` | `src/audit/audit-chain.ts:530-544` | a walk that stands on another link than the right one fails at its pending damaged line or at the first non-blank line after |
| `ChainEvidence.EditedRowIsEvident` | `src/audit/audit-chain.ts:530-551` | a chained row, not the last, replaced by anything but a cut record makes an accepted log fail, at the replacement or at the first line whose link stops agreeing, unless a cut record before it claims the row as legacy tail |
| `ChainEvidence.EditedRowIff` | `src/audit/audit-chain.ts:426-551` | whatever replaces the row, another cut record and a damaged line included, and whatever earlier cut records claim: unseen if and only if the walk takes it, then accepts the digest of the row as a link, and a damaged replacement is diagnosed by the next line |
| `ChainEvidence.RowReplacedByCut` | `src/audit/audit-chain.ts:452-508` | a row replaced by a cut record goes unseen if and only if the walk accepts the record there and it leads to the row's digest |
| `ChainEvidence.RemovedRangeIsEvident` | `src/audit/audit-chain.ts:530-544` | an interior range of chained rows taken out without a cut record (also what a prune leaves whose record was not written) makes the log fail, at the first line whose link stops agreeing, unless a cut record before it claims the last row of the range as legacy tail |
| `ChainEvidence.RemovedRangeIff` | `src/audit/audit-chain.ts:426-551` | exactly when such a removal goes unseen, which needs such a claim |
| `ChainEvidence.ChangedDamageIsEvident` | `src/audit/audit-chain.ts:589-593` | other bytes that do not parse either, in place of a diagnosed damaged line, fail as malformed at that line |
| `ChainEvidence.ChangedDamageIff` | `src/audit/audit-chain.ts:426-600` | any line in place of a diagnosed damaged line, whatever follows: accepted if and only if it is the same damaged line, or blank, or a line the walk takes there that leaves the link of the diagnosis acceptable |
| `ChainEvidence.DamageReplacements` | `src/audit/audit-chain.ts:426-600` | so a blank line passes, other damage never, a legacy row only before the chain begins and when the diagnosis links to genesis or to it, a chained row only when a cut record before it claims it as legacy tail |
| `ChainEvidence.RemovedEndIsUnseen` | `src/audit/audit-chain.ts:426-557` | removing the end is seen by the links alone if and only if what is kept ends in a damaged line: that is what the head checkpoint is for |
| `ChainEvidence.RemovedDamageIsUnseen` | `src/audit/audit-chain.ts:433-439` | removing a diagnosed damaged line whole leaves the log accepted, whatever follows |
| `ChainCuts.AuditCutAccumulator.AppendCutLine` | `src/audit/audit-chain.ts:121-137` | one removed line changes the accumulator as the summary function says |
| `ChainCuts.AuditCutAccumulator.AppendCutText` | `src/audit/audit-chain.ts:143-152` | the scan by newline positions equals the fold over the split lines |
| `ChainCuts.AuditCutAccumulator.MergeFrom` | `src/audit/audit-chain.ts:154-166` | the accumulator becomes the merge of both summaries |
| `ChainCuts.SummariseIsMerge` | `src/audit/audit-chain.ts:121-166` | going on from a summary equals starting afresh and merging |
| `ChainCuts.MergeIsMonoid` | `src/audit/audit-chain.ts:154-166` | merging is associative and the empty accumulator is its unit |
| `ChainCuts.MergedArchives` | `src/audit/audit-chain.ts:154-166` | merging the archives' summaries oldest first gives the summary of all their lines |
| `ChainCuts.CutRecordFor` | `src/audit/audit-chain.ts:220-229` | the record for all lines of a prune is the finalised summary |
| `ChainCuts.RecordTold` | `src/audit/audit-chain.ts:168-229` | of any removed lines: no record exactly when nothing that parses was removed; else it counts the lines that are not blank, the chained rows and the others, stands between the first row's link and the last row, or at genesis when there is none, and names the last legacy row exactly when one was removed |
| `ChainCuts.JoinThenSplit` | `src/audit/audit-chain.ts:143-152` | splitting inverts joining lines that hold no newline |
| `ChainCuts.SplitThenJoin` | `src/audit/audit-chain.ts:143-152` | joining inverts splitting, and no part holds a newline |
| `ChainPrune.PrunePreservesMeaning` | `src/audit/audit-chain.ts:452-508` | a prefix of whole lines replaced by its cut record keeps the verdict, the tail position and the transition, conserves legacy rows, and moves the chained rows from entries to prunedThrough |
| `AuditDisk.ReadCutLink` | `src/audit/audit-chain.ts:852-873` | the link read from the cut file |
| `AuditDisk.CutLinkIsLink` | `src/audit/audit-chain.ts:852-873` | that link is where the walk stands after the cut records |
| `AuditDisk.ReadChainTail` | `src/audit/audit-chain.ts:809-844` | the last non-blank line of the archives and live log, where it stands, whether it is valid and ended, and the nearest valid line before a damaged one |
| `AuditDisk.LinkChoiceAgrees` | `src/audit/audit-chain.ts:809-873` | on every log whose links hold, torn end or not, the link chosen from the end of the files is the one the walk expects next |
| `AuditDisk.ChosenLinkIsAccepted` | `src/audit/audit-log-writer.ts:716-751` | a row with the chosen link, or after a damaged end the row that diagnoses it, makes or keeps the log accepted |
| `Retention.ReadInStampOrder` | `src/audit/audit-chain.ts:646-669` | whatever order the directory lists the archives in, they are read in the order of their stamps |
| `Retention.KeepNewest` | `src/audit/audit-log-writer.ts:1048-1054` | the archives kept: among the newest up to the budget, those young enough |
| `Retention.PruneCandidates` | `src/audit/audit-log-writer.ts:1045-1070` | the archives to prune, oldest first |
| `Retention.PrunesOldestFirst` | `src/audit/audit-log-writer.ts:1045-1069` | when stamps and times increase together, what is pruned of any listing is a prefix of the order in which the chain is read |
| `Retention.PrefixIffTimesInOrder` | `src/audit/audit-log-writer.ts:1045-1069` | for all archives in the order of their stamps: every prune, whatever its budget and time, removes a prefix if and only if the times never decrease |
| `Retention.TouchedArchiveOutlivesNewer` | `src/audit/audit-log-writer.ts:1045-1069` | any archive with a later time than one after it is kept while that one is pruned, under a budget and at a time named |
| `RetentionRuns.PruneSparesKept` | `src/audit/audit-log-writer.ts:1048-1140` | however a prune ends, no archive is removed that is young enough and has fewer than the budget newer than it |
| `RetentionRuns.PruneKeepsExactly` | `src/audit/audit-log-writer.ts:1048-1140` | when every read and write of it succeeds, exactly those archives remain |
| `RetentionRuns.PruneKeepsNewest` | `src/audit/audit-log-writer.ts:1048-1140` | and of archives in chronological order, exactly the newest, up to the budget and while young enough, in their order |
| `RetentionRuns.RotationKeeps` | `src/audit/audit-log-writer.ts:957-1000` | the same of the archives with the new one, which holds all lines of the live log |
| `RetentionRuns.SweepKeeps` | `src/audit/audit-log-writer.ts:343-351` | the same of the start-up sweep, by the owner and once |
| `RetentionRuns.BreakIff` | `src/audit/audit-log-writer.ts:1141-1150` | a prune notes a break if and only if it unlinked an archive that held an entry and could not write the record |
| `RetentionRuns.CutFileTold` | `src/audit/audit-log-writer.ts:1109-1145` | the cut file after a prune: opened when an archive about to go holds an entry, with one record more, that of all lines gone, when one that went did and the record is written, else as it was |
| `AuditLogWriters.AuditDirectory.AppendBytes` | `src/audit/audit-log-writer.ts:923-946` | one append leaves the live log as its landing says: nothing, some bytes, the line without newline, or all of it |
| `WriterAnswers.AppendTold` | `src/audit/audit-log-writer.ts:923-946` | line by line: refused, nothing changes; else the live log is there, and the line stands after what it held, whole with a newline or without, in part as a line that does not parse, or not at all |
| `AuditLogWriters.UnlinkAll` | `src/audit/audit-log-writer.ts:1127-1140` | archives are unlinked in order until one fails, and their summaries merged |
| `AuditLogWriters.AuditDirectory.EndLine` | `src/audit/audit-log-writer.ts:722` | the newline a last line lacks is one byte: all or nothing |
| `AuditLogWriters.SelectForPrune` | `src/audit/audit-log-writer.ts:1045-1107` | the archives a prune reads and summarises before it unlinks any, and whether a cut record may be owed |
| `AuditLogWriters.AuditLogWriter.PruneArchives` | `src/audit/audit-log-writer.ts:1010-1156` | files and noted break after a prune, for every point at which it can stop; which archives those are is `RetentionRuns.PruneKeepsExactly` |
| `AuditLogWriters.AuditLogWriter.MaybeRotate` | `src/audit/audit-log-writer.ts:957-1000` | the live log becomes the newest archive when a threshold is passed, then a prune |
| `AuditLogWriters.AuditLogWriter.DoWrite` | `src/audit/audit-log-writer.ts:911-915` | rotation, then the append |
| `AuditLogWriters.AuditLogWriter.SettleCheckpoint` | `src/audit/audit-log-writer.ts:781-840` | files, fields and result of settling the checkpoint mode; which mode that is is `WriterAnswers.ModeTold` and `WriterAnswers.CheckTailTracks` |
| `AuditLogWriters.AuditLogWriter.RepairTail` | `src/audit/audit-log-writer.ts:716-728` | the end of the log is terminated, its damage recorded, and the link chosen |
| `AuditLogWriters.AuditLogWriter.RecordDamage` | `src/audit/audit-log-writer.ts:734-751` | one row that diagnoses the damaged line, linked to what stood before it |
| `AuditLogWriters.AuditLogWriter.CheckTail` | `src/audit/audit-log-writer.ts:716-731` | repair, then settle; the debt is cleared only when both succeed |
| `AuditLogWriters.AuditLogWriter.WriteStep` | `src/audit/audit-log-writer.ts:669-708` | files, fields and result of one append under a fence, for every way its reads and writes can end |
| `AuditLogWriters.AuditLogWriter.LandRow` | `src/audit/audit-log-writer.ts:683-706` | a row with the link the writer holds, and that link and count moved forward only when it lands |
| `AuditLogWriters.AuditLogWriter.WriteRow` | `src/audit/audit-log-writer.ts:681-708` | a tail check first when one is owed under this fence |
| `AuditLogWriters.AuditLogWriter.ReadCheckpoint` | `src/audit/audit-log-writer.ts:443-449` | what the port answers, a failure read as unreachable |
| `AuditLogWriters.AuditLogWriter.WalkChain` | `src/audit/audit-chain.ts:742-762` | no verdict without a file, otherwise that of the verifier over every file |
| `AuditLogWriters.AuditLogWriter.AdvanceCheckpoint` | `src/audit/audit-log-writer.ts:858-885` | the landed row becomes the stored head, or tracking stops |
| `AuditLogWriters.AuditLogWriter.NoteChainVerified` | `src/audit/audit-log-writer.ts:376-429` | the recovery row and its result, up to the advance that follows |
| `AuditLogWriters.AuditLogWriter.RetireCheckpoint` | `src/audit/audit-log-writer.ts:457-488` | a checkpoint is retired only by the owner and with no file present |
| `AuditLogWriters.AuditLogWriter.ReanchorLink` | `src/audit/audit-log-writer.ts:533-541` | the link a re-anchoring row takes from the end of the log |
| `AuditLogWriters.AuditLogWriter.WriteReanchorRow` | `src/audit/audit-log-writer.ts:542-560` | the re-anchoring row, and a tail check owed when it does not land |
| `AuditLogWriters.AuditLogWriter.ReanchorCheckpoint` | `src/audit/audit-log-writer.ts:496-587` | the verified head, with its row on the record, becomes the checkpoint |
| `AuditLogWriters.AuditLogWriter.RunArchiveMaintenance` | `src/audit/audit-log-writer.ts:343-351` | the sweep runs once, for the owner |
| `Checkpoint.LossModeIsReportedLoss` | `src/audit/audit-checkpoint.ts:170-239` | the writer settles for loss exactly when a verification with the same facts reports one, the no-walk answer apart |
| `WriterAnswers.ModeTold` | `src/audit/audit-checkpoint.ts:215-239` | each mode, off among them, if and only if the checkpoint, the files and the walk are so, and the position it counts from, for all of them |
| `WriterAnswers.LossTold` | `src/audit/audit-checkpoint.ts:170-191` | each finding of a verification if and only if the checkpoint and the walk are so, with its numbers |
| `DiskHistory.AppendKeepsHistory` | `src/audit/audit-log-writer.ts:687-706` | an append with the right link, torn or not, extends or keeps the history behind the files |
| `DiskHistory.RotateKeepsHistory` | `src/audit/audit-log-writer.ts:992-999` | renaming the live log moves no line of the walk |
| `DiskHistory.PruneKeepsHistory` | `src/audit/audit-log-writer.ts:1062-1152` | a prune keeps the history, the link, some file, and makes no damaged pair |
| `WriterRuns.SettledIsSound` | `src/audit/audit-checkpoint.ts:220-239` | with true facts the settled mode is never loss, and in every mode that advances the position is the last row's: the no-walk answer is the walk's |
| `WriterRuns.NoFalseAlarm` | `src/audit/audit-checkpoint.ts:170-191` | no verification of a sound state reports a loss |
| `WriterRuns.CheckTailKeeps` | `src/audit/audit-log-writer.ts:716-731` | a tail check keeps the history linked, and leaves link and position those of the files |
| `WriterAnswers.CheckTailTracks` | `src/audit/audit-log-writer.ts:716-840` | of any sound state: after a tail check that succeeds the writer advances if and only if the checkpoint can be read and there is no file, or its head is the end of the repaired log, or that can be walked and is accepted; then at the position of the last row, with the origin of what was found (new, adopted, reset, tracked); else it is off |
| `WriterAnswers.CheckTailSucceeds` | `src/audit/audit-log-writer.ts:716-731` | a tail check succeeds if and only if the tail can be read, and the newline, the damage row and the reset row land that the files and the checkpoint call for |
| `WriterRuns.WriteRowKeeps` | `src/audit/audit-log-writer.ts:669-708` | a row step keeps the history linked and the checkpoint behind the log; a landed row leaves the writer up to date, a failed one owes a tail check |
| `WriterAnswers.RowSucceeds` | `src/audit/audit-log-writer.ts:669-708` | a row step succeeds if and only if the tail check it owes does and the row lands whole; the link then held is that of a row with the given body |
| `WriterAnswers.AppendLandsEntry` | `src/audit/audit-log-writer.ts:669-708` | an append that succeeds holds the fence and lands an entry |
| `WriterAnswers.AdvanceStoresLast` | `src/audit/audit-log-writer.ts:858-885` | the advance of an up-to-date writer stores the last row at the verifier's tail position and tracks, if and only if it advances, its port was readable and the write succeeds; else the checkpoint stays, and after a refused or failed write the writer is off |
| `WriterAnswers.RowIsTracked` | `src/audit/audit-log-writer.ts:669-885` | after the first row under a fence and its advance, the checkpoint is that row at its position, with the origin of what was found, whenever the checkpoint could be read and the log compared with it; and else what it was |
| `WriterRuns.ReanchorKeeps` | `src/audit/audit-log-writer.ts:529-586` | a re-anchoring extends the history and stores its last row at its position |
| `WriterRuns.RetireKeeps` | `src/audit/audit-log-writer.ts:457-488` | without loss there is nothing to retire |
| `WriterAnswers.RetireTold` | `src/audit/audit-log-writer.ts:457-488` | each answer of a retirement if and only if it is so; the record keeps origin and establishment and tells at which position and when it was retired |
| `WriterAnswers.ReanchorTold` | `src/audit/audit-log-writer.ts:496-587` | each answer of a re-anchoring; it stores its row at the position after the verified tail if and only if all its checks, reads and writes succeed, and overwrites a checkpoint it cannot read only when allowed |
| `WriterAnswers.NoteTold` | `src/audit/audit-log-writer.ts:376-429` | each answer of a noted verification, and the numbers its row records: those of the chained rows and cut records in the files |
| `WindowRuns.StepKeeps` | `src/audit/audit-log-writer.ts:315-336` | every step of every window keeps the invariant of the files, the stored checkpoint and all windows |
| `WindowRuns.RunsGoOn` | `src/audit/audit-log-writer.ts:669-708` | at every point of every run the files are ready for whatever is allowed next |
| `WindowRuns.LandedRowsAreAccepted` | `src/audit/audit-log-writer.ts:669-751` | after every landed row of every run, an entry, a noted verification or a re-anchoring: accepted if and only if no damaged line follows another, always so when no damage row was torn; the damages are the torn lines retained; the count of the writer is the verifier's tail position |
| `WindowRuns.NoRunForks` | `src/audit/audit-log-writer.ts:669-708` | in every run with any number of windows, retained rows link each to the one before, and a window that owes no tail check under its fence holds the link of the files |
| `WindowRuns.NoRunAlarms` | `src/audit/audit-log-writer.ts:781-885` | in every run, a crash between a row and its checkpoint advance included, no verification reports a loss |
| `WindowRuns.NoRunSettlesForLoss` | `src/audit/audit-log-writer.ts:781-840` | in every run, no window ever settles for loss |
| `WindowRuns.HeadAsTailAgrees` | `src/audit/audit-checkpoint.ts:230-238` | in every run, when the stored head is the files' link and the full walk is intact, it finds the head at the stored position or pruned, and the tail at that position |
| `WindowRuns.TornDamageRow` | `src/audit/audit-log-writer.ts:734-751` | a torn damage row leaves a log no later row makes acceptable |
| `WindowRuns.NoteOverNothing` | `src/audit/audit-log-writer.ts:376-429` | a verification noted with no file present is followed by a false report of loss if and only if, before the note, the writer holds something the advance would store, and it can be stored |
| `WindowRuns.RefusedFirstRow` | `src/audit/audit-log-writer.ts:669-708` | such a writer exists: its first row was refused |
| `LossRuns.LossIsReported` | `src/audit/audit-checkpoint.ts:170-191` | with the checkpointed row gone and not pruned, a verification answers shorter, missing, or not intact |
| `LossRuns.SettlesForLoss` | `src/audit/audit-checkpoint.ts:220-239` | a tail check then settles for a mode that never advances |
| `LossRuns.LossStep` | `src/audit/audit-log-writer.ts:858-885` | every step but a retirement, a re-anchoring or a note that would store a row the files hold keeps the loss to be found; the checkpoint moves only by a note, and then to another lost row |
| `LossRuns.NoteStoresBefore` | `src/audit/audit-log-writer.ts:858-885` | a note that, by the state before it, would store nothing leaves a writer that does not advance |
| `LossRuns.LossStaysFound` | `src/audit/audit-log-writer.ts:820-885` | over any such run every verification reports the loss or a broken chain, until retention has pruned as many rows; when no note stores anything, the stored checkpoint does not move |
| `LossRuns.RemovalShortens` | `src/audit/audit-checkpoint.ts:160-191` | files whose newest lines were removed, all chained rows of an unpruned log included, hold the history up to there, without the removed rows |
| `LossRuns.RemovedHeadStaysFound` | `src/audit/audit-log-writer.ts:820-885` | from any run without loss, over a removal of the newest lines with the checkpointed row among them, while the owner owes a tail check and no pending advance stores a row that is kept, to any run after it whose steps leave the loss: every verification reports the loss or a broken chain |
| `LossRuns.ReplacedFilesStayFound` | `src/audit/audit-log-writer.ts:820-885` | the same, under the same two conditions, when the files are replaced by none, by emptied ones, or by legacy rows alone |
| `LossEnds.RemovalThenEntryBreaks` | `src/audit/audit-log-writer.ts:681-706` | rows removed while the owner owes no tail check: its next entry that lands makes every verification answer that the chain is not intact, for as long as that entry and the lines before it stay |
| `LossEnds.ReanchoringEndsLoss` | `src/audit/audit-log-writer.ts:496-587` | a re-anchoring ends a loss: when no other window holds a lost row to store, the invariant of runs without loss holds again, and no later verification reports a loss |
| `LossEnds.RetirementEndsLoss` | `src/audit/audit-log-writer.ts:457-488` | so does a retirement, with the next row of that window that lands |
| `LossRuns.NoteErases` | `src/audit/audit-log-writer.ts:376-429` | whatever the fence, the files and what the writer holds, and whether or not the break is still known: a note that leaves the files as they are ends a reported loss if and only if the advance stores what the writer holds, and the walk finds that at the position the writer counts, or as pruned |
| `LossRuns.NoteErasesHeld` | `src/audit/audit-log-writer.ts:376-429` | of files with a history: if and only if the files hold that row there, which is the condition of the runs |
| `LossRuns.NoteErasesHere` | `src/audit/audit-log-writer.ts:376-429` | a concrete state in which it does not survive, shorter before and consistent after, for the owner and for another window, with the break known and not |
| `CanonicalText.StringRoundTrip` | `src/catalog/canonical-json.ts:97-100` | reading back an escaped string, lone surrogates and control characters included, gives the string |
| `StrictText.StrictRoundTrip` | `src/catalog/canonical-json.ts:97-100` | the same for a reader that refuses raw control characters, halves of a pair on their own, and escapes where a shorter spelling would do |
| `StrictText.StrictIsUnique` | `src/catalog/canonical-json.ts:97-100` | what that reader takes as a string is the one text that is printed for it |
| `StrictText.PrintedIsWellFormed` | `src/catalog/canonical-json.ts:81-147` | no printed text holds a control character, and every half of a pair in it is in a pair |
| `StrictText.WordsAreJson` | `src/catalog/canonical-json.ts:81-147` | the words and the punctuation are those of JSON, letter by letter |
| `CanonicalText.ParsePrinted` | `src/catalog/canonical-json.ts:81-147` | a parser recovers every value from its text, whatever may follow it |
| `CanonicalText.PrintIsInjective` | `src/catalog/canonical-json.ts:81-147` | two values have one text if and only if they are equal |
| `CanonicalJson.Write` | `src/catalog/canonical-json.ts:81-147` | on every graph of objects the recursion ends, leaves the set of ancestors as it was, returns a text exactly when the graph unfolds to a value at most 100 containers deep, and otherwise names a path to what is refused and why; what that text and that refusal say of the body is `CanonicalMeaning.TextSays` and `CanonicalMeaning.RefusalTold` |
| `CanonicalMeaning.TextSays` | `src/catalog/canonical-json.ts:81-168` | a text is the strict spelling of a value that has the scalars of the body, its items in order, and its defined properties with keys ascending |
| `CanonicalMeaning.RefusalTold` | `src/catalog/canonical-json.ts:81-147` | at the end of the named path stands a number that is none, a value that is not JSON, a container met on the way, or one a hundred containers down, as the reason says |
| `CanonicalJson.WriteElements` | `src/catalog/canonical-json.ts:122-128` | items in authored order, joined by commas, under the same contract |
| `CanonicalJson.WriteProperties` | `src/catalog/canonical-json.ts:132-143` | defined properties in key order, joined by commas, under the same contract |
| `CanonicalJson.CanonicalOf` | `src/catalog/canonical-json.ts:156-168` | the same from the root |
| `CanonicalJson.AncestorMetAgain` | `src/catalog/canonical-json.ts:112-113` | an object met below itself has no unfolding, so refusing it refuses no printable body |
| `CanonicalJson.CyclicIsACycle` | `src/catalog/canonical-json.ts:112-113` | an offence as cyclic below a value lies on a cycle that continues the way from the root through that value |
| `CanonicalJson.CyclicBodyIsCyclic` | `src/catalog/canonical-json.ts:112-113` | a body refused as cyclic leads, container by container, to an object and from it back to it: sharing alone is never refused so |
| `CanonicalJson.TextIsAcyclic` | `src/catalog/canonical-json.ts:112-113` | a text is returned only for acyclic bodies: nothing a body with a text leads to is one of the containers on the way |
| `CanonicalJson.TextIsNotTooDeep` | `src/catalog/canonical-json.ts:118` | a body with a text is at most 100 containers deep |
| `CanonicalJson.PrintedKeysAscend` | `src/catalog/canonical-json.ts:135-142` | the keys printed are exactly the defined ones, ascending: where two first differ the smaller code unit comes first, and a key before those it begins |
| `CanonicalJson.OneTextIffSame` | `src/catalog/canonical-json.ts:81-147` | two bodies have one text if and only if they are equal up to the order of properties, undefined properties and the sign of zero |
| `CanonicalJson.TextParsesBack` | `src/catalog/canonical-json.ts:156-168` | parsing a body's text gives the value it stands for |
| `GenerationClock.GenerationStart` | `src/audit/audit-generation-age.ts:22-30` | the oldest usable time at or before the first observation, or that; never later |
| `GenerationClock.AuditGenerationClock.Observe` | `src/audit/audit-generation-sidecar.ts:115-138` | cache, sidecar and answer of an observation |
| `GenerationClock.ObserveTold` | `src/audit/audit-generation-sidecar.ts:115-138` | the cached start when there is one; now, and nothing cached or written, when there is no generation to read; else the oldest usable time of the rows up to the first observation |
| `GenerationClock.SameIdentityIff` | `src/audit/audit-generation-sidecar.ts:119-121` | two generations have one identity if and only if their first lines that are not empty have the same bytes |
| `GenerationClock.OtherSidecarIsNotTaken` | `src/audit/audit-generation-sidecar.ts:120-134` | a sidecar gives the first observation if and only if it can be read and is of this generation; else that is now, and is written |
| `GenerationClock.AuditGenerationClock.Landed` | `src/audit/audit-generation-sidecar.ts:141-145` | the cache stays the recomputed start when a row lands |
| `GenerationClock.AuditGenerationClock.Rotated` | `src/audit/audit-generation-sidecar.ts:148-150` | the next generation has no start yet |
| `GenerationClock.CacheAgrees` | `src/audit/audit-generation-sidecar.ts:115-150` | after any calls the cached start equals the one recomputed over the live log, and is no later than the first observation |
| `GenerationClock.UnnoticedRow` | `src/audit/audit-generation-sidecar.ts:141-145` | a row appended without `landed` leaves the cache right if and only if it is not usable and older |
| `GenerationClock.UnnoticedRotation` | `src/audit/audit-generation-sidecar.ts:148-150` | a rotation by another window, whatever the new log holds: the cache is right if and only if it is the start of the new rows; it agrees with a clock started afresh if and only if it is their start from the first observation of the new generation; and it answers later than that clock if and only if an older usable row or an earlier first observation is there |
| `GenerationClock.RestartRemembers` | `src/audit/audit-generation-sidecar.ts:125-137` | once the sidecar is written, a restart reckons the same generation from the same first observation |
| `Transcripts.RawTranscriptWriter.Chain` | `src/audit/raw-transcript-writer.ts:500-506` | a call chains after the map's entry and becomes it |
| `Transcripts.RawTranscriptWriter.GoOn` | `src/audit/raw-transcript-writer.ts:325-329` | a body begins when what it waits for was fulfilled, and is skipped when that was rejected |
| `Transcripts.RawTranscriptWriter.ReleaseChain` | `src/audit/raw-transcript-writer.ts:515-521` | an entry is dropped only while it is the settled link's own |
| `Transcripts.OneAtATimeInOrder` | `src/audit/raw-transcript-writer.ts:325-363` | over all interleavings, for each run, bodies begin in submission order and one begins only when all earlier ones have settled |
| `Transcripts.EntriesGo` | `src/audit/raw-transcript-writer.ts:500-521` | the map holds the last link of a run, or every link of it has settled; when all is done an entry remains if and only if the last link of the run is a finalization that was not fulfilled |
| `Transcripts.MapEmpties` | `src/audit/raw-transcript-writer.ts:354-363` | when no body rejects, as here, the map ends empty |
| `Transcripts.LinkSettlesAsItsBody` | `src/audit/raw-transcript-writer.ts:325-363` | over all interleavings, a link is fulfilled if and only if its body was, rejected if and only if its body was or was skipped, and its body began if and only if that happened |
| `Transcripts.RejectedFinalizationStays` | `src/audit/raw-transcript-writer.ts:357-362` | a concrete run in which a rejected finalization keeps its entry |
| `StartUp.Stage2Producers.Run` | `src/activation/stage2-producers.ts:442-453` | a call starts the work, joins it, or does nothing |
| `StartUp.Stage2Producers.InstallRecoveryProducers` | `src/activation/stage2-producers.ts:312-323` | the latch is set where a win is installed |
| `StartUp.Stage2Producers.InstallRecovery` | `src/activation/stage2-producers.ts:454-467` | a call waits for a run in flight, and otherwise goes on |
| `StartUp.Stage2Producers.AfterElection` | `src/activation/stage2-producers.ts:212-213` | a completed election closes the first latch |
| `StartUp.Stage2Producers.AfterPreamble` | `src/activation/stage2-producers.ts:288` | the work before recovery is followed by the installation, or by a failure |
| `StartUp.Stage2Producers.Settle` | `src/activation/stage2-producers.ts:449-451` | the run in flight is forgotten, however it ended |
| `StartUp.Stage2Producers.Resume` | `src/activation/stage2-producers.ts:462-463` | a call that waited goes on after a run that succeeded |
| `StartUp.Stage2Producers.AfterReconcile` | `src/activation/stage2-producers.ts:463-466` | then it installs |
| `StartUp.Stage2Producers.OnFenceLost` | `src/activation/stage2-producers.ts:190-195` | a lost fence opens the second latch |
| `StartUp.LatchesHold` | `src/activation/stage2-producers.ts:177-214` | over all interleavings: the work after a completed election begins at most once; recovery is installed only on an acquired result and at most once between two fence losses |
| `StartUp.ElectionsAreTrusted` | `src/activation/stage2-producers.ts:197-212` | over all interleavings, every election comes after a trusted call |
| `StartUp.OnlyTrustedRuns` | `src/activation/stage2-producers.ts:197-212` | over all interleavings, a run past the check of trust was started by a trusted call, when no election had completed and no run was in flight |
| `StartUp.RunStartsIff` | `src/activation/stage2-producers.ts:442-453` | a call starts a run if and only if no election has completed and no run is in flight: after a failed one it can try again |
| `StartUp.InstalledMeansSince` | `src/activation/stage2-producers.ts:190-195` | the second latch is closed if and only if recovery was installed since the last loss of the fence |
| `StartUp.InstallsIff` | `src/activation/stage2-producers.ts:288-323` | an event installs recovery if and only if it ends the work before it, or the reconciliation of a call, well and on an acquired result, and recovery was not installed since the last loss of the fence |
| `StartUp.FailedMeans` | `src/activation/stage2-producers.ts:449-451` | a run counts as failed only when its election or its work before or in recovery failed |
| `StartUp.ResumesUnlessFailed` | `src/activation/stage2-producers.ts:462-463` | a call that waited goes on if and only if the run did not fail |
| `StartUp.CallGoesOn` | `src/activation/stage2-producers.ts:454-467` | a call joins the run in flight, and else comes to its reconciliation or has nothing to install; it is over when that fails or its installation ends; no call touches another |
| `StartUp.RunGoesOn` | `src/activation/stage2-producers.ts:288-453` | what each await of a run leaves: the work before recovery after an election, recovery on a win, and a settled run that counts as failed if and only if an await failed |
| `StartUp.FenceLostBetweenInstalls` | `src/activation/stage2-producers.ts:190-195` | over all interleavings, between any two installations a fence is lost |
| `StartUp.InstalledOnCurrentResult` | `src/activation/stage2-producers.ts:288-323` | over all interleavings, an installation is on a result whose fence is still held if and only if no fence is lost between the event that gave the result and the event that starts the installation |
| `StartUp.CallWaitsForEarlierRunsOnly` | `src/activation/stage2-producers.ts:454-467` | over all interleavings, a call that has not yet come to the installation can go on if and only if no run is in flight that was started before the call |
| `StartUp.CallOvertakesLaterRunsOnly` | `src/activation/stage2-producers.ts:454-467` | over all interleavings, a call that installs while a run is in flight overtakes a run started after the call |
| `StartUp.StaleResultInstalls` | `src/activation/stage2-producers.ts:288-323` | a concrete sequence in which a fence lost during the work before recovery does not stop the installation on the older result |
| `StartUp.LaterRunIsNotAwaited` | `src/activation/stage2-producers.ts:454-467` | a concrete sequence in which a call installs while a run started after it is in flight |
| `CatalogWrites.CatalogFs.WriteFileIfAbsent` | `src/catalog/ports.ts:77-78` | a record is written only where there is none; a failed write may leave part of one |
| `CatalogWrites.CatalogFs.WriteFileAtomic` | `src/catalog/ports.ts:68-75` | the manifest is replaced or left as it was |
| `CatalogWrites.RunWriteSequence` | `src/catalog/atomic-write.ts:89-112` | steps in order up to the first that does not land; `wrote` is exactly the landed prefix, and the outcome says why it stopped; what is then on disk is `CatalogWrites.SequenceLeaves` |
| `CatalogWrites.SequenceLeaves` | `src/catalog/atomic-write.ts:89-112` | a sequence that stopped after any number of landed steps: each of their records had no file before and holds its step's body, the manifest names what the last landed one names, a step whose record existed changed nothing, one that failed left at most a partial record of its own, and no other record appeared; the outcome tells which of these it was |
| `CatalogWrites.SaveKeepsResolving` | `src/catalog/atomic-write.ts:8-18` | a record-then-manifest save stopped after any step leaves every named version with its complete record, and changes no record |
| `CatalogWrites.SavesKeepResolving` | `src/catalog/atomic-write.ts:89-112` | the same over any sequence of saves, each planned on some earlier state |
| `CatalogWrites.InterleavedSavesKeepResolving` | `src/catalog/atomic-write.ts:89-112` | however the steps of saves by any number of windows interleave, and wherever each stops, every named version has its complete record, and no record changes |
| `CatalogWrites.SavesHold` | `src/catalog/atomic-write.ts:89-112` | over whole saves one after another, what a save landed holds its body ever after |
| `CatalogWrites.InterleavedSavesHold` | `src/catalog/atomic-write.ts:89-112` | over any interleaving, every record is one that was there or one a save under way or over wrote, with that save's body when its step landed, and the manifest is the one that was there or one a save wrote |
| `CatalogWrites.ManifestFirstDangles` | `src/catalog/atomic-write.ts:11-13` | the other order names a version without a record |

## Left out

- File-system calls, symlink walks, containment checks, mode narrowing and the `.gitignore` drop: only how a read or write ends is modelled.
- SHA-256, UUIDs and clocks: a free digest constructor, fresh ids and arbitrary times.
- JSON parsing of audit rows: lines are a datatype, and a torn line is one that does not parse. The damage report carries the whole digest where the source prints twelve characters of it, and the walk's line number instead of file and line.
- The ordering-barrier timeout and a write that lands after it: the source says that ordering is lost there.
- A cut record written in part: the source writes it in one call and does not look at the count; it lands whole or not at all here.
- WindowRuns.StepKeeps: notes a chain verification only with some file present or when the advance would store nothing, because otherwise it is false (`WindowRuns.NoteOverNothing`).
- Evidence-health reports, warnings and listeners: whether a break is known is an input of `noteChainVerified`.
- Removal of pruned version records after a catalog save, and the revision check between windows: saves here only add records.
- ChainMeaning.AcceptedMeans: cut records stand before all other lines, as the cut file does; a cut record among the rows of the log is not characterised, because no writer puts one there.
- Sparse arrays in `canonicalJson`: arrays are dense.
- What transcript bodies write, spool capture and backpressure: a body begins, and settles fulfilled or not.
- The individual recovery installers and the rest of the activation wiring: only whether and when they start.
- `parseCheckpoint` and `projectAuditPayload`: field checks.
