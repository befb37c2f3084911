# Freezer: a verified model

Freezer is a backup agent and a job scheduler. This project models its hard parts in Dafny and proves
what they are for: that a restore gives back the tree that was backed up, that nothing incomplete is
published, that retention never orphans an incremental, and exactly when a stopped job stays stopped.

Check it with `dafny verify dfyconfig.toml`, or pass all `.dfy` files to one `dafny verify`.

## How it is organised

Each file holds one module of the same name.

| modules | subject |
|---|---|
| `Bytes`, `Files` | byte strings, files with a cursor, a buffered chunk source |
| `Bits`, `ByteSums`, `Adler`, `RollingChecksum` | Adler-32 as in section 2.2 of RFC 1950, its rolling form, and the unreduced checksum of the first rsync engine |
| `BlockSignatures`, `BlockDelta` | one file: signatures, changed blocks, shipping, patching in place |
| `TreeDelta`, `TreeRestore` | one level of a tree: header list, data stream, metadata, restore |
| `Differences`, `CutStreams` | what a level holds, told from the two trees; what it leaves behind when its data end early |
| `BlockSizes`, `SignatureSizes` | patches and signatures used with another block size than they were made with |
| `Planner`, `RestoreDate`, `LevelSchedule`, `ListingOrder`, `SortedNames` | histories of backups and removals: base of the next backup, what a removal spares, date selection, level schedules, listing order |
| `ChainRestore` | planner and engine together, end to end, streams that end early included |
| `MixedSizes` | chains whose levels have patches and signatures of several block sizes, restored with one |
| `RestoreFailures`, `SizeChange` | runs of two and three backups whose restore reports success and gives another tree |
| `Streaming`, `Commit`, `Broadcast`, `BroadcastEnds` | bounded queue, threads and faults in every interleaving, publication, several storages, and that they come to an end |
| `SchedulerJob`, `FreezerScheduler` | job state machine, event loop, timer, poll |
| `Retention` | block storage backups: full ones and their dependents |
| `HeaderText`, `RecordStream`, `FileRecords` | headers that count their own length, records read back from a pipe, what they say of a file |
| `Resizing`, `SegmentNames` | rechunking a stream, segment names and their order |

Code that changes things step by step (files, streams, the storage, the job, the table of jobs, the
volume's backups, the pipe) is a class whose methods are proved against functions of the old state; the
theorems are about those functions. Threads are a state machine: a run is any list of steps of any
thread, with faults, and the theorems hold for every run.

## What is assumed

* The strong digest is any function. Each theorem that needs it says so: `NoCollision` asks, position by
  position, that a block whose digests agree did not change. `BlockDelta.PatchExactlyWhen` needs no such
  assumption and gives the exact condition instead.
* A source tree does not change while one run reads it, and a file whose mode, mtime and ctime are all
  unchanged has unchanged content (`Faithful`); `TreeRestore.TreeRoundTrip` shows that this is exactly
  what the engine needs.
* Clock readings of successive backups increase. A directory listing gives the backups of a level in
  the order they were made; `ListingOrder` says exactly which listings serve:
  freezer/storage/base.py:268 sorts a copy and drops it, so the order is the storage's own.
* The encoding of a header list is any `Codec` that is `Sound`: a list is decoded from its own bytes, from
  no fewer, and whatever follows them.
* Where a theorem asks for a `ToldRun`: no changed block keeps its digests (`BlocksTold`), and no backup is
  built on one that adopted another block size than the configured one (`SizesTold`). A run that never changes
  the configured size is of the second kind (`ChainRestore.OneSizeIsTold`). `MixedSizes` has neither
  assumption: it asks that the patches of the chain are right under the size of the restore, and
  `MixedSizes.ServesPatches` gives lengths and positions under which they are.
* That a backup or a broadcast comes to its end asks that every thread keeps moving: the interleaving can be cut
  into enough rounds in each of which every thread moves at least once. Safety asks for nothing of the kind.
* Compression and encryption are the identity on the stream.

## What the code does that one may not expect

Each of these is a lemma below or a branch of the model.

* A backup by several storages counts as good although one of them failed: freezer/storage/multiple.py:60
  mentions the method `empty` without calling it, so no exception is ever found.
* `restore` uses the configured block size, not the one the backup was made with. Headers that fit the
  other size restore alike, and only those do for every content (`BlockSizes.PatchesAgreeIff`).
* An incremental run adopts the block size of its base for patches and signatures, but its own metadata
  record the configured size: freezer/engine/rsyncv2/rsyncv2.py:661-666 notes it before line 679 adopts the
  other. The next backup then compares blocks with signatures of another size, and can leave a changed block
  out although no digests collide.
* A failed `mkdir` of the level's own directory leaves an empty level zero behind
  (freezer/storage/physical.py:91-105). As the newest one it makes every incremental run raise, until a newer
  level zero is begun or it is removed (`Planner.EmptyZeroRaisesIff`, `Planner.EmptyZeroHeals`).
* A removal by date deletes whole chains: a backup newer than the date goes when its chain began by then,
  against freezer/storage/base.py:111-113.
* Removal of volume backups by age looks at each backup alone, and can leave an incremental whose full
  backup is gone.
* With `always_level`, a level made again after the restore date hides the earlier backup of that level.
* `remove_older_than(0)` deletes everything, because 0 counts as "no date".
* The help of `--always-level` (freezer/common/config.py:278-286) says that it has precedence over the
  maximum level; freezer/storage/base.py:139-160 looks at the maximum level first. The model follows the
  code.
* A stream that ends early makes the second rsync engine stop as if it had finished (`Starved`). The restore
  goes on with the next level and reports success, with a partly written file or without the whole level.
* `execute` catches nothing (freezer/scheduler/scheduler_job.py:462-501): when an action's values cannot be
  written to its file or its program cannot be started, `finish` is skipped and the job keeps the running state
  with no execution. If the timer lists it, a stop is only recorded and the timer submits it again, as often as
  its executions raise (`SchedulerJob.RaisingJobOutlastsStop`). If the timer had dropped it, as it drops a
  one-shot job, nothing ever ends the running state: starts, stops, aborts and removals are recorded or ignored,
  and the job never leaves the table (`SchedulerJob.StuckForever`, `FreezerScheduler.StuckJobNeverLeaves`).
* A poll looks up `current_pid` before it aborts a job (freezer/scheduler/freezer_scheduler.py:231-232). A job that
  never ran an action has none, so the poll ends there, as does every later one while the document is fetched:
  the job never sees the abort, and no job is removed (`FreezerScheduler.BlockedPollsRemoveNothing`).
* Aborting a job that waits in the timer tells the API that it is stopped but leaves it in the timer.
* `process_event` never leaves its loop for an event it does not know, `remove` included.
* Scheduling a job whose schedule cannot be read raises from the log line that follows, because `kwargs`
  is unbound there, and the poll ends.
* Keeping 0 full volume backups deletes none, and keeping -n deletes the n oldest.
* When fetching from the input fails in a broadcast, the outputs are neither finished nor stopped.
* Segment names of nine digits sort before those of eight.
* Names `level_timestamp` sort as text, so by time only among timestamps of equally many digits, and otherwise as
  `SortedNames.DecimalsSortIff` says.

## Model

| member | source | states |
|---|---|---|
| `Adler.AdlerClosedForm` | freezer/engine/rsyncv2/pyrsync.py:21-28 | both halves of the checksum are the plain and the weighted byte sum modulo 65521 |
| `Adler.RollingExactlyWhen` | freezer/engine/rsyncv2/pyrsync.py:31-36 | one rolling step equals the direct checksum of the shifted window if and only if the dropped byte is zero or the given block size is the window length modulo 65521 |
| `Adler.RollingRefinesDirect` | freezer/engine/rsyncv2/pyrsync.py:25-36 | any number of rolling steps from a full window equals the direct checksum of the final window |
| `Adler.PackRoundTrip` | freezer/engine/rsyncv2/pyrsync.py:21-28 | both halves stay below 65521, the packed word fits 32 bits and unpacks to them |
| `RollingChecksum.WeakChecksum` | freezer/engine/rsync/pyrsync.py:46-56 | the loop computes the plain and the position-weighted sum of the window |
| `RollingChecksum.RollExactlyWhen` | freezer/engine/rsync/pyrsync.py:35-43 | one slide is right if and only if the window is full or the dropped byte is zero |
| `RollingChecksum.RollAllRefinesDirect` | freezer/engine/rsync/pyrsync.py:35-56 | any sequence of slides from a full window gives the sums of the final window |
| `RollingChecksum.RollChecksum` | freezer/engine/rsync/pyrsync.py:35-56 | the packed checksum after a slide is that of the shifted window |
| `RollingChecksum.TailIsZeroPadded` | freezer/engine/rsync/pyrsync.py:129-146 | sliding in zeros at the end of the data gives the sums of the zero-padded tail |
| `BlockSignatures.BlockBelowCount` | freezer/engine/rsyncv2/pyrsync.py:39-59 | a read of a block is non-empty exactly below the block count |
| `BlockSignatures.BlockChecksums` | freezer/engine/rsyncv2/pyrsync.py:39-59 | the read loop gives the digests of every block of the file, in order |
| `BlockSignatures.RsyncDeltaFast` | freezer/engine/rsyncv2/pyrsync.py:62-77 | one item a block of the new file, saying whether both digests agree with the old signature at the same position |
| `BlockDelta.ChangedBlocksMembers` | freezer/engine/rsyncv2/rsyncv2.py:382-407 | the list holds exactly the positions whose digests disagree |
| `BlockDelta.ListedIff` | freezer/engine/rsyncv2/pyrsync.py:62-77 | against the signature of a file, a block is shipped if and only if the file has no block at that position, or one with another Adler-32 or another strong digest |
| `BlockDelta.GetDeltasInfo` | freezer/engine/rsyncv2/rsyncv2.py:382-407 | the changed positions in order and the byte total of their blocks |
| `BlockDelta.BackupDeltas` | freezer/engine/rsyncv2/rsyncv2.py:409-417 | the queue carries the listed blocks, in order |
| `BlockDelta.BackupFile` | freezer/engine/rsyncv2/rsyncv2.py:557-565 | the queue carries the whole file, for every segment size |
| `BlockDelta.PatchBlock` | freezer/engine/rsyncv2/rsyncv2.py:459-471 | one block is overwritten with the next bytes of the stream, in any chunking, and no other byte is taken; a short stream leaves the file as it was |
| `BlockDelta.RefillAtCursorAppendsIff` | freezer/engine/rsyncv2/rsyncv2.py:464-468 | writing the next chunk at the read cursor appends it to the unread bytes if and only if there are none of either |
| `BlockDelta.PatchRegFile` | freezer/engine/rsyncv2/rsyncv2.py:437-457 | patching succeeds exactly when the stream holds what the deltas consume, and takes just that; otherwise the whole blocks that arrived are written |
| `BlockDelta.CreateRegFile` | freezer/engine/rsyncv2/rsyncv2.py:321-331 | a created file holds the next `size` bytes in any chunking, or everything there was when the stream is short |
| `BlockDelta.ConsumedIsTotal` | freezer/engine/rsyncv2/rsyncv2.py:437-457 | full blocks and the remainder rule for the last one add up to `len_deltas` |
| `BlockDelta.OverwrittenBytes` | freezer/engine/rsyncv2/rsyncv2.py:459-471 | listed blocks hold the new bytes and every other old byte stays |
| `BlockDelta.PatchExactlyWhen` | freezer/engine/rsyncv2/rsyncv2.py:437-471 | the patched file is the new one if and only if every byte outside the shipped blocks is the old byte, or zero past the old end |
| `BlockDelta.PatchRoundTrip` | freezer/engine/rsyncv2/rsyncv2.py:382-471 | for all contents and block sizes, growth, shrinkage and a short last block included: patching the old file gives the new one and reads exactly `len_deltas` bytes |
| `BlockDelta.CollisionIsNotShipped` | freezer/engine/rsyncv2/pyrsync.py:62-77 | with a digest that does not tell two blocks apart a changed block is not shipped, for files with any tail |
| `TreeDelta.PrepareFileInfo` | freezer/engine/rsyncv2/rsyncv2.py:599-631 | an unmodified file contributes no header and keeps its metadata; any other contributes its entry, as deltas or in full |
| `TreeDelta.Rsyncv2Engine.CollectEntries` | freezer/engine/rsyncv2/rsyncv2.py:633-642 | the entries of all listed files in order, and the metadata of the new tree |
| `TreeDelta.Rsyncv2Engine.CollectDeletions` | freezer/engine/rsyncv2/rsyncv2.py:706-709 | a mark for exactly the earlier paths that are gone |
| `TreeDelta.Rsyncv2Engine.BackupRegFile` | freezer/engine/rsyncv2/rsyncv2.py:644-648 | the data of an entry: its deltas, or the whole file |
| `TreeDelta.Rsyncv2Engine.ShipAndSign` | freezer/engine/rsyncv2/rsyncv2.py:714-721 | the stream holds every entry's data in header order; every shipped file gets the signature of its new content |
| `TreeDelta.Rsyncv2Engine.GetSignDelta` | freezer/engine/rsyncv2/rsyncv2.py:650-730 | one whole run puts the encoded header list and then the data of the level that the specification gives, adopts the base's block size and records the configured one |
| `Differences.LevelIsDifference` | freezer/engine/rsyncv2/rsyncv2.py:599-730 | over metadata that describe the old tree, and where digests tell blocks apart: the header list and the data of a level are those that the two trees and the block size determine, without signatures or digests |
| `Differences.OnlyDifferencesShipped` | freezer/engine/rsyncv2/rsyncv2.py:625-648 | of a file that was there before with the same mode, exactly the blocks that differ from the old block at their position are shipped, in order, and the whole file if and only if no block differs |
| `Differences.LevelHoldsHeader` | freezer/engine/rsyncv2/rsyncv2.py:610-648 | a file has such a header in the level if and only if its mode, mtime or ctime changed or it is new, and no other header |
| `TreeRestore.RestoreDirectory.RestoreFile` | freezer/engine/rsyncv2/rsyncv2.py:244-313 | one header changes the directory and the stream as specified, and tells a short stream from an exception |
| `TreeRestore.RestoreDirectory.RestoreLevel` | freezer/engine/rsyncv2/rsyncv2.py:151-216 | a level is restored from one stream in any chunking: header list, then entry by entry; a stream that ends early is told from an exception, and what it leaves is stated |
| `TreeRestore.RestoreDirectory.LoadFilesMeta` | freezer/engine/rsyncv2/rsyncv2.py:199-203 | the header list is read as soon as enough pieces arrived, and the data behind it are kept; None exactly when the stream ends before that |
| `TreeRestore.EntryRestores` | freezer/engine/rsyncv2/rsyncv2.py:244-313 | an entry restores its file exactly and consumes exactly what the writer put for it, full or delta, whatever sizes the signature, the deltas and the restore have, as long as the patch is right |
| `TreeRestore.LevelRestores` | freezer/engine/rsyncv2/rsyncv2.py:650-730 | a level over metadata of the tree, with signatures of any sizes and read with any size under which its patches are right, consumes its own bytes exactly and leaves exactly the new paths |
| `TreeRestore.ManifestDescribes` | freezer/engine/rsyncv2/rsyncv2.py:650-730 | the new metadata describes the new tree under the adopted block size, and records the configured one |
| `TreeRestore.TreeRoundTrip` | freezer/engine/rsyncv2/rsyncv2.py:244-313 | backup then restore of one level gives the new tree if and only if no content change kept mode, mtime and ctime |
| `TreeRestore.StreamOnPart` | freezer/engine/rsyncv2/rsyncv2.py:199-212 | for every stream that restores normally and every part of it: the part is taken for a complete level, normally if and only if it is the whole; nothing is restored when it ends in the header list, a partial file when it ends in the data |
| `TreeRestore.PartOfLevel` | freezer/engine/rsyncv2/rsyncv2.py:151-216 | every prefix of a level's stream over a described tree: no exception, no starving entry if and only if the prefix is the whole stream, and the directory is the new tree exactly then, or when the header list is incomplete and nothing had changed |
| `CutStreams.CutLevelLeaves` | freezer/engine/rsyncv2/rsyncv2.py:199-212 | for every point at which the data of a level end early: the files listed before the one they end in are as in the new tree, that one holds the bytes that arrived, or the old ones with the whole blocks that arrived written over them, and the rest is as in the old tree |
| `TreeRestore.RaisesIff` | freezer/engine/rsyncv2/rsyncv2.py:437-457 | a header raises if and only if it patches a file that is not there, or has no block to patch with |
| `BlockSizes.ConsumedIsLengthIff` | freezer/engine/rsyncv2/rsyncv2.py:437-457 | under any block size a patch consumes what was shipped if and only if its last block is where the shipped length ends |
| `BlockSizes.PatchesAgreeIff` | freezer/engine/rsyncv2/rsyncv2.py:437-471 | deltas made with one size patch alike under another, for all contents and inputs, if and only if the sizes are equal, or the blocks start the file without a gap and the other size ends the last one where the length does |
| `BlockSizes.NoPatchesNoSize` | freezer/engine/rsyncv2/rsyncv2.py:244-313 | without patches the block size plays no part, however the stream ends |
| `BlockSizes.HeadersUnder` | freezer/engine/rsyncv2/rsyncv2.py:199-212 | a level whose headers fit another size restores the same under it |
| `BlockSizes.WrittenHeaderFitsIff` | freezer/engine/rsyncv2/rsyncv2.py:599-631 | when a header that a backup run wrote fits another size |
| `SignatureSizes.StaleSizeIff` | freezer/engine/rsyncv2/rsyncv2.py:661-679 | for all files of two lengths and digests that tell blocks apart: deltas against signatures of another block size patch right if and only if no block but the first is as long as the old one at its position |
| `Planner.GetIncrements` | freezer/storage/base.py:260-278 | the dictionary built by the listing loop |
| `Planner.IncrementsAreLast` | freezer/storage/base.py:260-278 | the dictionary holds exactly the last backup listed for each level |
| `Planner.Storage.GetLevelZero` | freezer/storage/physical.py:40-72 | exactly the level-zero backups up to the date, each once |
| `Planner.Storage.GetLatestLevelZeroIncrements` | freezer/storage/base.py:82-107 | the increments of the newest level zero up to the date, those after the date left out |
| `Planner.Storage.PreviousBackup` | freezer/storage/base.py:127-160 | the base of the next backup, with every branch and both ways to raise |
| `Planner.Storage.PutBackup` | freezer/engine/engine.py:132-141 | a backup is added one level above its base, or begins a chain |
| `Planner.Storage.RemoveOlderThan` | freezer/storage/base.py:109-122 | exactly the chains begun by the date are gone |
| `Planner.PreviousOfValid` | freezer/storage/base.py:127-160 | over a valid history it never raises, and picks the newest backup of the top level, or of the level below it for `always_level` |
| `Planner.AddKeepsValid` | freezer/engine/engine.py:111-141 | a backup keeps the chain invariant, whatever the options of that run |
| `Planner.RemoveKeepsValid` | freezer/storage/base.py:109-122 | a removal keeps the chain invariant |
| `Planner.RunsAreValid` | freezer/storage/base.py:82-160 | every run of backups and removals with options changing at will: levels are exactly 0..k, timestamps increase with level, chains are disjoint in time |
| `Planner.ChainIncrements` | freezer/storage/base.py:260-278 | the newest entries of a chain have exactly the levels 0..top with increasing timestamps |
| `Planner.RestoreLookupNeverMisses` | freezer/engine/engine.py:245-257 | the level loop of a restore finds every level up to the highest |
| `Planner.RemovalRemovesOlder` | freezer/storage/base.py:109-122 | over valid histories every backup not newer than the date goes, and none appears |
| `Planner.RemovalSparesNewerIff` | freezer/storage/base.py:109-122 | no backup newer than the date goes if and only if no chain was begun by then or the newest such chain ends by then |
| `Planner.RemovalLosesNewer` | freezer/storage/base.py:109-122 | a run of two backups and a removal that deletes a backup newer than its date |
| `Planner.RemovalKeepsNewest` | freezer/storage/base.py:109-122 | a removal that leaves anything leaves the newest chain |
| `Planner.EmptyZeroRaisesIff` | freezer/storage/base.py:127-160 | over every valid history with an empty level zero on top, choosing the base raises if and only if the run is incremental; what a restore then selects for every date |
| `Planner.EmptyZeroHeals` | freezer/storage/base.py:109-160 | a newer level zero ends that; a removal by date takes the empty one away exactly when it takes everything |
| `RestoreDate.DateSelectsChain` | freezer/storage/base.py:82-107 | a date selects the chain that holds the most recent backup up to it |
| `RestoreDate.PointInTimeRestore` | freezer/storage/base.py:82-107 | a date selects the levels 0..j of one chain, and level j is the most recent backup of all history up to the date if and only if no later backup of the chain made that level again |
| `RestoreDate.OneBackupPerLevel` | freezer/common/config.py:375-391 | with one backup a level, the documented promise of the restore date holds |
| `RestoreDate.NothingSelected` | freezer/storage/base.py:82-107 | nothing is selected if and only if every backup is later than the date |
| `RestoreDate.RewrittenLevelIsHidden` | freezer/storage/base.py:82-107 | a level made again after the date hides the backup that the date asks for |
| `LevelSchedule.LevelFromPreviousRun` | freezer/storage/base.py:127-160 | the level of a run from the level and time of the run before it, whatever maximum level, always level and restart interval either of them had, the number of seconds spelled out; a run that is not incremental has level 0, and no run raises |
| `LevelSchedule.MaxLevelSchedule` | freezer/storage/base.py:139-160 | with only a maximum level m, run i has level i mod (m + 1) |
| `LevelSchedule.AlwaysLevelSchedule` | freezer/storage/base.py:139-160 | with only an always level a, run i has level min(i, a) |
| `LevelSchedule.RestartSchedule` | freezer/storage/base.py:151-155 | with only a restart interval of d days, a run has level 0 if and only if it is the first or begins more than 86400 d seconds after the backup before it, and otherwise one level more |
| `LevelSchedule.LevelSinceRestart` | freezer/storage/base.py:139-160 | so its level is the number of runs since the last restart |
| `ListingOrder.ListingServesIff` | freezer/storage/base.py:260-278 | a listing of a chain's backups yields the right dictionary if and only if of every level the backup listed last is no older than any other |
| `ListingOrder.OlderCanBeListedLast` | freezer/storage/base.py:268 | for every chain and every backup of a level made again, a listing brings that older backup back |
| `ListingOrder.AnyListingServesIff` | freezer/storage/base.py:260-278 | every listing of a chain serves if and only if no level was made again |
| `SortedNames.SortedListingServesIff` | freezer/storage/ssh.py:135-141 | a listing sorted by the names `level_timestamp` yields the right dictionary of a chain if and only if on each level the decimal of the newest timestamp sorts after all others |
| `SortedNames.DecimalsSortIff` | freezer/storage/ssh.py:135-141 | which a smaller timestamp does not prevent if and only if, padded with zeros to as many digits, it does not exceed the newer one |
| `ChainRestore.PreviousIsSound` | freezer/engine/engine.py:111-130 | the metadata handed to the engine describes the tree that the next delta is computed against, under the size it records if the base told its size |
| `ChainRestore.BackupKeepsSound` | freezer/engine/engine.py:111-158 | no backup on a base that told its block size, and whose changed blocks the digests tell, changes the base of an existing delta: a level is not made again once the next one exists |
| `ChainRestore.RunsAreSound` | freezer/engine/engine.py:104-192 | after every honest run in which bases told their block sizes and digests told changed blocks, each stored delta rebuilds its tree from the level below |
| `ChainRestore.FailedBackupsDoNotCount` | freezer/engine/engine.py:165-190 | a run with failed backups leaves the store that it leaves without them |
| `ChainRestore.OneSizeIsTold` | freezer/engine/rsyncv2/rsyncv2.py:661-679 | in a run that never changes the configured block size every base tells its size |
| `ChainRestore.LevelsRebuild` | freezer/engine/engine.py:245-274 | replaying levels 0..n-1 rebuilds the tree that level n-1 saw |
| `ChainRestore.SucceedsIff` | freezer/engine/engine.py:245-300 | a restore reports success if and only if no level is missing and none raises, and then a level was taken for complete too early if and only if one starved |
| `ChainRestore.FailingLevelEnds` | freezer/engine/engine.py:275-300 | a level that is missing or raises is the last one looked at: the restore fails with the directory as that level left it |
| `ChainRestore.RestoreGivesLastBackup` | freezer/engine/engine.py:221-300 | end to end: after any told run of backups, failed backups and removals that leaves anything, options and trees changing at will, restoring the newest chain into an empty directory gives exactly the tree the last backup saw |
| `ChainRestore.DatedRestoreGivesMostRecent` | freezer/engine/engine.py:221-300 | the same for a date: the tree of the most recent backup up to it, where no later backup of the chain made its level again |
| `ChainRestore.NothingStarvesIff` | freezer/engine/engine.py:245-300 | of streams that may each end early, a restore succeeds without a starved level if and only if every level arrived whole |
| `ChainRestore.RestoreStarvesIff` | freezer/engine/engine.py:221-300 | the same for the newest chain after any told run |
| `ChainRestore.LastLevelCut` | freezer/engine/engine.py:245-300 | when the last level ends early the restore always reports success; it rebuilt the tree if and only if that level was whole, or broke off in its header list with nothing to change |
| `ChainRestore.TruncatedDataReportsSuccess` | freezer/engine/engine.py:293-306 | a last level that breaks off in its data is reported as a success with another tree |
| `ChainRestore.LevelsUnderOtherSize` | freezer/engine/engine.py:245-274 | levels whose patches fit another block size restore the same under it |
| `ChainRestore.RestoreUnderOtherSize` | freezer/engine/engine.py:221-300 | after any told run, the newest chain restores to the last backup's tree under every block size that its patches fit |
| `MixedSizes.ServesPatches` | freezer/engine/rsyncv2/rsyncv2.py:437-471 | signature, scan and restore of a file may have three different block sizes: the patch gives the new file if the digests tell blocks apart, no later block is as long as the old one at its position, and the changed blocks are placed alike under the size of the restore |
| `MixedSizes.AllServePatch` | freezer/engine/rsyncv2/rsyncv2.py:661-679 | a level all of whose files modified in place are of this kind, each for the size of its own signature, has right patches |
| `MixedSizes.RunsAreSigned` | freezer/engine/rsyncv2/rsyncv2.py:661-730 | after every honest run, whatever block sizes were configured, the metadata of every backup hold for each file its stat and the signature of its content under some size |
| `MixedSizes.ToldPatches` | freezer/engine/engine.py:111-130 | where neither sizes nor digests mislead, every backup's patches are right under the size of its chain |
| `MixedSizes.RunRebuilds` | freezer/engine/engine.py:104-192 | after every honest run, every delta of a chain rebuilds its tree under any one size under which the chain's patches are right |
| `MixedSizes.RestoreUnderAnySize` | freezer/engine/engine.py:221-300 | end to end for every honest run, block sizes changing at will: restoring the newest chain under any size under which its patches are right gives exactly the tree the last backup saw |
| `MixedSizes.DatedRestoreUnderAnySize` | freezer/engine/engine.py:221-300 | the same for a date, where no later backup of the chain made the level again |
| `RestoreFailures.OtherBlockSizeLosesChange` | freezer/engine/rsyncv2/rsyncv2.py:437-457 | for every file of two bytes and every change of the second: two backups with blocks of one, restored with blocks of two, report success without the change |
| `RestoreFailures.MissingDataGoesUnnoticed` | freezer/engine/rsyncv2/rsyncv2.py:199-212 | the same two backups with the second level's data missing report success with another tree |
| `SizeChange.ChangedSizeLosesChange` | freezer/engine/rsyncv2/rsyncv2.py:661-679 | a run of three backups, the block size changed before the second: no digests collide, every level arrives whole, and the restored file lacks its last byte |
| `ChainRestore.BackupAgent.Backup` | freezer/engine/engine.py:104-192 | one run chooses the base, runs the engine on its metadata and publishes, or fails on the way and publishes nothing |
| `ChainRestore.BackupAgent.Restore` | freezer/engine/engine.py:221-300 | the restore reports success exactly when no level raises or is missing, also when streams end early, and leaves the directory that the levels give |
| `ChainRestore.BackupAgent.ReplayLevels` | freezer/engine/engine.py:245-300 | the level loop, each level from its own stream in any chunking: an exception ends it, an early end of a stream does not |
| `Streaming.RichQueue.PutOnce` | freezer/utils/streaming.py:77-83 | the turn that every put of the thread models takes: a message goes in exactly when there is room, and the bound is kept |
| `Streaming.RichQueue.GetOnce` | freezer/utils/streaming.py:56-62 | the turn that every get of the thread models takes: the oldest message, or nothing when the queue is empty |
| `Streaming.ConsumerStepKeeps` | freezer/storage/fslike.py:38-51 | whatever the draining thread does, nothing is lost or reordered, the file holds what was received or a prefix of it, and a normal end comes only after the finish flag and an empty queue |
| `Streaming.ProducerStepKeeps` | freezer/utils/streaming.py:68-83 | whatever the filling thread does, what was sent is a prefix of the source and the finish flag stands for all of it |
| `Streaming.StoppedConsumerWindsDown` | freezer/utils/streaming.py:64-91 | on a force-stopped queue every step of the draining thread brings it closer to its end |
| `Streaming.StoppedProducerWindsDown` | freezer/utils/streaming.py:64-83 | and every step of the filling thread |
| `Streaming.FailingStepCompletesIff` | freezer/storage/fslike.py:38-51 | the step with which a draining thread fails, which may leave any part of all that was written so far, leaves a complete file if and only if all of that reached the file and only empty messages were still to come |
| `Commit.RunKeepsInv` | freezer/engine/engine.py:143-192 | the invariant of source thread, storage thread and main thread over every interleaving and fault |
| `Commit.NothingLost` | freezer/utils/streaming.py:33-119 | received followed by queued is what was sent, within the bound; the file always holds a prefix of the stream, and a normal end means that all was received |
| `Commit.CommitSafety` | freezer/storage/physical.py:91-105 | a backup that can be listed, or whose level-zero directory was made, has its engine metadata and exactly the complete source stream as data |
| `Commit.FailureIsNeverPublished` | freezer/engine/engine.py:165-190 | after a failure of either thread nothing becomes visible, and no level-zero directory is made |
| `Commit.HalfMadeIff` | freezer/storage/physical.py:91-105 | over every run, an aborted backup leaves a level zero without any backup if and only if making the directory of its level failed |
| `Commit.StoppedConsumerEnds` | freezer/utils/streaming.py:64-91 | from a force-stopped queue, any interleaving that gives the draining thread its remaining steps ends it |
| `Commit.StoppedProducerEnds` | freezer/utils/streaming.py:64-83 | and any interleaving that gives the filling thread its remaining steps ends that one |
| `Commit.StoppedBackupAborts` | freezer/engine/engine.py:143-192 | after a failure anywhere in a run, any further interleaving with eight moves of one thread and four more than there are messages of the other ends both, and the main thread then aborts with no directory made |
| `Commit.EveryBackupEnds` | freezer/engine/engine.py:143-192 | for every source, bound and faults: any interleaving of 11 rounds a message and 23 more, in each of which every thread moves, ends with the whole backup published and all its metadata stored if no operation raised, and aborted otherwise |
| `Commit.EndedThreadsPublish` | freezer/engine/engine.py:164-190 | from any reachable state in which both threads ended without an exception, five moves of the main thread publish |
| `Commit.PublishesIff` | freezer/engine/engine.py:143-192 | over every run, the backup can still be published if and only if no operation of the run raised |
| `Broadcast.ManagerKeeps` | freezer/storage/multiple.py:150-174 | every step of the broadcasting loop keeps the invariant of all queues |
| `Broadcast.RunKeepsInv` | freezer/storage/multiple.py:42-75 | the invariant over every interleaving of source, broadcast, any number of storage threads and main thread |
| `Broadcast.OutputsMoveInStep` | freezer/storage/multiple.py:150-168 | every output was sent a prefix of the input, earlier ones ahead by at most one message, none loses any |
| `Broadcast.NormalReturnSentEverything` | freezer/storage/multiple.py:164-168 | a normal end of the broadcast means that every output was sent everything and was finished |
| `Broadcast.FailedPutStopsEverything` | freezer/storage/multiple.py:169-174 | after a failed put the input and all outputs are force-stopped and nothing is ever published |
| `Broadcast.FailedInputLeavesOutputsOpen` | freezer/storage/multiple.py:164-168 | when the broadcast fails, no output is ever finished, no storage thread ends normally and nothing is visible |
| `Broadcast.VisibleIsCompleteOrFailed` | freezer/storage/multiple.py:42-75 | every storage always holds a prefix of the stream, and one that lists the backup holds the whole of it unless its own thread failed |
| `Broadcast.FailedFileIsCompleteIff` | freezer/storage/multiple.py:42-75 | for every run and every continuation: the file of a storage thread that fails in some step is complete if and only if all that was written so far reached it and only empty messages were still to come |
| `Broadcast.FailedStorageIsPublished` | freezer/storage/multiple.py:59-75 | and a failed thread is not noticed: a run in which it ends with a published backup and an empty file, for every one-message source |
| `BroadcastEnds.EveryBroadcastEnds` | freezer/storage/multiple.py:42-75 | for every source, bound, number of storages and faults: any interleaving of so many rounds, in each of which every thread moves, ends with the backup published, with all its parts on every storage, or aborted; failing storages and full queues keep nothing waiting for ever |
| `BroadcastEnds.FaultlessBroadcastPublishes` | freezer/storage/multiple.py:42-75 | and without a fault with the whole stream on every storage, and published |
| `BroadcastEnds.RaisingBroadcastAborts` | freezer/storage/multiple.py:169-174 | once the broadcast raised, as many such rounds as there is work left end with the main thread aborted and nothing visible, whatever else raises |
| `SchedulerJob.Job.constructor` | freezer/scheduler/scheduler_job.py:144-163 | a new job is stopped, with an event from its status where it has none |
| `SchedulerJob.Job.DoSchedule` | freezer/scheduler/scheduler_job.py:575-593 | the outcomes of scheduling, the raised unbound variable included |
| `SchedulerJob.Job.Unschedule` | freezer/scheduler/scheduler_job.py:595-603 | the timer drops the job, which is stopped without an event |
| `SchedulerJob.Job.DoStop` | freezer/scheduler/scheduler_job.py:36-102 | the three state classes' reaction to a stop |
| `SchedulerJob.Job.DoAbort` | freezer/scheduler/scheduler_job.py:46-108 | the three state classes' reaction to an abort |
| `SchedulerJob.Job.DoStart` | freezer/scheduler/scheduler_job.py:50-116 | the three state classes' reaction to a start |
| `SchedulerJob.Job.Remove` | freezer/scheduler/scheduler_job.py:61-121 | the three state classes' reaction to a removal |
| `SchedulerJob.Job.HandleEvent` | freezer/scheduler/scheduler_job.py:315-331 | for every recognised event the loop ends after at most two state methods, two exactly when a scheduled job is stopped |
| `SchedulerJob.Job.BeginExecution` | freezer/scheduler/scheduler_job.py:462-474 | an execution begins by entering the running state, whatever the state was |
| `SchedulerJob.Job.FinishExecution` | freezer/scheduler/scheduler_job.py:503-532 | an execution ends in one of the four ways |
| `SchedulerJob.LoopEndsIff` | freezer/scheduler/scheduler_job.py:315-331 | the event loop ends if and only if the event is one of the recognised ones |
| `SchedulerJob.StopAndAbortTell` | freezer/scheduler/scheduler_job.py:36-108 | after a polled stop or abort a job that is not running has the fetched document with no event and the status stop, off the timer after a stop and as it was after an abort; a running job records the event and keeps the rest |
| `SchedulerJob.StartOfStoppedJob` | freezer/scheduler/scheduler_job.py:50-58 | a start of a stopped job schedules it if and only if the timer takes and keeps it, with the fetched document; an unreadable schedule raises and leaves it stopped |
| `SchedulerJob.StartAndRemoveTell` | freezer/scheduler/scheduler_job.py:50-121 | a start of a job that is not stopped clears the event only; a removal is recorded by a running job, and otherwise stops it and marks it as removed |
| `SchedulerJob.RunKeepsInv` | freezer/scheduler/scheduler_job.py:34-121 | over every run, executions that raise included: a stopped job is not in the timer, an execution has the running state, and a scheduled job has no event recorded |
| `SchedulerJob.RunningEndsByFinishing` | freezer/scheduler/scheduler_job.py:462-532 | the running state is left only through `finish`, so not by an execution that raises, and entered only by a submitted execution |
| `SchedulerJob.RemovedOnlyByRemoval` | freezer/scheduler/scheduler_job.py:61-121 | a job becomes marked as removed if and only if it is removed while not running, or its execution finishes with a removal recorded, which only a removal records |
| `SchedulerJob.NoRemovalNotRemoved` | freezer/scheduler/scheduler_job.py:34-121 | so over every run without a removal no job is |
| `SchedulerJob.LastEventDecides` | freezer/scheduler/scheduler_job.py:462-532 | from the begin of an execution to the first one that finishes, with any events and raising executions between: the job stays scheduled if and only if the timer lists it and the last event recorded is not a stop, abort or removal; what the document says until then and afterwards |
| `SchedulerJob.BegunAreSubmitted` | freezer/scheduler/scheduler_job.py:462-532 | over every run, executions begun and waiting are those waiting before and those the timer submitted |
| `SchedulerJob.BoundedIff` | freezer/scheduler/scheduler_job.py:462-603 | until the next event only so many executions can begin if and only if the timer does not list the job, or executions do not raise and the one that finishes next will take it off |
| `SchedulerJob.EventBoundsIff` | freezer/scheduler/scheduler_job.py:34-121 | after which events, in which states, for which outcomes of scheduling, and with executions that raise or without, this is so |
| `SchedulerJob.StopBeginsAtMost` | freezer/scheduler/scheduler_job.py:34-121 | after a stop with no new start, over every run: at most one execution begins, already submitted or left over from one that raised, and one more for each that raises |
| `SchedulerJob.FinalIff` | freezer/scheduler/scheduler_job.py:34-121 | with no new start, the executions of a job are bounded over all runs if and only if the timer does not list it |
| `SchedulerJob.StopIsFinalIff` | freezer/scheduler/scheduler_job.py:36-102 | so a stop is final if and only if it does not meet a running job that the timer lists |
| `SchedulerJob.RaisingJobOutlastsStop` | freezer/scheduler/scheduler_job.py:462-501 | a run from a new job: its execution raises, it is stopped, and any number of executions begin without a start |
| `SchedulerJob.StuckForever` | freezer/scheduler/scheduler_job.py:34-121 | a running job without an execution that the timer does not list stays so over every run, and executes no more |
| `SchedulerJob.RemovableIff` | freezer/scheduler/scheduler_job.py:34-121 | some run removes a job if and only if it is not such a one |
| `SchedulerJob.AbortIsFinalIff` | freezer/scheduler/scheduler_job.py:78-80 | an abort is final if and only if the timer does not list the job; a scheduled one is told that it is stopped and keeps executing |
| `SchedulerJob.StatusStaysTruthfulIff` | freezer/scheduler/scheduler_job.py:78-80 | the document's status follows the state in every step but the abort of a scheduled job |
| `FreezerScheduler.FreezerScheduler.VisitDoc` | freezer/scheduler/freezer_scheduler.py:225-235 | one fetched document is processed by its job, created if need be, unless it is an abort without a process id, which raises and leaves the job alone; other jobs are untouched |
| `FreezerScheduler.FreezerScheduler.AskMissing` | freezer/scheduler/freezer_scheduler.py:238-240 | exactly the jobs that were not fetched are asked to be removed |
| `FreezerScheduler.FreezerScheduler.PopRemoved` | freezer/scheduler/freezer_scheduler.py:242-246 | exactly the removed jobs leave the table |
| `FreezerScheduler.FreezerScheduler.Poll` | freezer/scheduler/freezer_scheduler.py:214-246 | a poll as a function of the table and what was fetched, up to the first document that raises; no change when fetching raises |
| `FreezerScheduler.AbortWithoutPidStops` | freezer/scheduler/freezer_scheduler.py:230-233 | a poll ends at the first abort without a process id: its job does not see the event, and neither later documents nor requests for removal are reached |
| `FreezerScheduler.BlockedPollsRemoveNothing` | freezer/scheduler/freezer_scheduler.py:225-246 | over every series of polls that fetch such a document, a job that is no longer fetched keeps its place and its state |
| `FreezerScheduler.FetchedOnceIsProcessed` | freezer/scheduler/freezer_scheduler.py:225-235 | in a poll that does not raise, a document fetched once is processed once by its own job, whatever else is fetched |
| `FreezerScheduler.NewJobStartsUnlessStopped` | freezer/scheduler/scheduler_job.py:144-156 | a new job without an event, however its scheduling goes: the timer lists it if and only if its status is not stop and the timer took it and did not drop it at once |
| `FreezerScheduler.PollLeavesFetchedOrRunning` | freezer/scheduler/freezer_scheduler.py:214-246 | after a poll an unfetched job is left if and only if it has the running state, with its removal recorded; every job dropped is stopped and not in the timer |
| `FreezerScheduler.FetchedJobStays` | freezer/scheduler/freezer_scheduler.py:214-246 | a job that is fetched stays in the table as its events left it, whatever they are, unless it was marked as removed before, or is new and its document says so; and after a poll no job in the table is so marked |
| `FreezerScheduler.StuckJobNeverLeaves` | freezer/scheduler/freezer_scheduler.py:214-246 | a job whose execution raised after the timer had dropped it stays in the table over every series of polls, fetched or not |
| `FreezerScheduler.StartedWhileRemoved` | freezer/scheduler/freezer_scheduler.py:237-246 | an execution that begins between the request for removal and the check lets the job outlive this poll, also if it finishes in between, unless the job had the running state before; but not the next poll |
| `Retention.AdminOs.DeleteSingleBackup` | freezer/openstack/admin.py:40-68 | one backup is deleted, or left with the status of the failure and raised |
| `Retention.AdminOs.DeleteBackupAndDependents` | freezer/openstack/admin.py:70-103 | a full backup and its dependents go, newest first, up to a failure; the trace holds the store after each deletion, as a function of the old store, and in each of them every incremental has its parent |
| `Retention.AdminOs.FindDependents` | freezer/openstack/admin.py:92-98 | exactly the incrementals between a backup and the next full one, in order |
| `Retention.AdminOs.DeleteOffLimitFullBackup` | freezer/openstack/admin.py:105-128 | the surplus full backups go one by one up to a failure, with the store after each deletion as a function of the old store |
| `Retention.AdminOs.RemoveOlderThan` | freezer/openstack/admin.py:130-149 | available backups made by a time go, newest first, up to a failure, with the store after each deletion as a function of the old store |
| `Retention.DeletionKeepsLinksIff` | freezer/openstack/admin.py:92-103 | deleting one backup orphans nothing if and only if no incremental stands right after it |
| `Retention.RetentionNeverOrphans` | freezer/openstack/admin.py:105-128 | after every single deletion of a retention, whichever fail, no incremental lacks its parent |
| `Retention.ChainDeletionLeaves` | freezer/openstack/admin.py:70-103 | whichever deletions fail: deleting a backup and its dependents raises if and only if one of them fails, those newer than the newest failure are gone, that one carries the status of its failure, and the others are untouched |
| `Retention.RetentionStops` | freezer/openstack/admin.py:105-128 | a retention that meets no failure ends as if none were possible; otherwise there is a first chain with a failure, those before it are gone and those behind it are not looked at |
| `Retention.RetentionDeletesWholeChains` | freezer/openstack/admin.py:105-128 | for every number to keep and whatever statuses: what stays are exactly the backups that do not go back to one of the oldest surplus available full ones, in order |
| `Retention.RetentionKeepsSuffix` | freezer/openstack/admin.py:105-128 | with all full backups available, keeping k >= 1 leaves exactly the history from the k-th last full backup, or all of it |
| `Retention.FullsLeft` | freezer/openstack/admin.py:111-128 | how many full backups remain for every number to keep, zero and negative ones included |
| `Retention.RemovalByAgeOrphansIff` | freezer/openstack/admin.py:130-149 | over histories sorted by creation time, removal by age leaves no orphan if and only if neither the oldest newer backup nor an older unavailable one is an incremental on an available parent |
| `Retention.RemovalByAgeIff` | freezer/openstack/admin.py:130-149 | with every backup available exactly the newer ones stay, without an orphan if and only if the oldest of them is a full one or there is none |
| `Retention.RemovalByAgeKeepsParents` | freezer/openstack/admin.py:130-149 | in every state that a removal by age goes through, whichever deletions fail, an available incremental made by the time that is still there has its parent there: only backups that are spared ever lose theirs |
| `Retention.RemovalByAgeLeaves` | freezer/openstack/admin.py:130-149 | a removal by age raises if and only if the deletion of a due backup fails; then the due ones newer than the newest failure are gone, that one carries the status of its failure, and all older ones are untouched |
| `Retention.StatesByAge` | freezer/openstack/admin.py:138-149 | each of those states is the history without the available backups made by the time from some position on, of which the oldest may be left with the status of its failure |
| `Retention.IncrementalOutlivesParent` | freezer/openstack/admin.py:130-149 | for every time, a history of a full backup and an incremental of which only the incremental is left |
| `HeaderText.CountedDigits` | freezer/engine/rsync/rsync.py:470-475 | counting the digits of the length carries into at most one more digit, and then no further |
| `HeaderText.SplitOfJoin` | freezer/engine/rsync/rsync.py:208-210 | splitting joined NUL-free fields gives them back |
| `HeaderText.JoinOfSplit` | freezer/engine/rsync/rsync.py:477-481 | joining what was split gives any bytes back |
| `HeaderText.HeaderCountsItself` | freezer/engine/rsync/rsync.py:461-482 | the decimal at the head of every header is the header's own byte length, carry or not |
| `RecordStream.RsyncEngine.PutRecord` | freezer/engine/rsync/rsync.py:918-935 | a new file's header and whole content are put, in blocks of at most the buffer size |
| `RecordStream.MatchIsLength` | freezer/engine/rsync/rsync.py:182-197 | any part of a header's stream matches exactly once its length field and NUL are there, with that length |
| `RecordStream.RsyncEngine.WriteFile` | freezer/engine/rsync/rsync.py:321-339 | a file gets the next `size` bytes under any chunking and hands back the rest; a short stream gives what there is |
| `RecordStream.RsyncEngine.MakeFiles` | freezer/engine/rsync/rsync.py:484-545 | one record takes its size from the stream, or fails on a missing or unreadable field |
| `RecordStream.RsyncEngine.RestoreRecord` | freezer/engine/rsync/rsync.py:196-213 | one header is completed and split, and its file restored |
| `RecordStream.RsyncEngine.RestoreLevel` | freezer/engine/rsync/rsync.py:171-216 | for every list of records with NUL-free fields and every cut of its stream into pieces: the fields and contents come back without an exception if and only if, of each header, the piece after the first one that ends behind its length field reaches its end |
| `RecordStream.LongPiecesFit` | freezer/engine/rsync/rsync.py:196-205 | which holds for pieces that can each hold a header, but for the last one |
| `FileRecords.StoredIff` | freezer/engine/rsync/rsync.py:842-846 | the content is stored of regular files and those of unknown kind, and of no others |
| `FileRecords.FilesComeBack` | freezer/engine/rsync/rsync.py:600-677 | for every list of files with NUL-free names and right sizes: their records are valid, and what comes back of each holds its path, mode, size, mtime and kind where the restore looks for them, and its content |
| `Resizing.ReSizeStream.Next` | freezer/utils/utils.py:268-299 | the next piece of the size asked for, shorter only at the end, None only when nothing is left; `transmitted` counts it |
| `Resizing.ReSizeStream.Read` | freezer/utils/utils.py:301-303 | the same with a new size |
| `Resizing.PiecesConserve` | freezer/utils/utils.py:268-303 | for any chunks and sizes the pieces and what is left make up the stream |
| `Resizing.NoneAfterAllBytes` | freezer/utils/utils.py:288-294 | None comes if and only if all bytes were given before |
| `Resizing.PiecesHaveSizes` | freezer/utils/utils.py:268-303 | every piece but the last has the size asked for |
| `SegmentNames.NamesSortIff` | freezer/storage/swift.py:209-213 | the names of n segments sort in write order if and only if n is at most 10^8 |
| `SegmentNames.SwiftStorage.WriteBackup` | freezer/storage/swift.py:202-213 | exactly the messages are stored, each under its own name, for any number of them |
| `SegmentNames.ManifestIsStream` | freezer/storage/swift.py:106-120 | up to 10^8 segments, joining the objects in name order gives the stream that was written |

## Left out

* Directories, symbolic links, devices, fifos, hard links, ownership, and paths that change their type:
  operating system effects.
* Exclude patterns, the msgpack format (any sound `Codec` stands for it), compression, encryption, dry runs, overwrite checks, temporary directories.
* `BlockDelta.PatchBlock`: refilling appends to the read buffer; freezer/engine/rsyncv2/rsyncv2.py:465-468
  writes at the read cursor, which is the same only when the buffer is empty
  (`BlockDelta.RefillAtCursorAppendsIff`), and calls the generator in the manner of Python 2.
* `ChainRestore.RestoreGivesLastBackup`: asks for a told run. Without `SizesTold` one chain also mixes deltas of
  several sizes; `MixedSizes.RestoreUnderAnySize` then asks that each patch is right under the size of the
  restore. That is exact for the files of a level one by one (`SignatureSizes.StaleSizeIff` for the base's size,
  `BlockSizes.WrittenHeaderFitsIff` for the restore's); a level in which patches read wrong bytes could still give
  the right tree by coincidence. `SizeChange` has a run that goes wrong.
* `ChainRestore.BackupAgent.Backup`: the two threads are one step, which may fail and then publishes nothing;
  `Commit` has their interleavings. A failure after the backup became visible leaves it listed without its
  own metadata file, which is not part of the store here.
* `ChainRestore.BackupAgent.Restore`: the directory is empty at first. The reading thread delivers a stream or
  a part of it; when it raises instead, the source fails the restore after that level.
* `Planner.Storage.GetLevelZero`: visibility is that of file-system-like storages; a storage whose
  upload swallows errors (freezer/storage/s3.py) is not covered by the commit theorems.
* `Commit.CommitSafety`: a listed backup may still lack its own metadata file, which is put last.
* `Broadcast.RunKeepsInv`: making a storage's directories is one step there; `Commit` has both.
* `SchedulerJob.RunKeepsInv`: one job object an id; a job removed while its execution waits and created
  again under the same id would share the timer's entry.
* `FreezerScheduler.FreezerScheduler.Poll`: executions do not interleave inside a poll, and every
  document has an event field; `FreezerScheduler.StartedWhileRemoved` says what interleaving can do.
* The actions of a job and their retries, but that an execution may raise; sessions; the process that an abort
  terminates. Sending a job's metadata to the API is taken to succeed.
* `Retention.AdminOs.DeleteOffLimitFullBackup`: one volume's backups; other volumes are never listed.
  Waiting for a deletion is one step, which succeeds or fails.
* `FileRecords.FilesComeBack`: modes, sizes and times are not negative; a file that changes its size while it is read is
  not a sound one.
* `RecordStream.RsyncEngine.RestoreLevel`: number fields are plain decimals, not every spelling that Python's `int`
  accepts; incremental records (`level_id` 1111) count as failures, because the token stream of the first
  rsync engine has no general round trip.
* `SegmentNames.SwiftStorage.WriteBackup`: the segments path is new and every upload succeeds.
* `Resizing.ReSizeStream.Next`: sizes are positive.
* Storage clients (Swift, S3, FTP, SSH), authentication, snapshots, the tar engine, option parsing.
