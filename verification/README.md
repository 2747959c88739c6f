# Models of the storage engine, the message codec and the voting session

Dinder lets a group of people agree on a restaurant. Its repository carries, as libraries, the
LevelDB storage engine and the nanopb message codec; the app itself is a voting session kept in
one shared document. This project models these three and proves what each promises.

- **Storage engine.** `Engine` is a state machine: writes, memtable switches, flushes, compactions,
  file moves, snapshots, file deletion, crashes with recovery. `DbImpls.DBImpl` is the database
  object, whose methods take exactly these steps. `Runs` and `Histories` hold the theorems over whole runs.
  `Selection`, `Compactions`, `DropRules`, `Levels`, `Builders`, `Installing` cover the choice of
  inputs, the drop rules, the order of levels and the installation of edits; `WriteSteps`,
  `InstallSteps`, `MoveSteps` show that each step keeps the invariant; `UnsafeCompactions` says
  exactly when a compaction goes wrong. `Ops` says what readers make of a batch; `GroupCommit` is the queue of
  writers as a protocol.
- **Iterators.** `Mergers`, `TwoLevelIterators`, `DBIterators`: each is a cursor over a specified
  sequence, under any mix of seeks and moves in both directions.
- **Bytes.** `Codings`, `Crc32c`, `Logs`, `LogDamage` (any bytes as a log), `WriteBatches`, `VersionEdits`, `Blocks`, `Filters`, `Tables`,
  `KeyOrders`; `TornLogs` and `TableGets` tie log files and table files to the engine.
- **Structures.** `SkipLists` (with readers interleaved between the stores of the writer),
  `Caches`, `Snapshots`.
- **Messages.** `PbMessages`, `PbEncoding`, `PbDecoding`, `PbInputs`, `PbRoundTrips`; `PbLaws` and `PbMerges` hold
  what no single encoding shows: unknown fields, fields sent twice, messages in pieces, values that do not fit.
- **Voting.** `Votings`: clients, transactions and snapshot deliveries in any interleaving.

A user key stands for its position in the order of the user comparator (`KeyOrders.RankOrder`
shows that byte strings embed in it). The specification of the whole store is `Entries.Read`: the
newest entry of a key at or below a sequence number. Choices that depend on sizes, memory use or
input/output (when a memtable is full, when an output file is closed, what random height a node
gets) are left open, so the theorems hold for all of them.

## Model

| member | source | states |
|---|---|---|
| Mergers.MergeAllSorts | Dinder/Pods/leveldb-library/table/merger.cc:15-176 | merging sorted runs gives a sequence that holds exactly the entries of the runs and never steps back; it is strictly sorted if and only if no two runs share an internal key |
| Mergers.SmallestIsNext | Dinder/Pods/leveldb-library/table/merger.cc:148-161 | with every child just past the first n merged entries, the first child among those with the least key stands on entry n, and there is none only at the end |
| Mergers.MergingIterator.FindSmallest | Dinder/Pods/leveldb-library/table/merger.cc:148-161 | the loop finds that child: the iterator then stands on entry n of the merged sequence, and is invalid exactly at its end |
| Mergers.MergingIterator.FindLargest | Dinder/Pods/leveldb-library/table/merger.cc:163-176 | with every child on the last of its first entries, the iterator then stands on the last of the n merged entries, and is invalid exactly if n is 0 |
| Mergers.MergingIterator.SeekToFirst | Dinder/Pods/leveldb-library/table/merger.cc:31-37 | stands on the first entry of the merged sequence, or is invalid if it is empty |
| Mergers.MergingIterator.SeekToLast | Dinder/Pods/leveldb-library/table/merger.cc:39-45 | stands on the last entry of the merged sequence, or is invalid if it is empty |
| Mergers.MergingIterator.Seek | Dinder/Pods/leveldb-library/table/merger.cc:47-53 | everything before the new position is before the target, and the entry there is at or after it |
| Mergers.MergingIterator.Next | Dinder/Pods/leveldb-library/table/merger.cc:55-79 | over any sorted children: one entry on when moving forward; turning round, past every entry with the current key |
| Mergers.MergingIterator.Prev | Dinder/Pods/leveldb-library/table/merger.cc:81-108 | over any sorted children: one entry back when moving backward; turning round, to just before the first entry with the current key; invalid if there is none |
| Mergers.TurningSkipsCopiesIff | Dinder/Pods/leveldb-library/table/merger.cc:63-105 | turning round lands on the neighbouring entry if and only if no copy of the current internal key lies that way, hence always when no two children share one |
| DBIterators.ViewIsReads | Dinder/Pods/leveldb-library/db/db_iter.cc:36-47 | the list a client iterates over is strictly sorted by user key and holds (u, v) if and only if reading u at the sequence number answers v among the entries that parse |
| DBIterators.ScanForwardFindsLive | Dinder/Pods/leveldb-library/db/db_iter.cc:168-198 | the forward scan stops at the next entry that is the newest visible one of its key, is a value and is not to be skipped, passing over no such entry |
| DBIterators.DBIter.FindNextUserEntry | Dinder/Pods/leveldb-library/db/db_iter.cc:168-198 | the loop ends where that scan ends, and reports corruption if and only if some key passed does not parse |
| DBIterators.ScanBackwardFinds | Dinder/Pods/leveldb-library/db/db_iter.cc:227-267 | the backward scan ends on a live entry, with the internal iterator before all its entries |
| DBIterators.ScanBackwardMissesNone | Dinder/Pods/leveldb-library/db/db_iter.cc:227-267 | and passes over no other live entry, the one in hand included |
| DBIterators.DBIter.FindPrevUserEntry | Dinder/Pods/leveldb-library/db/db_iter.cc:227-267 | the loop ends where that scan ends, with the key and the value saved, and reports corruption if and only if some key passed does not parse |
| DBIterators.DBIter.Next | Dinder/Pods/leveldb-library/db/db_iter.cc:141-166 | from either direction, one place on in the list of live keys |
| DBIterators.DBIter.Prev | Dinder/Pods/leveldb-library/db/db_iter.cc:200-225 | from either direction, one place back in the list of live keys; invalid from the first |
| DBIterators.DBIter.Seek | Dinder/Pods/leveldb-library/db/db_iter.cc:269-281 | the first live key at or after the target |
| DBIterators.DBIter.SeekToFirst | Dinder/Pods/leveldb-library/db/db_iter.cc:283-292 | the first live key |
| DBIterators.DBIter.SeekToLast | Dinder/Pods/leveldb-library/db/db_iter.cc:294-299 | the last live key |
| TwoLevelIterators.TwoSeeks | Dinder/Pods/leveldb-library/table/two_level_iterator.cc:82-87 | a search of the index followed by one in the block it names splits the concatenation of all blocks at the target |
| TwoLevelIterators.TwoLevelIterator.Seek | Dinder/Pods/leveldb-library/table/two_level_iterator.cc:82-87 | the position splits the concatenation of all blocks at the target, empty blocks skipped |
| TwoLevelIterators.TwoLevelIterator.SeekToFirst | Dinder/Pods/leveldb-library/table/two_level_iterator.cc:89-94 | the first entry of all blocks |
| TwoLevelIterators.TwoLevelIterator.SeekToLast | Dinder/Pods/leveldb-library/table/two_level_iterator.cc:96-101 | the last entry of all blocks |
| TwoLevelIterators.TwoLevelIterator.Next | Dinder/Pods/leveldb-library/table/two_level_iterator.cc:103-107 | one entry on in the concatenation, across block borders and empty blocks |
| TwoLevelIterators.TwoLevelIterator.Prev | Dinder/Pods/leveldb-library/table/two_level_iterator.cc:109-113 | one entry back in the concatenation, across block borders and empty blocks; invalid from the first |
| Versions.LookupIsNewest | Dinder/Pods/leveldb-library/db/memtable.cc:100-134 | looking (u, s) up in a sorted run finds the newest entry of u at or below s, and nothing exactly when there is none |
| Versions.FindFromIsFirst | Dinder/Pods/leveldb-library/db/version_set.cc:88-106 | the binary search over disjoint files in order ends at the first file whose largest key is not before the key sought |
| Versions.VersionGet | Dinder/Pods/leveldb-library/db/version_set.cc:326-421 | searching level 0 from the newest file on and then one file a level finds the newest visible entry of the version, or nothing exactly when there is none |
| Runs.Get | Dinder/Pods/leveldb-library/db/db_impl.cc:1100-1145 | memtable, immutable memtable, version: the answer is that of the set of all entries of the database |
| Selection.GetOverlappingInputs | Dinder/Pods/leveldb-library/db/version_set.cc:519-559 | the files overlapping a range; at level 0 the range used is closed, covers the one asked for and is the least such |
| Selection.AddBoundaryInputs | Dinder/Pods/leveldb-library/db/version_set.cc:1378-1401 | keeps the files picked and adds only files that start on the user key on which those before them end, until none is left; the result is gapless and in level order |
| Selection.PickCompaction | Dinder/Pods/leveldb-library/db/version_set.cc:1270-1322 | what is picked may start a compaction: on level 0 all files of a closed range, on other levels one file; it includes the file sought in vain if that was the reason, and otherwise the first file that ends after the place of the last compaction, or the first of all |
| Selection.CompactRange | Dinder/Pods/leveldb-library/db/version_set.cc:1464-1495 | nothing if and only if no file overlaps the range; otherwise a start for a compaction, all overlapping files or, above level 0, the shortest prefix of them that makes up the size limit |
| Selection.SetupOtherInputs | Dinder/Pods/leveldb-library/db/version_set.cc:1403-1462 | the inputs contain the start; files left behind on the level are newer than those taken; files left alone on the next level lie outside the range of the inputs; the lower inputs are exactly the files the upper ones overlap, and files beyond the boundary files are taken only for no more lower inputs and below the size limit |
| Inputs.InputsMerge | Dinder/Pods/leveldb-library/db/version_set.cc:1237-1268 | one run for each level-0 file and one for the files of another level can be merged: the input is sorted and holds exactly the entries of the input files |
| Inputs.ReadRuns | Dinder/Pods/leveldb-library/table/merger.cc:31-79 | a merging iterator read from first to last yields the merged sequence |
| Compactions.Compaction.IsBaseLevelForKey | Dinder/Pods/leveldb-library/db/version_set.cc:1533-1552 | for ascending user keys the moving file pointers give exactly: no file below the output level spans the key |
| Compactions.DoCompactionWork | Dinder/Pods/leveldb-library/db/db_impl.cc:878-1036 | the outputs, concatenated, are the entries the drop rules retain, in files numbered consecutively and never empty |
| DropRules.RetainedIsKept | Dinder/Pods/leveldb-library/db/db_impl.cc:930-964 | an entry is retained if and only if it is above smallest_snapshot, or the newest of its key at or below it and not a deletion with no older file beneath |
| DropRules.ReadsPreservedIff | Dinder/Pods/leveldb-library/db/db_impl.cc:930-964 | all reads of u at or above smallest_snapshot stay the same if and only if no dropped deletion of u hides an older value outside the inputs |
| DropRules.KeptDropsEnough | Dinder/Pods/leveldb-library/db/db_impl.cc:930-964 | what is kept holds no user key twice at or below smallest_snapshot, and no deletion there that hides nothing deeper |
| Levels.MoveKeepsLevelOrderIff | Dinder/Pods/leveldb-library/db/db_impl.cc:860-876 | replacing the inputs of a compaction by its outputs keeps the levels in order if and only if every file left alone on the output level is apart from every output |
| Levels.MoveKeepsLevelOrder | Dinder/Pods/leveldb-library/db/db_impl.cc:860-876 | so properly selected inputs always do |
| Levels.SomeFileOverlapsRange | Dinder/Pods/leveldb-library/db/version_set.cc:122-157 | true if and only if some file overlaps the range of user keys, by scan or by binary search |
| Levels.PickLevelForMemTableOutput | Dinder/Pods/leveldb-library/db/version_set.cc:491-516 | the deepest of levels 0 to 2 that is reached past levels without overlapping files and with at most maxGrandParentOverlap bytes of overlap two levels further down at each step |
| Levels.FlushKeepsLevelOrder | Dinder/Pods/leveldb-library/db/db_impl.cc:491-533 | a table newer than the whole version, put on that level, keeps the levels in order |
| Builders.SaveIsUnion | Dinder/Pods/leveldb-library/db/version_set.cc:695-755 | the merge loop leaves on a level exactly the base and added files not deleted, in file order |
| Builders.Builder.Apply | Dinder/Pods/leveldb-library/db/version_set.cc:650-692 | the builder holds, for every level, what applying the edit to it gives |
| Builders.Builder.SaveTo | Dinder/Pods/leveldb-library/db/version_set.cc:695-755 | the version saved is the base with all applied edits |
| Builders.ReplayIsInstallAll | Dinder/Pods/leveldb-library/db/version_set.cc:886-1011 | all manifest records through one builder give on each level the files that installing the edits one by one gives |
| Builders.SnapshotRestores | Dinder/Pods/leveldb-library/db/version_set.cc:1088-1116 | a manifest holding only the snapshot record of a version replays to that version |
| Installing.InstallIsMoved | Dinder/Pods/leveldb-library/db/version_set.cc:801-884 | installing the edit of a compaction removes the inputs from both levels, adds the outputs to the lower one and changes nothing else |
| Installing.InstallIsAdded | Dinder/Pods/leveldb-library/db/version_set.cc:801-884 | installing an edit that only adds files to one level adds exactly those |
| Recovery.SnapshotRecorded | Dinder/Pods/leveldb-library/db/version_set.cc:1088-1116 | the manifest that recovery starts replays to the recovered version |
| WriteSteps.WriteKeepsInv | Dinder/Pods/leveldb-library/db/db_impl.cc:1185-1256 | logging a group and inserting it keeps the invariant: levels in order, memtables newer than tables, log contents equal to memtable contents, manifest replaying to the version |
| WriteSteps.SwitchKeepsInv | Dinder/Pods/leveldb-library/db/db_impl.cc:1345-1367 | so does starting a new log and memtable |
| WriteSteps.DeleteObsoleteKeepsInv | Dinder/Pods/leveldb-library/db/db_impl.cc:223-278 | so does deleting logs below log_number and tables of no version |
| InstallSteps.FlushKeepsInv | Dinder/Pods/leveldb-library/db/db_impl.cc:535-566 | so does turning the immutable memtable into a table on the level picked |
| MoveSteps.TrivialMoveKeepsInv | Dinder/Pods/leveldb-library/db/db_impl.cc:718-728 | so does moving a file down a level |
| MoveSteps.CompactKeepsInv | Dinder/Pods/leveldb-library/db/db_impl.cc:860-1036 | so does every compaction of selected inputs, also one that loses a deletion |
| MoveSteps.CompactKeepsReads | Dinder/Pods/leveldb-library/db/db_impl.cc:930-964 | a compaction keeps, at every live snapshot and later, the reads of each key it spares |
| Recovery.CrashKeepsInv | Dinder/Pods/leveldb-library/db/db_impl.cc:280-489 | recovery from the disk a crash leaves at any moment re-establishes the invariant |
| Recovery.CrashLosesNothing | Dinder/Pods/leveldb-library/db/db_impl.cc:280-489 | the recovered database holds exactly the entries held before, and the group in flight if its record was complete, and last_sequence is as far on as that |
| Recovery.NoTableMissing | Dinder/Pods/leveldb-library/db/db_impl.cc:330-347 | recovery never finds a table missing that the manifest names |
| Runs.RunKeepsInv | Dinder/Pods/leveldb-library/db/db_impl.cc:688-1256 | the invariant holds in every state of every run of writes, switches, flushes, moves, compactions, snapshots, deletions and crashes |
| Runs.LevelsStayOrdered | Dinder/Pods/leveldb-library/db/version_set.cc:723-737 | every version a run reaches has disjoint ordered files on each level from 1 on, newer entries above older ones, and unique file numbers |
| Runs.ReadsAreRight | Dinder/Pods/leveldb-library/db/db_impl.cc:1100-1145 | a read at any live snapshot or later answers from exactly the entries committed so far, for each user key spared by all compactions before |
| Histories.ReadsAreLastOps | Dinder/Pods/leveldb-library/db/db_impl.cc:1100-1145 | in every state of every run, a reader at sequence number s finds for each key spared by all compactions just what the last operation on it says among the first s operations ever committed, groups in flight at a crash included if their record was complete |
| Runs.CompactionBreaksIff | Dinder/Pods/leveldb-library/db/db_impl.cc:930-964 | one compaction breaks the reads of a key at live snapshots if and only if it does not spare it |
| Runs.CrashIsInvisible | Dinder/Pods/leveldb-library/db/db_impl.cc:280-489 | a crash anywhere in a run changes no entry but by the group in flight, and no answer at a sequence number already committed |
| UnsafeCompactions.ResurrectedIff | Dinder/Pods/leveldb-library/db/version_set.cc:1378-1462 | a deleted key comes back if and only if the compaction drops its deletion and the boundary files left out on the output level hold a value of it |
| UnsafeCompactions.SparesIff | Dinder/Pods/leveldb-library/db/version_set.cc:1378-1462 | the same for a compaction of the engine in any reachable state |
| UnsafeCompactions.ResurrectionNeedsBoundary | Dinder/Pods/leveldb-library/db/version_set.cc:1378-1462 | it then is the last user key of some input file whose neighbour, left out, starts on the same key |
| UnsafeCompactions.SafeWithoutBoundary | Dinder/Pods/leveldb-library/db/version_set.cc:1378-1462 | with no such neighbour left out, every read at a live snapshot is preserved |
| UnsafeCompactions.AllSpared | Dinder/Pods/leveldb-library/db/version_set.cc:1378-1462 | and every key is spared |
| UnsafeCompactions.DeletedKeyReappears | Dinder/Pods/leveldb-library/db/version_set.cc:1407-1411 | a version, in order, whose selected inputs make a deleted key read as its old value |
| UnsafeCompactions.FlushDuringCompactionIff | Dinder/Pods/leveldb-library/db/db_impl.cc:908-918 | with a memtable flushed while a compaction runs, installing the compaction keeps the levels in order if and only if the flushed file is not on the output level or is apart from all outputs |
| UnsafeCompactions.FlushedFileOverlapped | Dinder/Pods/leveldb-library/db/db_impl.cc:908-918 | a version, inputs and a flush for which it is not: the two edits installed one after the other leave overlapping files on level 2 |
| UnsafeCompactions.ReadLost | Dinder/Pods/leveldb-library/db/version_set.cc:88-106 | in that version the search of every level misses a value that is stored |
| DbImpls.DBImpl.Open | Dinder/Pods/leveldb-library/db/db_impl.cc:280-489 | opening the disk of a crash takes exactly the crash step of the engine: a database that meets the invariant and holds the entries held before, and the group in flight, with last_sequence to match and no snapshots |
| DbImpls.RecoverLogFile | Dinder/Pods/leveldb-library/db/db_impl.cc:371-489 | the tables written hold exactly the entries of the log, in chunks in log order, under fresh ascending numbers |
| DbImpls.DBImpl.WriteGroup | Dinder/Pods/leveldb-library/db/db_impl.cc:1205-1237 | takes exactly the write step of the engine; after it, at last_sequence and later, a key reads as the value last put by the group, as absent if the group deleted it last, and as before if the group does not touch it |
| Ops.BatchReads | Dinder/Pods/leveldb-library/db/write_batch.cc:116-137 | over any entries with smaller numbers, the entries a batch becomes make each key read as its last operation says, and leave all others |
| DbImpls.DBImpl.SwitchMemTable | Dinder/Pods/leveldb-library/db/db_impl.cc:1345-1367 | takes exactly the switch step of the engine |
| DbImpls.DBImpl.CompactMemTable | Dinder/Pods/leveldb-library/db/db_impl.cc:535-566 | takes exactly the flush step of the engine, to the level picked for the range of the memtable |
| DbImpls.DBImpl.BackgroundCompaction | Dinder/Pods/leveldb-library/db/db_impl.cc:688-767 | the immutable memtable first; then a manual range, where a step is taken if and only if some file of the level overlaps the range, and it is a merge on that level; then what is due, on its level; exactly one flush, move or compaction step of the engine, never breaking the invariant |
| DbImpls.DBImpl.MergeDown | Dinder/Pods/leveldb-library/db/db_impl.cc:860-1036 | merging, dropping, cutting into tables and installing is exactly the compaction step of the engine; at or below the oldest snapshot, or last_sequence if there is none, the outputs hold no user key twice, and no deletion of a key that no table deeper than the output level spans |
| DbImpls.DBImpl.DeleteObsoleteFiles | Dinder/Pods/leveldb-library/db/db_impl.cc:223-278 | keeps exactly the logs from log_number on and the tables of the current version |
| DbImpls.DBImpl.GetSnapshot | Dinder/Pods/leveldb-library/db/db_impl.cc:1166-1169 | takes exactly the snapshot step and returns last_sequence, now the newest of the snapshots |
| DbImpls.DBImpl.Get | Dinder/Pods/leveldb-library/db/db_impl.cc:1100-1145 | at a live snapshot or the present, the answer of all stored entries; of everything ever committed, for a key no compaction has failed |
| DbImpls.IteratorIsReads | Dinder/Pods/leveldb-library/db/db_impl.cc:1062-1087 | the view of the merged memtables and levels lists, strictly sorted, exactly the (u, v) that a read of u answers with v |
| DbImpls.DBImpl.NewIterator | Dinder/Pods/leveldb-library/db/db_impl.cc:1147-1157 | a client iterator whose list is that of Get at the snapshot; of everything ever committed, for keys no compaction has failed |
| GroupCommit.BuildBatchGroup | Dinder/Pods/leveldb-library/db/db_impl.cc:1260-1306 | the group is the longest run of waiting writers that may join the leader under the sync and size rules, its batch their operations in queue order |
| GroupCommit.SyncOnlyUnderSync | Dinder/Pods/leveldb-library/db/db_impl.cc:1282-1285 | a leader that does not sync carries no writer that asked for it |
| GroupCommit.CommittedInOrder | Dinder/Pods/leveldb-library/db/db_impl.cc:1185-1256 | in every state of every interleaving, writers are served in order of arrival, and log and memtable hold each batch once, in that order, under consecutive sequence numbers |
| GroupCommit.ServedReads | Dinder/Pods/leveldb-library/db/db_impl.cc:1185-1256 | in every state of every interleaving, a reader at last_sequence finds for each key what the last operation on it by a served writer says |
| GroupCommit.GroupSize | Dinder/Pods/leveldb-library/db/db_impl.cc:1260-1306 | a group is at most 1 MB, or 128 KB more than a small first batch, or that batch alone; and it stops early only before a batch that does not fit or a sync write under a leader that does not sync |
| GroupCommit.WholeGroupsVisible | Dinder/Pods/leveldb-library/db/db_impl.cc:1213-1236 | what readers see at any moment is exactly what the served writers wrote, never part of a group |
| GroupCommit.SyncIsHonoured | Dinder/Pods/leveldb-library/db/db_impl.cc:1215-1222 | a writer that asked for a sync is told it is done only after its batch, and all before it, is durable |
| Codings.FixedRoundTrip | Dinder/Pods/leveldb-library/util/coding.cc:9-33 | a fixed-width number decodes to itself |
| Codings.FixedDigit | Dinder/Pods/leveldb-library/util/coding.cc:9-33 | byte i of a fixed-width number is its i-th base-256 digit, lowest first |
| Codings.Varint32RoundTrip | Dinder/Pods/leveldb-library/util/coding.cc:47-128 | a varint below 2^32 decodes to itself and leaves what follows it |
| Codings.Varint64RoundTrip | Dinder/Pods/leveldb-library/util/coding.cc:81-157 | a varint below 2^64 decodes to itself and leaves what follows it |
| Codings.EncodeVarint64 | Dinder/Pods/leveldb-library/util/coding.cc:81-90 | the loop writes the varint |
| Codings.EncodeVarint32 | Dinder/Pods/leveldb-library/util/coding.cc:47-73 | the unrolled cases write the same varint |
| Codings.GetVarintPtr | Dinder/Pods/leveldb-library/util/coding.cc:112-157 | the loop reads what the recursive definition reads, or fails with it |
| Codings.LengthPrefixedRoundTrip | Dinder/Pods/leveldb-library/util/coding.cc:98-190 | a length-prefixed string decodes to itself and leaves what follows it |
| Codings.VarintDigit | Dinder/Pods/leveldb-library/util/coding.cc:47-91 | byte i of a varint holds the i-th base-128 digit, lowest first, with the high bit set on all but the last, and there are no more bytes than the number needs |
| Crc32c.ExtendConcat | Dinder/Pods/leveldb-library/util/crc32c.h:15-20 | extending a checksum by two strings in turn is extending it by their concatenation |
| Crc32c.UnmaskInverts | Dinder/Pods/leveldb-library/util/crc32c.h:28-38 | unmasking a masked checksum gives it back |
| Crc32c.OneBitCaught | Dinder/Pods/leveldb-library/util/crc32c.cc:276-380 | changing any one bit of any string changes its checksum |
| KeyOrders.RankOrder | Dinder/Pods/leveldb-library/util/comparator.cc:25-27 | mapping byte strings to reals keeps the bytewise order and equality, which justifies ranks as user keys |
| KeyOrders.InternalOrderIsBefore | Dinder/Pods/leveldb-library/db/dbformat.cc:51-67 | encoded internal keys compare as the internal keys of the engine |
| KeyOrders.ShortestSeparator | Dinder/Pods/leveldb-library/util/comparator.cc:29-50 | no longer than start and unchanged or strictly between start and limit; cut right after the first difference exactly when there is a byte to spare there, and then no string strictly between is shorter |
| KeyOrders.FindShortestSeparator | Dinder/Pods/leveldb-library/db/dbformat.cc:69-86 | the same for the user keys of internal keys, shortened exactly when that saves bytes, and then with the first trailer |
| KeyOrders.FindShortSuccessor | Dinder/Pods/leveldb-library/db/dbformat.cc:88-101 | unchanged, or no longer and with a greater user key and the first trailer; no user key after that of the key is shorter than what is returned |
| Logs.Writer.AddRecord | Dinder/Pods/leveldb-library/db/log_writer.cc:34-80 | appends exactly the fragments of the record, trailers included |
| LogDamage.FragmentForm | Dinder/Pods/leveldb-library/db/log_writer.cc:34-108 | a record begins, after at most six zeros that end a block, with a valid fragment that holds all of it or fills its block to the end; the type says which, and whether it is the first, and the rest follows likewise |
| Logs.RecordRead | Dinder/Pods/leveldb-library/db/log_reader.cc:56-174 | a record reads back whole if the file reaches its end, and otherwise not at all and without a report |
| Logs.TruncationGivesPrefix | Dinder/Pods/leveldb-library/db/log_reader.cc:56-271 | any truncation of a log reads as the records wholly before the cut, nothing reported |
| Logs.RoundTrip | Dinder/Pods/leveldb-library/db/log_reader.cc:56-271 | a whole log reads as the records written |
| Logs.Reader.ReadRecord | Dinder/Pods/leveldb-library/db/log_reader.cc:56-174 | the reader returns on any bytes what the specification of reading gives, reports included |
| LogDamage.OnlyWholeRecords | Dinder/Pods/leveldb-library/db/log_reader.cc:56-174 | on any bytes, every record returned is the data of one valid FULL fragment, or of a FIRST, MIDDLEs and a LAST that follow one another with nothing in between, and the records returned do not overlap |
| LogDamage.SkippedIsReported | Dinder/Pods/leveldb-library/db/log_reader.cc:56-174 | with no place in the file that is passed over in silence, a record returned without a report begins exactly where the one before ended |
| LogDamage.DamageIsLocal | Dinder/Pods/leveldb-library/db/log_reader.cc:56-174 | whatever the damage in the blocks of some records, the records before are returned, and all records from the next undamaged block boundary on, if the damage forges no end of the file |
| LogDamage.ForgedEndStops | Dinder/Pods/leveldb-library/db/log_reader.cc:144-151 | a valid fragment of the type that stands for the end of the file does end the reading |
| LogDamage.OneBitIsCaught | Dinder/Pods/leveldb-library/db/log_reader.cc:189-271 | a fragment with one bit of its type or data changed is valid no more, whatever type and data it is taken for |
| WriteBatches.RoundTrip | Dinder/Pods/leveldb-library/db/write_batch.cc:42-80 | a batch of fewer than 2^32 operations iterates to those operations, in order, with its sequence number and count |
| WriteBatches.InsertInto | Dinder/Pods/leveldb-library/db/write_batch.cc:116-137 | on any bytes: the operations read, numbered from the batch sequence on, and the status of the iteration |
| WriteBatches.BatchInserts | Dinder/Pods/leveldb-library/db/write_batch.cc:116-137 | a well-formed batch inserts each operation once, in order, under consecutive numbers |
| WriteBatches.CutIsRefused | Dinder/Pods/leveldb-library/db/write_batch.cc:42-80 | a batch cut short anywhere is refused, and yields only operations before the cut |
| WriteBatches.UnknownTagStops | Dinder/Pods/leveldb-library/db/write_batch.cc:42-80 | a record that is neither put nor delete ends the iteration with an error after the operations before it |
| WriteBatches.AcceptedCounts | Dinder/Pods/leveldb-library/db/write_batch.cc:42-80 | whatever the bytes, a batch is accepted only with as many operations as its header counts |
| WriteBatches.WriteBatch.Append | Dinder/Pods/leveldb-library/db/write_batch.cc:144-148 | the operations of one batch follow those of the other |
| TornLogs.CutReplaysPrefix | Dinder/Pods/leveldb-library/db/db_impl.cc:371-489 | a log file cut at any byte replays as the groups whose records lie wholly before the cut |
| TornLogs.AllOrNothing | Dinder/Pods/leveldb-library/db/db_impl.cc:371-489 | with any part of one more record on the log, recovery finds all of its group or nothing of it |
| TornLogs.TornWriteRecovers | Dinder/Pods/leveldb-library/db/db_impl.cc:280-489 | a database opened on files whose current log was cut anywhere inside the record being written holds everything committed, that group if and only if its record was complete, and nothing else |
| TornLogs.TornReads | Dinder/Pods/leveldb-library/db/db_impl.cc:371-489 | after a crash at any byte of the record being written, each key reads as the last record of the group on it says if the record is whole, and as before if not |
| TornLogs.TagIsType | Dinder/Pods/leveldb-library/db/write_batch.cc:121-128 | the first byte of a batch record is the type of the entry it is inserted as |
| VersionEdits.RoundTrip | Dinder/Pods/leveldb-library/db/version_edit.cc:41-205 | decoding an encoded edit gives it back, with the compaction pointers already in the target before its own |
| VersionEdits.RestoresIff | Dinder/Pods/leveldb-library/db/version_edit.cc:26-39 | so it gives exactly the edit if and only if the target had no compaction pointers |
| VersionEdits.CutIsRefused | Dinder/Pods/leveldb-library/db/version_edit.cc:106-205 | a record cut within a field is refused |
| VersionEdits.NonsenseIsRefused | Dinder/Pods/leveldb-library/db/version_edit.cc:95-205 | a record with an unknown tag, or a level that does not exist, is refused after the fields before it |
| VersionEdits.VersionEdit.EncodeTo | Dinder/Pods/leveldb-library/db/version_edit.cc:41-85 | writes the encoding of all fields set |
| VersionEdits.VersionEdit.DecodeFrom | Dinder/Pods/leveldb-library/db/version_edit.cc:107-205 | on any bytes: succeeds and stores exactly what the specification of decoding gives |
| Blocks.BlockBuilder.Add | Dinder/Pods/leveldb-library/table/block_builder.cc:72-106 | one more entry, prefix-compressed against the one before, restart points kept |
| Blocks.BlockBuilder.Finish | Dinder/Pods/leveldb-library/table/block_builder.cc:62-70 | the bytes are the block of exactly the entries added |
| Blocks.Iter.Next | Dinder/Pods/leveldb-library/table/block.cc:137-140 | one entry on |
| Blocks.Iter.Prev | Dinder/Pods/leveldb-library/table/block.cc:142-161 | one entry back, by way of a restart point; invalid from the first |
| Blocks.Iter.Seek | Dinder/Pods/leveldb-library/table/block.cc:163-201 | by binary search over restart points, the first entry at or after the target, for any strict total order |
| Blocks.Iter.SeekToFirst | Dinder/Pods/leveldb-library/table/block.cc:203-206 | the first entry |
| Blocks.Iter.SeekToLast | Dinder/Pods/leveldb-library/table/block.cc:208-214 | the last entry |
| Blocks.BuildAndRead | Dinder/Pods/leveldb-library/table/block.cc:76-264 | building a block and iterating over it gives back the entries |
| Filters.FilterMatches | Dinder/Pods/leveldb-library/util/bloom.cc:56-80 | the probing loop answers whether all bits are set, and yes for an encoding it does not know |
| Filters.CreateFilter | Dinder/Pods/leveldb-library/util/bloom.cc:28-55 | no key put into a filter is ever missed by it; its bits are exactly the probes of those keys, in a whole number of bytes, at least 8, just enough for the bits per key |
| Filters.MatchesIff | Dinder/Pods/leveldb-library/util/bloom.cc:56-80 | a key is found if and only if each of its probes, equal steps apart, is a probe of some key put in |
| Filters.FilterBlockBuilder.Finish | Dinder/Pods/leveldb-library/table/filter_block.cc:35-49 | the block answers yes for every key added, at any offset in the 2 KB range its data block started in, and otherwise exactly as the filter of the keys of that range does; past the last range it answers yes |
| Filters.FilterBlockReader.KeyMayMatch | Dinder/Pods/leveldb-library/table/filter_block.cc:90-104 | answers what the contents of the block say, and yes if they are malformed |
| TableLookups.IndexedIsLinear | Dinder/Pods/leveldb-library/table/table.cc:216-244 | a search of shortened index keys and then of one block finds what a linear search of all entries finds, unless that has another user key |
| Tables.TableBuilder.Add | Dinder/Pods/leveldb-library/table/table_builder.cc:94-123 | one more entry, the index entry of the block before written with a separator, and the data block written exactly when it has reached the block size |
| Tables.TableBuilder.Finish | Dinder/Pods/leveldb-library/table/table_builder.cc:198-253 | the file is a table of exactly the entries added: blocks, checksums, handles, index and filter |
| Tables.Table.InternalGet | Dinder/Pods/leveldb-library/table/table.cc:216-244 | finds the first entry at or after the target, or passes it over only if it has another user key |
| Tables.ReadsIff | Dinder/Pods/leveldb-library/table/format.cc:64-139 | a block is read if and only if it is stored there with its type and checksum |
| Tables.OneBitIsRefused | Dinder/Pods/leveldb-library/table/format.cc:85-95 | a block with one bit of its contents changed is refused |
| TableGets.FirstFromIsLookup | Dinder/Pods/leveldb-library/table/table.cc:216-244 | searching encoded pairs for the seek key of (u, s) is the lookup of the engine among the entries they encode |
| TableGets.Get | Dinder/Pods/leveldb-library/db/version_set.cc:263-276 | InternalGet and the comparison of user keys answer the lookup of the engine, filter and index notwithstanding |
| SkipLists.SkipList.Insert | Dinder/Pods/leveldb-library/db/skiplist.h:336-368 | the key takes its place in the sorted contents, all levels staying sublists of the one below |
| SkipLists.SkipList.FindGreaterOrEqual | Dinder/Pods/leveldb-library/db/skiplist.h:260-281 | the first node at or after the key, and on every level the node before it |
| SkipLists.SkipList.FindLessThan | Dinder/Pods/leveldb-library/db/skiplist.h:283-302 | the last node before the key, or the head |
| SkipLists.SkipList.FindLast | Dinder/Pods/leveldb-library/db/skiplist.h:304-322 | the last node, or the head |
| SkipLists.SkipList.Contains | Dinder/Pods/leveldb-library/db/skiplist.h:370-378 | true if and only if the key is in the list |
| SkipLists.StoreKeeps | Dinder/Pods/leveldb-library/db/skiplist.h:354-367 | after each single store of an insertion all levels are sorted sublists of the ones below, and nothing is lost |
| SkipLists.SearchIsRight | Dinder/Pods/leveldb-library/db/skiplist.h:260-281 | however the reads of a search fall between the stores of the writer, the node returned is at or after the target and no key present at the start is missed |
| Caches.HandleTable.Insert | Dinder/Pods/leveldb-library/util/cache.cc:78-92 | replaces the entry with the same key and hash, if any, and returns it; all others stay, through resizing |
| Caches.HandleTable.Remove | Dinder/Pods/leveldb-library/util/cache.cc:94-102 | takes out exactly the entry with the key and hash, if any |
| Caches.LRUCache.Ref | Dinder/Pods/leveldb-library/util/cache.cc:217-223 | one more reference; an idle entry leaves the lru list for the in-use list |
| Caches.LRUCache.Unref | Dinder/Pods/leveldb-library/util/cache.cc:225-237 | one reference less; at none the deleter is called, and when only the cache holds it the entry becomes the newest idle one |
| Caches.LRUCache.FinishErase | Dinder/Pods/leveldb-library/util/cache.cc:307-316 | the entry leaves its list and the cache lets go of it; freed exactly if no client holds it |
| Caches.LRUCache.Lookup | Dinder/Pods/leveldb-library/util/cache.cc:252-259 | finds the cached entry if and only if there is one, and pins it |
| Caches.LRUCache.Release | Dinder/Pods/leveldb-library/util/cache.cc:261-264 | gives back one reference of a client |
| Caches.LRUCache.Insert | Dinder/Pods/leveldb-library/util/cache.cc:266-303 | the caller holds the new entry; it replaces the cached one of its key; then the oldest idle entries go until the charge fits or none is left, and none goes that need not |
| Caches.LRUCache.Erase | Dinder/Pods/leveldb-library/util/cache.cc:318-321 | the key is no longer cached; its deleter runs exactly if no client holds it |
| Caches.LRUCache.Prune | Dinder/Pods/leveldb-library/util/cache.cc:323-333 | every idle entry goes, oldest first, and no other |
| Caches.LRUCache.Destroy | Dinder/Pods/leveldb-library/util/cache.cc:204-215 | with nothing in use and nothing held, every entry ever made has had its deleter called exactly once |
| Snapshots.SnapshotList.Oldest | Dinder/Pods/leveldb-library/db/snapshot.h:47-50 | the snapshot with the smallest number |
| Snapshots.SnapshotList.New | Dinder/Pods/leveldb-library/db/snapshot.h:58-71 | a snapshot no older than the others joins at the end of the doubly-linked list |
| Snapshots.SnapshotList.Delete | Dinder/Pods/leveldb-library/db/snapshot.h:79-86 | exactly that snapshot leaves, the rest stay in order |
| PbMessages.FieldIter.Next | Dinder/Pods/nanopb/pb_common.c:20-76 | the walk visits the fields in turn, counting required ones and locating data, and wraps round at the end |
| PbMessages.FieldIter.Find | Dinder/Pods/nanopb/pb_common.c:78-95 | finds the field with the tag if and only if there is one, searching all the way round |
| PbEncoding.ZigzagIs | Dinder/Pods/nanopb/pb_encode.c:630-639 | the code of n is 2n, or -2n-1 if n is negative |
| PbEncoding.OStream.EncodeVarint | Dinder/Pods/nanopb/pb_encode.c:608-628 | writes the varint, or fails if it does not fit |
| PbEncoding.OStream.EncodeSubmessage | Dinder/Pods/nanopb/pb_encode.c:717-765 | the size counted by a first pass is the size written by the second |
| PbEncoding.OStream.EncodeMessage | Dinder/Pods/nanopb/pb_encode.c:528-550 | appends exactly the specified encoding of the fields present, or fails |
| PbEncoding.OStream.EncodeArray | Dinder/Pods/nanopb/pb_encode.c:147-236 | appends exactly the encoding of the items, packed or tagged one by one, or fails |
| PbEncoding.GetEncodedSize | Dinder/Pods/nanopb/pb_encode.c:567-576 | the size reported is that of the encoding, and failure is reported exactly where encoding fails |
| PbInputs.IStream.DecodeVarint32 | Dinder/Pods/nanopb/pb_decode.c:187-247 | reads what the specification of 32-bit varints reads, sign-extended ones included |
| PbInputs.IStream.DecodeMessage | Dinder/Pods/nanopb/pb_decode.c:925-1073 | on any bytes, the structure filled is the one the specification gives, or both fail |
| PbInputs.IStream.Decode | Dinder/Pods/nanopb/pb_decode.c:1075-1087 | the same from default values |
| PbInputs.CheckRequired | Dinder/Pods/nanopb/pb_decode.c:1043-1070 | the check by words and remaining bits finds exactly whether every required field was seen |
| PbLaws.UnknownFieldSkipped | Dinder/Pods/nanopb/pb_decode.c:321-331 | a field with a tag the descriptor lacks, whether varint, eight bytes, length-prefixed or four bytes, changes nothing of what decoding the rest gives |
| PbLaws.UnknownTypeFails | Dinder/Pods/nanopb/pb_decode.c:321-331 | one of a wire type that does not exist fails the decoding |
| PbLaws.LastWins | Dinder/Pods/nanopb/pb_decode.c:406-480 | of a field that is not repeated, the value sent last counts |
| PbLaws.NoRoomFails | Dinder/Pods/nanopb/pb_decode.c:424-464 | an item for which a repeated field has no room fails the decoding, packed or not |
| PbLaws.RoomIsExact | Dinder/Pods/nanopb/pb_decode.c:1431-1548 | a string or bytes field takes exactly what it has room for: a string with its terminator, fixed-length bytes just as many or none |
| PbLaws.UnsignedIsExact | Dinder/Pods/nanopb/pb_decode.c:1366-1388 | an unsigned integer is taken exactly when it fits the field |
| PbLaws.SignedIsExact | Dinder/Pods/nanopb/pb_decode.c:1329-1412 | so are signed ones, plain or zigzag |
| PbLaws.ZeroEnds | Dinder/Pods/nanopb/pb_decode.c:298-319 | a zero ends the message: what follows is not looked at |
| PbLaws.RequiredAreMet | Dinder/Pods/nanopb/pb_decode.c:1043-1070 | decoding succeeds only if the input holds every required field, of the first 64 |
| PbMerges.ConcatGoesOn | Dinder/Pods/nanopb/pb_decode.c:925-1073 | what follows the fields of a message is decoded onto what they left, whatever they are |
| PbMerges.ConcatMerges | Dinder/Pods/nanopb/pb_decode.c:925-1073 | with nothing to check at the end, decoding two messages one after the other is decoding their concatenation |
| PbMerges.PiecesMerge | Dinder/Pods/nanopb/pb_decode.c:1503-1525 | an embedded message sent in two pieces is decoded as if sent as one |
| PbMerges.LastOfUnionWins | Dinder/Pods/nanopb/pb_decode.c:466-476 | of an embedded message in a union, only the last one sent counts |
| PbRoundTrips.RoundTrip | Dinder/Pods/nanopb/pb_encode.c:528-550 | for every descriptor and structure that encodes: decoding gives the structure back, up to absent fields, if its strings are terminated, and fails if not |
| PbLaws.RoundTripWith | Dinder/Pods/nanopb/pb_decode.c:975-989 | fields unknown to the receiver, any number of them before, between and after the known ones, change nothing of the round trip |
| PbLaws.ReceiverLacksOne | Dinder/Pods/nanopb/pb_decode.c:975-989 | a receiver whose descriptor lacks one of the fields of the sender restores all the others |
| PbLaws.SentIff | Dinder/Pods/nanopb/pb_encode.c:240-377 | a field is sent unless it is not set or, if it has no flag, unless the receiver would make the same of nothing |
| PbRoundTrips.FieldsSame | Dinder/Pods/nanopb/pb_decode.c:925-1073 | what is restored encodes to the same bytes again |
| Votings.RunKeepsInv | Dinder/Dinder/SessionStore.swift:39-204 | the invariant holds in every state of every interleaving of clients, transactions and snapshot deliveries |
| Votings.CountsAreRight | Dinder/Dinder/SessionStore.swift:43-77 | participants is the number of users with a list, and finishedPushing the number of pushers still in the session |
| Votings.ResultIsShared | Dinder/Dinder/SessionStore.swift:104-122 | a published result comes after every participant has pushed, is in every list pushed and liked by every participant; or it is "Error", and no name is in every list |
| Votings.PushedWasLiked | Dinder/Dinder/SessionStore.swift:131-140 | the list of every pusher in the document is what that client liked in the state just before it pushed |
| Votings.ResultFollows | Dinder/Dinder/SessionStore.swift:142-204 | once everyone has pushed and the creator is shown that, it knows a result or has one on its way |
| Votings.OnlyCreatorsSend | Dinder/Dinder/SessionStore.swift:195-199 | in no state of any run has a client that did not create the session a result on its way |
| Votings.JoinCountsIff | Dinder/Dinder/SessionStore.swift:43-57 | joining keeps the count right if and only if the user was not in the session |
| Votings.LeaveCountsIff | Dinder/Dinder/SessionStore.swift:59-77 | leaving keeps it right if and only if the user was in the session |
| Votings.CountsRightIff | Dinder/Dinder/SessionStore.swift:43-140 | whatever sequence of updates anyone makes, participants ends up the number of lists if and only if those who joined again are as many as those who left or pushed without being in the session |
| Votings.LateJoinIff | Dinder/Dinder/SessionStore.swift:43-57 | joining a session that has a result keeps the result liked by all if and only if it is "Error" |
| Votings.SessionStore.PushResults | Dinder/Dinder/SessionStore.swift:131-140 | not yet pushed: one transaction with exactly the names liked so far; pushed: nothing |
| Votings.SessionStore.CalcResult | Dinder/Dinder/SessionStore.swift:104-122 | sends a name that is in every list, or "Error" if there is none |
| Votings.SessionStore.WatchSession | Dinder/Dinder/SessionStore.swift:142-204 | takes over the state of the document and sends exactly the push or the result it calls for: the names liked so far if finished and not yet pushed, a result exactly if all have pushed, it created the session and knows no result |

## Findings

Where the code does not do what it is meant to do, the model keeps the code as it is, gives an
input, and proves the exact condition.

- **A deleted key can reappear.** SetupOtherInputs adds boundary files to the inputs of the upper
  level only (`Dinder/Pods/leveldb-library/db/version_set.cc:1407-1411` and 1430); on the output
  level the neighbour of an input file may start on the user key on which the input file ends, and
  is left out. If the deletion in the input is dropped because no deeper level spans the key, the
  older value in the neighbour becomes visible. Input: `DeletedKeyReappears`. Exact condition:
  `ResurrectedIff`, and for the running engine `SparesIff` and `CompactionBreaksIff`. The read theorems
  (`ReadsAreRight`, `DBImpl.Get`, `DBImpl.NewIterator`) are therefore per user key; all others hold
  for all runs.
- **A flush in the middle of a compaction can overlap its outputs.** DoCompactionWork flushes the
  immutable memtable between two entries (`Dinder/Pods/leveldb-library/db/db_impl.cc:908-918`), and
  the level picked may be the output level of the compaction, in a gap between its inputs. Input:
  `FlushedFileOverlapped`; lost read: `ReadLost`. Exact condition: `FlushDuringCompactionIff`.
- **Turning a merging iterator round skips entries with the current internal key.** If two children
  hold the same internal key (`Dinder/Pods/leveldb-library/table/merger.cc:63-105`), a change of
  direction steps over the copy not yet visited. Exact condition: `TurningSkipsCopiesIff`.
- **VersionEdit::Clear keeps the compaction pointers.** Decoding into an edit that has some keeps them
  (`Dinder/Pods/leveldb-library/db/version_edit.cc:26-39`). Exact condition: `RestoresIff`.
- **An unterminated string encodes and does not decode.** pb_enc_string measures up to the buffer size
  (`Dinder/Pods/nanopb/pb_encode.c:875-899`), the decoder wants room for a terminator. Exact condition:
  `PbRoundTrips.RoundTrip`.
- **A log record can stand for the end of the file.** ReadRecord tells the results of ReadPhysicalRecord
  apart by the type alone, and kEof is the type after the last one in use
  (`Dinder/Pods/leveldb-library/db/log_reader.cc:144-151`): a fragment with a right checksum and that
  type ends the reading without a report, and one of the type after it is passed over in silence. Other
  damage is local to its blocks: `DamageIsLocal`, `ForgedEndStops`.
- **Session counts and results.** Joining twice or leaving without having joined makes participants
  differ from the number of lists, and a user who joins after the result is out has not liked it
  (`Dinder/Dinder/SessionStore.swift:43-77`). Exact conditions: `JoinCountsIff`, `LeaveCountsIff`,
  `LateJoinIff`, and `CountsRightIff` for any sequence of updates.

## Left out

- Runs.ReadsAreRight: per user key, for the keys that all compactions spared, because of the first finding.
- DbImpls.DBImpl.Get: the part about everything ever committed is for keys whose reads no compaction has broken, likewise.
- DbImpls.DBImpl.NewIterator: likewise; the internal iterator is a cursor over the merged sequence, which Mergers.MergingIterator is shown to be.
- DbImpls.DBImpl.MergeDown: a compaction is one step of the engine; the flush that may happen inside it is treated in UnsafeCompactions only.
- DbImpls.DBImpl.BackgroundCompaction: compaction scores and seek statistics are not modelled; what is due is a parameter, and so are size limits and the pointer to where the last compaction of the level ended.
- Selection.SetupOtherInputs: that the inputs do grow whenever they may is not stated.
- Votings.RunKeepsInv: in a run, users join when they are not in the session, leave when they are, and do neither once it is finished; the last of the findings says what happens otherwise.
- Votings.SessionStore.WatchSession: a snapshot that lacks the user's own list, on which the app stops with a forced unwrap, is excluded.
- Votings.SessionStore.CalcResult: an empty session, on which the app stops with a forced unwrap, is excluded.
- Caches.HandleTable.Insert: the hash is a parameter, as is the charge; the sixteen shards of ShardedLRUCache are not modelled.
- VersionEdits.VersionEdit.EncodeTo: deleted files are written in some order, not in the order of std::set.
- Filters.CreateFilter: the number of probes is a parameter; how it follows from bits per key is floating point and not modelled.
- Tables.TableBuilder.Finish: the metaindex block, the footer and Snappy compression are not modelled; handles are handed over directly.
- Tables.Table.InternalGet: blocks are read from the file each time; the block cache in front of it is not modelled.
- Logs.Reader.ReadRecord: reading from initial_offset, and its resynchronisation, is not modelled.
- DbImpls.DBImpl.Open: reuse_logs, paranoid_checks and creation options are not modelled; manifest records are values, their bytes are treated in VersionEdits only.
- GroupCommit.CommittedInOrder: input/output errors, and the background error they set, are not modelled.
- SkipLists.SearchIsRight: stores and loads are sequentially consistent; acquire and release ordering is not modelled.
- PbRoundTrips.RoundTrip: callback, pointer and extension fields, and wrap-around of pb_size_t and size_t, are not modelled; a static array is its items, and slots beyond its count hold defaults.
- PbLaws.RequiredAreMet: required fields after the first 64 are not checked by the code (PB_MAX_REQUIRED_FIELDS).
- PbInputs.IStream.DecodeMessage: streams with callbacks are not modelled; input is a buffer.
- File metadata carries the entries of the file: that a table file holds them is Tables and TableGets.
- Repair, the C binding, the environment (files, threads, locks), and the table and option caches.
- The user interface, Firestore itself, and restaurant search; a transaction is an atomic update and a snapshot a past state of the document.
