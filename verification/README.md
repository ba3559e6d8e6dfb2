# LevelDB and nanopb, modelled and proved

The repository is an iOS application; its vendored libraries hold a storage engine (LevelDB) and a message codec (nanopb). This project
models these two libraries and proves what they promise.

* The store: versions made of table files, reads, compactions, flushes, moves, snapshots, write-ahead logs, the manifest, crashes and
  openings. The main result, `StoreReads.RunsFollowHistory`, speaks of every run of a database: whatever the interleaving of writers, flushes,
  moves and compactions, and whenever the process or the machine crashes or an opening is cut short, every read answers as a plain map of the
  updates that reached a log and that no crash has taken. `CrashDurability` and `SyncedWrites` say which updates no crash can take: those of
  every call of Write that returned well and had asked for the sync. `Databases.DBImpl` has the operations as methods of an object.
* The iterators: merging and two-level iterators, the iterator over the bytes of a table, and the database iterator, up to the rows of the map
  (`NewIterators`).
* The files: log records, version edits, blocks, tables, filters, checksums, each with its writer, its reader, and the round trip.
* Memory: the skip list with concurrent readers, the LRU cache with its hash table, the queue of writers with group commit.
* nanopb: encoder, sizing and decoder over field descriptions, with the round trip of whole messages.

Code that changes things step by step is a class or a method with loops, proved against a specification function or a plain model;
protocols with several threads are state machines whose steps are the shared-memory accesses or the critical sections.

Where a key is compared, the store and the iterators name a user key by its rank in the order of the comparator; tables, blocks and filters
use its bytes. `KeyRanks` proves that both orders and both searches agree.

## Findings

Four promises fail on some inputs. For each there is an input, and the exact condition under which the promise holds.

| what fails | source | input | exact condition |
|---|---|---|---|
| A compaction can bring back a deleted value: SetupOtherInputs closes only the upper inputs over user keys, never those of level+1, so a deletion at the end of a lower input can be dropped while the value it hides stays in the next file. | TinderClone/Pods/leveldb-library/db/version_set.cc:1403-1462 | `CompactionClosure.UnclosedCompactionIsSeen` | `CompactionReads.CompactionKeepsReadsIff`, and `StepsKeepHistory.InstallIsExact` for the running database: no dropped deletion uncovers a value in a left-out file of the lower level. `CompactionReads.CompactionKeepsReads`: it suffices that no left-out lower file goes on at the last user key of a lower input. |
| A memtable flushed while a manual compaction is at work can be lost to readers: the level picking looks at the files there are, not at the range of outputs under way, so the flushed file can lie in a gap between two inputs, and the output then covers it on the same level. | TinderClone/Pods/leveldb-library/db/db_impl.cc:906-918 | `FlushGap.FlushIntoGapIsLost` | `FlushesMeanwhile.InstallsOverIff`: no file flushed meanwhile to the lower level lies in the range of an output. It cannot happen when the inputs leave no gap (`FlushesMeanwhile.ConnectedHasNoneBetween`), as those of automatic compactions (`CompactionInputs.PickCompaction`, `CompactionInputs.SetupOtherInputs`). |
| A write with the sync option can survive a crash of the machine that takes an earlier write, so it is not like a write followed by fsync, as lines 178 to 181 of include/leveldb/options.h have it: MakeRoomForWrite closes the old log without forcing it to the disk, and a later sync reaches only the new one. | TinderClone/Pods/leveldb-library/db/db_impl.cc:1346-1366 | `UnsyncedLog.SyncedWriteOutlivesEarlier` | `CrashPrefix.LeavesPrefixIff`: what is left is all that was written up to some point if and only if no log has lost a batch while a later one has kept one. It cannot happen while no memtable is being flushed (`CrashPrefix.OneLogHasNoGap`); the synced write itself always survives (`CrashDurability.SyncedWriteSurvives`). |
| Decoding a version edit into an object that was used before does not give the edit back: Clear leaves the compaction pointers. | TinderClone/Pods/leveldb-library/db/version_edit.cc:26-39 | `VersionEdits.ReadIntoUsed` | `VersionEdits.VersionEdit.DecodeFrom`: the result is the edit if and only if the target had no compaction pointers. |

Both conditions on compactions are what the step `BeginCompactionEdit` of `StoreHistory.Owed` asks for, the first of the tables alone, since a crash
may take what is in memory; all else that it asks for is what the code ensures, apart from the bound of 56 bits on sequence numbers, which the code
does not check.

## Model

The rows follow the layers of the store, from a read of one table up to the whole life of a database, then the file formats, the memory
structures, and the message codec. The last column says what the contract of the member states.

| member | source | states |
|---|---|---|
| `DbFormat.SearchTableFinds` | TinderClone/Pods/leveldb-library/db/memtable.cc:100-134 | A search of a sorted table for the lookup key of a user key and a snapshot, with the check that the entry found is for that user key, gives the newest entry visible at the snapshot; when it gives nothing, there is no visible entry. |
| `Versions.FindFile` | TinderClone/Pods/leveldb-library/db/version_set.cc:88-106 | The binary search returns the first file whose largest key is at or after the key: every file before it ends earlier, none from it on does. |
| `Versions.SomeFileOverlapsRange` | TinderClone/Pods/leveldb-library/db/version_set.cc:122-157 | True exactly if some file of the level touches the range of user keys, by linear search on level 0 and by binary search elsewhere; a null bound lies beyond all keys. |
| `Versions.Candidates` | TinderClone/Pods/leveldb-library/db/version_set.cc:343-382 | The files chosen on one level suffice: a visible entry in a file that is not chosen is outranked by one in the file that is; on level 0 the files come newest first. |
| `Versions.Get` | TinderClone/Pods/leveldb-library/db/version_set.cc:326-421 | On every valid version the search level by level answers what the newest visible entry over all files says, whether value, deletion or nothing. |
| `Builders.Builder.Apply` | TinderClone/Pods/leveldb-library/db/version_set.cc:650-692 | Collects the deletions and then the additions of an edit, each of which revokes a deletion of the same number on its level. |
| `Builders.SaveLevel` | TinderClone/Pods/leveldb-library/db/version_set.cc:695-739 | The merge of base files and added files is the sorted level that holds exactly the files that survive the collected deletions. |
| `Builders.ReplayIsOneByOne` | TinderClone/Pods/leveldb-library/db/version_set.cc:933-947 | One builder that takes all edits and saves once gives the level that saving a version after every edit gives, whenever no level is given a file number twice. |
| `Builders.Replay` | TinderClone/Pods/leveldb-library/db/version_set.cc:886-1011 | The version rebuilt from a base and a list of edits has on every level exactly the files of the edit-by-edit history, in order. |
| `Databases.LogAndApply` | TinderClone/Pods/leveldb-library/db/version_set.cc:801-884 | The new version is the current one with the edit applied, level by level. |
| `CompactionInputs.GetOverlappingInputs` | TinderClone/Pods/leveldb-library/db/version_set.cc:519-559 | Above level 0 exactly the files that touch the range, in order. On level 0, where a file that sticks out restarts the search, the files of the least range around the given one that no touching file sticks out of; the restarts come to an end. |
| `CompactionInputs.AddBoundaryInputs` | TinderClone/Pods/leveldb-library/db/version_set.cc:1378-1401 | Adds, without duplicates, every file that goes on at the user key the inputs end with, until none is left; a run of a sorted level becomes a longer run; an empty list stays empty. |
| `CompactionInputs.SetupOtherInputs` | TinderClone/Pods/leveldb-library/db/version_set.cc:1403-1462 | The upper inputs are closed over user keys, the lower inputs are all files that touch their hull, the seed is among them, and a seed whose ranges leave no gap leads to inputs that leave no gap, also when the upper inputs are expanded. The compaction pointer is the largest key of the upper inputs, and the grandparents are the files two levels down that touch the hull of all inputs. |
| `CompactionInputs.CompactRange` | TinderClone/Pods/leveldb-library/db/version_set.cc:1464-1495 | The seed of a manual compaction is closed (level 0) or a run (deeper levels), and is empty exactly if no file touches the range; on deeper levels it is the files that touch the range, cut behind the first at which their sizes reach the limit. |
| `CompactionInputs.PickCompaction` | TinderClone/Pods/leveldb-library/db/version_set.cc:1270-1322 | An automatic compaction starts from a seed that is closed or a run, whose ranges leave no gap, and that holds the first file behind the compaction pointer, going round, or the file that used up its seeks. |
| `Compactions.Compaction.IsBaseLevelForKey` | TinderClone/Pods/leveldb-library/db/version_set.cc:1533-1552 | Although it only moves its indices forward, it answers exactly whether a deeper level spans the user key, for keys asked in order. |
| `Compactions.Compaction.ShouldDrop` | TinderClone/Pods/leveldb-library/db/db_impl.cc:946-962 | Drops an entry exactly if a newer one of its user key is visible to every snapshot, or if it is a deletion that every snapshot sees with no data of its key further down. |
| `Compactions.DoCompactionWork` | TinderClone/Pods/leveldb-library/db/db_impl.cc:878-1036 | Wherever output files end, a pass that completes writes exactly the entries that the drop rules keep, in key order, into well-formed disjoint files with fresh numbers. |
| `MakeInputs.MakeInput` | TinderClone/Pods/leveldb-library/db/version_set.cc:1237-1268 | The merged input holds every entry of the input files once, in key order, read off one merging iterator. |
| `CompactionReads.CompactionKeepsReadsIff` | TinderClone/Pods/leveldb-library/db/db_impl.cc:946-960 | For every user key and every snapshot not older than the oldest live one, a read answers the same before and after a compaction if and only if no deletion that the loop drops uncovers a value in a left-out file of the lower level. |
| `CompactionReads.CompactionKeepsReads` | TinderClone/Pods/leveldb-library/db/db_impl.cc:949-960 | That is so whenever no left-out file of the lower level goes on at the user key that a lower input ends with. |
| `CompactionClosure.UnclosedCompactionIsSeen` | TinderClone/Pods/leveldb-library/db/version_set.cc:1403-1462 | The input on which it fails: a valid version and inputs that SetupOtherInputs chooses, where a live snapshot reads nothing before the compaction and an old value after it. |
| `CompactionInstall.RearrangedIsValid` | TinderClone/Pods/leveldb-library/db/version_set.cc:741-754 | The version with the results of a compaction or a move in place is valid again: sorted disjoint levels, level 0 numbered by age, newer data above older data. |
| `CompactionInstall.NumbersKept` | TinderClone/Pods/leveldb-library/db/db_impl.cc:860-876 | File numbers stay unique across levels and below the counter. |
| `Flushes.PickLevelForMemTableOutput` | TinderClone/Pods/leveldb-library/db/version_set.cc:491-516 | The deepest level up to 2 that can be reached while neither the level itself touches the range nor the one below it holds too much that does; level 0 if a file there touches the range. |
| `Flushes.FlushKeepsVersionValid` | TinderClone/Pods/leveldb-library/db/db_impl.cc:491-533 | A file with newer data, put at such a level, leads from a valid version to a valid version that holds the same entries and those of the file. |
| `FlushesMeanwhile.InstallsOverIff` | TinderClone/Pods/leveldb-library/db/db_impl.cc:906-918 | A compaction whose loop stopped for memtable flushes may install its results on the version that has grown meanwhile if and only if none of these flushes has put a file of the lower level into the range of an output. |
| `FlushesMeanwhile.OverKeepsReadsIff` | TinderClone/Pods/leveldb-library/db/db_impl.cc:906-962 | Across such flushes, too, reads at live snapshots stay the same if and only if no dropped deletion uncovers a value. |
| `FlushesMeanwhile.ConnectedHasNoneBetween` | TinderClone/Pods/leveldb-library/db/version_set.cc:491-516 | When the inputs leave no gap between their first and last user key, no flush that the level picking allows can do harm. |
| `FlushGap.FlushIntoGapIsLost` | TinderClone/Pods/leveldb-library/db/version_set.cc:1464-1495 | The input on which it fails: a manual compaction of two files with a gap and a flush into the gap, all steps allowed, after which the version is invalid and the file that a read of the flushed key is led to does not hold it. |
| `Databases.UpdateIsFaithful` | TinderClone/Pods/leveldb-library/db/write_batch.cc:132-137 | An update with the next sequence number is seen from then on and by no earlier snapshot: the stored entries stay faithful to the map of all updates. |
| `Databases.ReadsInLayers` | TinderClone/Pods/leveldb-library/db/db_impl.cc:1123-1136 | Reading memtable, immutable memtable and version in this order finds what is newest overall. |
| `Databases.DBImpl.Write` | TinderClone/Pods/leveldb-library/db/db_impl.cc:1185-1256 | The updates of a batch join the history in order; every snapshot keeps its view. |
| `Databases.DBImpl.Get` | TinderClone/Pods/leveldb-library/db/db_impl.cc:1100-1145 | Returns what a plain map holds after the updates up to the snapshot, or up to now, whatever was flushed, moved and compacted before. |
| `Databases.DBImpl.GetSnapshot` | TinderClone/Pods/leveldb-library/db/db_impl.cc:1166-1169 | Puts the last sequence number at the end of the list of live snapshots; nothing that is stored changes. |
| `Databases.DBImpl.ReleaseSnapshot` | TinderClone/Pods/leveldb-library/db/db_impl.cc:1171-1174 | Takes one snapshot off the list; all that remain keep their view. |
| `Databases.DBImpl.SwitchMemTable` | TinderClone/Pods/leveldb-library/db/db_impl.cc:1346-1366 | The memtable becomes the immutable one; nothing that is stored changes. |
| `Databases.DBImpl.CompactMemTable` | TinderClone/Pods/leveldb-library/db/db_impl.cc:535-566 | The immutable memtable becomes a table file; nothing that is stored changes. |
| `Databases.DBImpl.TrivialMove` | TinderClone/Pods/leveldb-library/db/db_impl.cc:718-733 | A file goes down one level; nothing that is stored changes. |
| `Databases.DBImpl.CompactFiles` | TinderClone/Pods/leveldb-library/db/db_impl.cc:735-742 | Whatever inputs are chosen, every live snapshot keeps its view if and only if no deletion that the loop drops uncovers a value; lower inputs that are closed over user keys ensure that; a compaction that fails or is cut short changes nothing. |
| `Recovery.RecoverVersion` | TinderClone/Pods/leveldb-library/db/version_set.cc:886-1011 | Gives the version that the edits lead to and the latest of each number, and fails exactly if one of the numbers is missing. |
| `StoreInvariant.InvRecovers` | TinderClone/Pods/leveldb-library/db/db_impl.cc:280-369 | Whenever the invariant holds, recovery is exact: the version of the manifest with all its tables, in the logs exactly the updates that no table of it holds, and the last sequence number. |
| `EditsKeepInvariant.StepKeepsInv` | TinderClone/Pods/leveldb-library/db/db_impl.cc:688-767 | Every step of the writer and of the background thread keeps the invariant: logging, inserting, publishing, switching logs, writing tables, making, appending and installing edits, failing, deleting files. |
| `StoreRecovery.StepDurable` | TinderClone/Pods/leveldb-library/db/db_impl.cc:1185-1256 | What is on the disk grows by a batch when its log record is written and by nothing else, and changes otherwise only when the manifest takes the edit of a compaction. |
| `StoreRecovery.DurableIsContents` | TinderClone/Pods/leveldb-library/db/db_impl.cc:860-876 | What is on the disk is what readers find, unless the manifest is ahead with a compaction. |
| `StoreOpen.OpeningKeeps` | TinderClone/Pods/leveldb-library/db/db_impl.cc:371-489 | An opening that is cut short before it switches manifests leaves everything recoverable. |
| `StoreOpen.OpenedKeepsAll` | TinderClone/Pods/leveldb-library/db/db_impl.cc:1474-1515 | An opened database holds exactly what was recovered, under the same invariant. |
| `StoreOpen.RunsAreRecoverable` | TinderClone/Pods/leveldb-library/db/db_impl.cc:1474-1515 | Over any run with crashes and openings, with the files of compactions left open, what can be recovered is known exactly: it changes only by logged batches and by compaction edits. |
| `StoreOpen.NewDiskHoldsNothing` | TinderClone/Pods/leveldb-library/db/db_impl.cc:182-212 | The manifest that NewDB writes leads to an empty database that can be opened. |
| `StoreContents.BatchIsFaithful` | TinderClone/Pods/leveldb-library/db/write_batch.cc:132-137 | Adding the updates of a batch one by one keeps the stored entries faithful to the history extended by the batch. |
| `StoreContents.GoodFlush` | TinderClone/Pods/leveldb-library/db/db_impl.cc:491-533 | Moving entries from above the version into a file of it keeps the version valid and all answers. |
| `StoreContents.GoodOver` | TinderClone/Pods/leveldb-library/db/db_impl.cc:878-1036 | Installing the results of a compaction over flushes that came between keeps all answers at snapshots not older than the oldest one when it began, and at any other that is not older than what is in the tables, as a crash may make it the last. |
| `StepsKeepHistory.FlushIsFresh` | TinderClone/Pods/leveldb-library/db/db_impl.cc:491-533 | The table of the immutable memtable is well formed, newer than every file, and numbered above them. |
| `StepsKeepHistory.ActionKeepsInv` | TinderClone/Pods/leveldb-library/db/db_impl.cc:688-767 | In any interleaving of the writer, the background thread with flushes nested in a compaction, and snapshots taken and released, the version in memory and the one being installed both stay valid and faithful to the history, and the tables stay apart from what only the logs hold. |
| `StepsKeepHistory.ConnectedOwesNothing` | TinderClone/Pods/leveldb-library/db/version_set.cc:1270-1322 | A running compaction whose inputs leave no gap can always install its results. |
| `StepsKeepHistory.ClosedOwesNothing` | TinderClone/Pods/leveldb-library/db/version_set.cc:1403-1462 | Nor does a compaction whose lower inputs are closed over user keys uncover anything. |
| `StepsKeepHistory.InstallIsExact` | TinderClone/Pods/leveldb-library/db/db_impl.cc:878-1036 | What a running compaction is asked for before it installs its results is exact: the new version is valid if and only if no memtable was flushed into the range of an output, and the tables answer the same at the snapshots live when it began if and only if no dropped deletion uncovers a value. |
| `LogReplay.InsertInto` | TinderClone/Pods/leveldb-library/db/write_batch.cc:132-137 | The memtable gains exactly the updates of the batch, under consecutive sequence numbers, and stays sorted. |
| `LogReplay.Replay.RecoverLogFile` | TinderClone/Pods/leveldb-library/db/db_impl.cc:371-489 | Wherever memtables are full, the tables written hold exactly the updates of the log, in tables whose numbers rise with age, and the greatest sequence number is found. |
| `LogReplay.RecoverLogs` | TinderClone/Pods/leveldb-library/db/db_impl.cc:349-366 | All logs that the manifest still needs, in order: the tables hold exactly their updates, are numbered by age, and the counters pass all that the logs name. |
| `LogOrder.DownIsReadable` | TinderClone/Pods/leveldb-library/db/db_impl.cc:1185-1256 | Whenever a database is down, its logs are in order of sequence numbers, as replaying them demands. |
| `StoreContents.GoodLeft` | TinderClone/Pods/leveldb-library/db/db_impl.cc:371-489 | When of the updates behind those in the tables any are lost, version and remaining logs answer as the map of the updates that are left. |
| `StoreLife.CrashIsGood` | TinderClone/Pods/leveldb-library/db/db_impl.cc:280-369 | Whatever a crash of the machine takes from the ends of the logs behind what was forced to the disk, what it leaves can be opened and holds exactly the updates that are left. |
| `StoreLife.NothingLost` | TinderClone/Pods/leveldb-library/include/leveldb/options.h:174-176 | A crash that takes no batch from a log, as one of the process alone, loses no update. |
| `StoreLife.OpenedIsGood` | TinderClone/Pods/leveldb-library/db/db_impl.cc:1474-1515 | A valid version with the replayed tables on level 0 is valid, and answers as version and logs together did. |
| `StoreLife.RunKeepsInv` | TinderClone/Pods/leveldb-library/db/db_impl.cc:1474-1515 | Over any run with crashes of the process or of the machine and with interrupted openings the invariant holds: the database is faithful to the updates logged so far that no crash has taken. |
| `OpenDatabase.Open` | TinderClone/Pods/leveldb-library/db/db_impl.cc:1474-1515 | Whatever a run has left on the disk can be opened, and opening it is one of the events of a run. |
| `StoreReads.RunsFollowHistory` | TinderClone/Pods/leveldb-library/db/db_impl.cc:1474-1515 | The main result: from a new database on, after any events, every read at a live sequence number answers as a plain map after that many of the logged updates that no crash has taken; so does what is on the disk, and what is recovered while the database is down, which always can be opened. As long as crashes are of the process alone, these are all updates logged. |
| `StoreReads.Get` | TinderClone/Pods/leveldb-library/db/db_impl.cc:1100-1145 | The layered read at any moment of such a run returns what the map holds at the snapshot, with a batch in flight unseen. |
| `CrashDurability.CrashKeepsSafe` | TinderClone/Pods/leveldb-library/include/leveldb/options.h:166-181 | A crash of the machine keeps every update that is in a table or in a log as far as that was forced to the disk. |
| `CrashDurability.ActionKeepsSafe` | TinderClone/Pods/leveldb-library/db/db_impl.cc:688-767 | No step makes such an update unsafe: not the switch to a new log, nor the record of a flush, nor the deletion of old logs. |
| `CrashDurability.SyncedWriteSurvives` | TinderClone/Pods/leveldb-library/include/leveldb/options.h:166-181 | Once the log is forced to the disk behind a batch, its updates stay in the history for good, whatever steps, crashes of the machine and openings follow. |
| `CrashPrefix.CrashIsPossible` | TinderClone/Pods/leveldb-library/db/db_impl.cc:280-369 | For everything that a crash may leave of the files there is a history of what is left. |
| `CrashPrefix.LeavesPrefixIff` | TinderClone/Pods/leveldb-library/db/db_impl.cc:1346-1366 | What a crash leaves is all that was written up to some point if and only if no log has lost a batch while a later one has kept one. |
| `CrashPrefix.OneLogHasNoGap` | TinderClone/Pods/leveldb-library/db/db_impl.cc:1346-1366 | It is so whenever no memtable is being flushed, for then one log holds all that is not in tables. |
| `CrashPrefix.CrashLeavesWholeBatches` | TinderClone/Pods/leveldb-library/include/leveldb/write_batch.h:5-5 | The updates of a batch survive a crash all together or not at all. |
| `UnsyncedLog.SyncedWriteOutlivesEarlier` | TinderClone/Pods/leveldb-library/db/db_impl.cc:1346-1366 | The input on which it fails: a run from a new database in which a write with the sync option survives a crash of the machine and an earlier one, in the log before, does not. |
| `MergingIterators.MergingIterator.Seek` | TinderClone/Pods/leveldb-library/table/merger.cc:47-53 | Comes to the first entry of the merged sequence at or after the target. |
| `MergingIterators.MergingIterator.Next` | TinderClone/Pods/leveldb-library/table/merger.cc:55-79 | One step forward in the merged sequence, also after a move backward. |
| `MergingIterators.MergingIterator.Prev` | TinderClone/Pods/leveldb-library/table/merger.cc:81-108 | One step backward in the merged sequence, also after a move forward. |
| `TwoLevelIterators.TwoLevelIterator.Seek` | TinderClone/Pods/leveldb-library/table/two_level_iterator.cc:82-87 | Comes to the first entry at or after the target in all blocks one behind the other, past empty blocks. |
| `TwoLevelIterators.TwoLevelIterator.Next` | TinderClone/Pods/leveldb-library/table/two_level_iterator.cc:103-107 | One step forward in the flat sequence, over empty blocks. |
| `TwoLevelIterators.TwoLevelIterator.Prev` | TinderClone/Pods/leveldb-library/table/two_level_iterator.cc:109-113 | One step backward in the flat sequence, over empty blocks. |
| `TwoLevelIterators.TwoLevelIterator.ShowsEntry` | TinderClone/Pods/leveldb-library/table/two_level_iterator.cc:37-44 | The iterator is valid exactly before the end of the flat sequence, and shows the entry at its place. |
| `DbIterators.RowsAreTheLiveKeys` | TinderClone/Pods/leveldb-library/db/db_iter.cc:168-198 | The rows are strictly increasing, and a key has a row exactly if the newest entry that the snapshot sees is a value, which the row shows. |
| `DbIterators.DBIter.ShowsRow` | TinderClone/Pods/leveldb-library/db/db_iter.cc:64-71 | key() and value() show the row at the current place; the iterator is invalid exactly at the end. |
| `DbIterators.DBIter.Next` | TinderClone/Pods/leveldb-library/db/db_iter.cc:141-166 | One row forward, also after a move backward. |
| `DbIterators.DBIter.Prev` | TinderClone/Pods/leveldb-library/db/db_iter.cc:200-225 | One row backward, also after a move forward. |
| `DbIterators.DBIter.Seek` | TinderClone/Pods/leveldb-library/db/db_iter.cc:269-281 | Comes to the first row whose key is at or after the target. |
| `DbIterators.DBIter.SeekToFirst` | TinderClone/Pods/leveldb-library/db/db_iter.cc:283-292 | Comes to the first row. |
| `DbIterators.DBIter.SeekToLast` | TinderClone/Pods/leveldb-library/db/db_iter.cc:294-299 | Comes to the last row. |
| `NewIterators.AddIterators` | TinderClone/Pods/leveldb-library/db/version_set.cc:230-246 | The list gets one source for each file of level 0 and one for each deeper level that has files; the sources are sorted, share no entry, and hold all entries of the version. |
| `NewIterators.NewIterator` | TinderClone/Pods/leveldb-library/db/db_impl.cc:1147-1157 | At any moment of a run the database iterator over the merger of memtables, level-0 tables and deeper levels runs over exactly the keys and values of the map that the updates up to the snapshot have left, in order. |
| `LogWriters.Writer.AddRecord` | TinderClone/Pods/leveldb-library/db/log_writer.cc:34-80 | Appends the fragments of the record as a function of how much the file holds; a header never straddles two blocks. |
| `LogReaders.Reader.ReadPhysicalRecord` | TinderClone/Pods/leveldb-library/db/log_reader.cc:189-271 | On any bytes it makes progress or is at the end; in a log cut anywhere it finds the next fragment exactly if all of it is there. |
| `LogReaders.Reader.ReadRecord` | TinderClone/Pods/leveldb-library/db/log_reader.cc:56-174 | In a log cut anywhere the next record is found exactly if all of it is there, and no corruption is reported. |
| `LogReaders.ReadLog` | TinderClone/Pods/leveldb-library/db/db_impl.cc:408-424 | A log of any records, cut at any byte, gives back exactly the records that were complete, in order, and reports no corruption. |
| `LogFiles.WriteLog` | TinderClone/Pods/leveldb-library/db/db_impl.cc:1213-1217 | The file of a log is the log of the bytes of its batches. |
| `LogFiles.ReadBatches` | TinderClone/Pods/leveldb-library/db/db_impl.cc:408-431 | A log file cut at any byte gives back exactly the batches whose records were complete, with their updates and sequence numbers. |
| `LogFiles.ReadFiles` | TinderClone/Pods/leveldb-library/db/db_impl.cc:349-366 | All log files, each cut anywhere, give back exactly their complete batches. |
| `LogFiles.CutIsCrash` | TinderClone/Pods/leveldb-library/db/db_impl.cc:408-431 | Cutting the log files of a running database anywhere at or behind the bytes that were forced to the disk, and reading them back, is one of the crashes of the runs above. |
| `VersionEdits.VersionEdit.EncodeTo` | TinderClone/Pods/leveldb-library/db/version_edit.cc:41-85 | Appends the bytes of the tagged items of the edit. |
| `VersionEdits.VersionEdit.DecodeFrom` | TinderClone/Pods/leveldb-library/db/version_edit.cc:107-205 | What EncodeTo wrote for an edit is read as that edit with the compaction pointers of the target in front of its own, so it is the inverse if and only if the target had none. |
| `VersionEdits.ReadIntoUsed` | TinderClone/Pods/leveldb-library/db/version_edit.cc:26-39 | An input on which decoding is not the inverse: the bytes of an empty edit, read into an edit with a compaction pointer, leave the pointer there. |
| `ManifestFiles.WriteManifest` | TinderClone/Pods/leveldb-library/db/version_set.cc:801-867 | The manifest file is the log of the encoded edits. |
| `ManifestFiles.RecoverFromFile` | TinderClone/Pods/leveldb-library/db/version_set.cc:886-1011 | From the bytes of a manifest cut anywhere, the log reader, the edit decoder and the builder together give the version that the complete edits lead to, and the latest numbers; another comparator is refused. |
| `ManifestFiles.WriteAndRecover` | TinderClone/Pods/leveldb-library/db/version_set.cc:886-1011 | A manifest written whole gives back its version. |
| `Comparators.FindShortestSeparator` | TinderClone/Pods/leveldb-library/util/comparator.cc:29-50 | The start itself, or a string no longer that lies strictly between start and limit. |
| `Comparators.FindShortSuccessor` | TinderClone/Pods/leveldb-library/util/comparator.cc:52-64 | A string no longer at or behind the key; only a run of 0xff bytes is its own successor. |
| `InternalKeys.KeyLessIsOrder` | TinderClone/Pods/leveldb-library/db/dbformat.cc:51-67 | The order of internal keys as bytes is a strict total order. |
| `InternalKeys.FindShortestKey` | TinderClone/Pods/leveldb-library/db/dbformat.cc:69-86 | The start itself or a shorter key whose user key lies strictly between. |
| `InternalKeys.SeparatorIsBetween` | TinderClone/Pods/leveldb-library/db/dbformat.cc:69-86 | Such a key lies at or behind the start and before the limit in the order of internal keys. |
| `InternalKeys.FindShortKey` | TinderClone/Pods/leveldb-library/db/dbformat.cc:88-101 | The key itself or a shorter one whose user key lies behind it. |
| `KeyRanks.RankedKeepsOrder` | TinderClone/Pods/leveldb-library/db/dbformat.cc:51-67 | Keys as bytes and keys with the rank of their user key are in the same order. |
| `KeyRanks.RankedTableSorted` | TinderClone/Pods/leveldb-library/db/dbformat.cc:51-67 | A table is sorted by bytes exactly if it is sorted by ranks. |
| `KeyRanks.AnswersAreSearches` | TinderClone/Pods/leveldb-library/db/version_set.cc:263-276 | Whatever a table may pass on to a search in bytes, SaveValue makes of it what the search of the same table with ranked keys gives. |
| `BlockFormat.BlockBuilder.Add` | TinderClone/Pods/leveldb-library/table/block_builder.cc:72-106 | Appends an entry that shares exactly the longest common prefix with the key before it, or begins a restart point and shares nothing once so many entries have passed as the interval says. |
| `BlockFormat.BlockBuilder.Finish` | TinderClone/Pods/leveldb-library/table/block_builder.cc:62-70 | Appends the restart points; the block is the image of all entries added. |
| `Blocks.Iter.Next` | TinderClone/Pods/leveldb-library/table/block.cc:137-140 | In the image of a block, one entry forward. |
| `Blocks.Iter.Prev` | TinderClone/Pods/leveldb-library/table/block.cc:142-161 | In the image of a block, one entry backward, by way of a restart point. |
| `Blocks.Iter.Seek` | TinderClone/Pods/leveldb-library/table/block.cc:163-201 | In the image of a block, the first entry at or after the target, by binary search over restart points and a scan. |
| `Blocks.DecodeEntry` | TinderClone/Pods/leveldb-library/table/block.cc:54-74 | Reads the three lengths of the entry that lies there; whatever it accepts ends before the limit. |
| `TableFormat.ReadBlock` | TinderClone/Pods/leveldb-library/table/format.cc:64-139 | A block that was written is read back, with or without verifying its checksum; whatever is read has the size that the handle names. |
| `TableFormat.DecodeFooter` | TinderClone/Pods/leveldb-library/table/format.cc:42-62 | The footer that was encoded is read back, from exactly as many bytes as a footer has. |
| `TableBuilders.TableBuilder.Add` | TinderClone/Pods/leveldb-library/table/table_builder.cc:94-123 | Keeps blocks, index and filter in step with the entries added, with the index key of a block chosen when the next one begins. |
| `TableBuilders.TableBuilder.Finish` | TinderClone/Pods/leveldb-library/table/table_builder.cc:198-253 | A table without an error is the image of blocks, filter, metaindex, index and footer that hold every entry added. |
| `Tables.Table.Open` | TinderClone/Pods/leveldb-library/table/table.cc:38-82 | Opens every image of a table, with its filter if there is a policy. |
| `Tables.Table.InternalGet` | TinderClone/Pods/leveldb-library/table/table.cc:216-244 | In the image of a table, the first entry at or behind the key is passed on whenever it has the user key of the key, and nothing but that entry ever is, although one block is read and the filter may turn the search away. |
| `TableIterators.BlockReader` | TinderClone/Pods/leveldb-library/table/table.cc:155-208 | An iterator over the block that an index entry names. |
| `TableIterators.PlaceOfKey` | TinderClone/Pods/leveldb-library/table/two_level_iterator.cc:82-87 | The place of a key in the block that the index leads to is its place among all entries of the table. |
| `TableIterators.NewTableIterator` | TinderClone/Pods/leveldb-library/table/table.cc:210-214 | Over the bytes of any table image, an iterator over exactly the entries of all its blocks, one behind the other, at no place yet. |
| `TableIterators.TableIterator.Seek` | TinderClone/Pods/leveldb-library/table/two_level_iterator.cc:82-87 | Comes to the first entry of the table at or behind the target. |
| `TableIterators.TableIterator.SeekToFirst` | TinderClone/Pods/leveldb-library/table/two_level_iterator.cc:89-94 | Comes to the first entry of the table. |
| `TableIterators.TableIterator.SeekToLast` | TinderClone/Pods/leveldb-library/table/two_level_iterator.cc:96-101 | Comes to the last entry of the table. |
| `TableIterators.TableIterator.Next` | TinderClone/Pods/leveldb-library/table/two_level_iterator.cc:103-107 | One entry forward, also into the next block. |
| `TableIterators.TableIterator.Prev` | TinderClone/Pods/leveldb-library/table/two_level_iterator.cc:109-113 | One entry backward, also into the block before. |
| `TableIterators.TableIterator.Show` | TinderClone/Pods/leveldb-library/table/two_level_iterator.cc:37-44 | Key and value are those of the entry at the current place. |
| `TableIterators.TableIterator.ValidMeans` | TinderClone/Pods/leveldb-library/table/two_level_iterator.cc:31-31 | The iterator is valid exactly before the end of all entries. |
| `Blooms.BloomFilterPolicy.CreateFilter` | TinderClone/Pods/leveldb-library/util/bloom.cc:28-54 | Appends a filter in which exactly the bits of the keys are set. |
| `Blooms.BloomFilterPolicy.NoFalseNegatives` | TinderClone/Pods/leveldb-library/util/bloom.cc:56-80 | A filter matches every key it was made for. |
| `FilterBlocks.FilterBlockBuilder.Finish` | TinderClone/Pods/leveldb-library/table/filter_block.cc:35-49 | The filter block is the image of the filters of all groups of blocks. |
| `FilterBlocks.FilterBlockReader.KeyMayMatch` | TinderClone/Pods/leveldb-library/table/filter_block.cc:90-104 | Answers what the filter of the group of the block says; a block behind all filters counts as a match. |
| `FilterBlocks.NoKeyIsLost` | TinderClone/Pods/leveldb-library/table/filter_block.cc:90-104 | Every key of a data block matches the filter at the offset of that block. |
| `Crc32c.Extend` | TinderClone/Pods/leveldb-library/util/crc32c.cc:276-377 | The four-way, table-driven loop over words, with any alignment of the data, computes the plain bytewise remainder. |
| `Crc32c.ExtendComposes` | TinderClone/Pods/leveldb-library/util/crc32c.h:15-17 | Checksumming in two parts is checksumming the whole. |
| `Crc32c.UnmaskOfMask` | TinderClone/Pods/leveldb-library/util/crc32c.h:29-38 | Unmasking undoes masking. |
| `Coding.GetVarint32` | TinderClone/Pods/leveldb-library/util/coding.cc:112-128 | Reads back every 32-bit varint, and makes progress or fails on any bytes. |
| `Coding.GetVarint64` | TinderClone/Pods/leveldb-library/util/coding.cc:142-157 | Reads back every 64-bit varint, and makes progress or fails on any bytes. |
| `WriteBatches.WriteBatch.Append` | TinderClone/Pods/leveldb-library/db/write_batch.cc:144-148 | The updates of the source come behind those there are, and the count is their sum. |
| `WriteBatches.WriteBatch.SetSequence` | TinderClone/Pods/leveldb-library/db/write_batch.cc:94-96 | The batch has the new sequence number, and the same updates. |
| `WriteBatches.WriteBatch.Iterate` | TinderClone/Pods/leveldb-library/db/write_batch.cc:42-80 | The bytes of a batch give back its updates in order. |
| `GroupCommits.BuildBatchGroup` | TinderClone/Pods/leveldb-library/db/db_impl.cc:1260-1306 | The group is the longest run of waiting writers that the size limit, a sync request behind a leader without one, and a null batch allow; its batch is all their updates in order. |
| `GroupRuns.StepKeepsInv` | TinderClone/Pods/leveldb-library/db/db_impl.cc:1185-1256 | Every step of the writer queue keeps its invariant: order of arrival, one leader, groups with consecutive sequence numbers, results only for writers of a group that is done. |
| `GroupRuns.SnapshotIsStable` | TinderClone/Pods/leveldb-library/db/db_impl.cc:1200-1237 | A snapshot sees, at every later moment, exactly the updates of the groups released when it was taken. |
| `GroupRuns.BatchesAreWhole` | TinderClone/Pods/leveldb-library/db/db_impl.cc:1200-1237 | A batch lies wholly on one side of any snapshot ever taken. |
| `GroupRuns.StatusIsKept` | TinderClone/Pods/leveldb-library/db/db_impl.cc:1213-1256 | A writer told that its batch went well has it in the log, and synced if it asked for that, and its status never changes. |
| `SyncedWrites.JointKeepsInv` | TinderClone/Pods/leveldb-library/db/db_impl.cc:1185-1256 | The queue of writers and the database go in step: what the head of the queue has reached is what the database has done with its batch, a group that ends well is in the history at its sequence numbers, and one with a sync request is safe from crashes. |
| `SyncedWrites.ToldIsWritten` | TinderClone/Pods/leveldb-library/db/db_impl.cc:1185-1256 | A call of Write that returns well has all its updates in the history, one after the other. |
| `SyncedWrites.ToldSurvives` | TinderClone/Pods/leveldb-library/include/leveldb/options.h:166-181 | A call of Write with the sync option that returns well survives: whatever steps, crashes of the machine and openings follow, its updates are in the history. |
| `SkipLists.SkipList.FindGreaterOrEqual` | TinderClone/Pods/leveldb-library/db/skiplist.h:261-282 | The earliest node at or after the key, and on every level the last node before it. |
| `SkipLists.SkipList.Insert` | TinderClone/Pods/leveldb-library/db/skiplist.h:337-368 | The contents gain the key, and every level stays a sorted part of the one below. |
| `SkipLists.SkipList.Contains` | TinderClone/Pods/leveldb-library/db/skiplist.h:371-378 | True exactly if the key is among the contents. |
| `SkipLists.LevelsAreSorted` | TinderClone/Pods/leveldb-library/db/skiplist.h:337-368 | Following the links of a level meets exactly its nodes, in order, and each of them on every level below. |
| `SkipLists.LevelsAreDetermined` | TinderClone/Pods/leveldb-library/db/skiplist.h:337-368 | The links alone determine which nodes are on which level. |
| `SkipListReaders.StepKeepsInv` | TinderClone/Pods/leveldb-library/db/skiplist.h:337-368 | With any number of readers between any two stores of the writer, the levels stay sorted and nested and every reader stands where it should. |
| `SkipListReaders.SearchIsExact` | TinderClone/Pods/leveldb-library/db/skiplist.h:261-282 | A concurrent search ends with the right answer for the list as it is at its last load. |
| `SkipListReaders.NextIsExact` | TinderClone/Pods/leveldb-library/db/skiplist.h:206-231 | Next and SeekToFirst come to the first node behind, with a writer at work. |
| `SkipListReaders.InsertIsAtomic` | TinderClone/Pods/leveldb-library/db/skiplist.h:337-368 | An insertion takes effect at one store, the one on the lowest level. |
| `SkipListReaders.NothingIsMissed` | TinderClone/Pods/leveldb-library/db/skiplist.h:261-320 | A search that overlaps insertions never misses a node that was in the list when it began. |
| `HandleTables.HandleTable.Insert` | TinderClone/Pods/leveldb-library/util/cache.cc:78-92 | The table is the map with the handle put in; the handle it displaces is returned. |
| `HandleTables.HandleTable.Remove` | TinderClone/Pods/leveldb-library/util/cache.cc:94-102 | The table is the map without the key; the handle removed is returned. |
| `HandleTables.HandleTable.Resize` | TinderClone/Pods/leveldb-library/util/cache.cc:122-146 | Relinking every handle into more buckets leaves the map as it is. |
| `LruCaches.LRUCache.Insert` | TinderClone/Pods/leveldb-library/util/cache.cc:266-303 | Refines the model: an entry of the same key leaves, then the oldest unused entries until the charge fits, and the caller holds the new one. |
| `LruCaches.LRUCache.Lookup` | TinderClone/Pods/leveldb-library/util/cache.cc:252-259 | Refines the model: the entry found is in use and has one more reference. |
| `LruCaches.LRUCache.Release` | TinderClone/Pods/leveldb-library/util/cache.cc:261-264 | Refines the model: one reference less; the entry is freed or goes to the end of the unused list. |
| `LruRuns.RunIsSound` | TinderClone/Pods/leveldb-library/util/cache.cc:225-237 | Over any calls a handle has as many references as clients hold, and one more while it is cached; it is on the list that its references choose; the deleter has run exactly for what nothing refers to. |
| `LruRuns.InfoStays` | TinderClone/Pods/leveldb-library/util/cache.cc:225-237 | What a client holds stays what it was. |
| `PbEncode.EncodeVarint` | TinderClone/Pods/nanopb/pb_encode.c:608-628 | Writes the base-128 digits of the number, if there is room. |
| `PbEncode.EncodeSubmessage` | TinderClone/Pods/nanopb/pb_encode.c:717-765 | Succeeds exactly if the values fit and there is room, and then has written the size, found by a run on a sizing stream, and exactly so many bytes. |
| `PbEncode.EncodeMessage` | TinderClone/Pods/nanopb/pb_encode.c:528-550 | Succeeds exactly if every value fits its field and the stream has room, and then has written the wire format of the present fields. |
| `PbEncode.GetEncodedSize` | TinderClone/Pods/nanopb/pb_encode.c:567-576 | The size reported is the number of bytes that encoding writes. |
| `PbDecode.DecodeVarint` | TinderClone/Pods/nanopb/pb_decode.c:255-275 | Reads back every 64-bit number that was encoded; on any bytes, what it accepts is a 64-bit number and takes at least one byte. |
| `PbDecode.DecodeVarint32` | TinderClone/Pods/nanopb/pb_decode.c:187-247 | Reads back every number below 2 to the 32nd, and every negative 32-bit number extended to 64 bits; on any bytes, what it accepts is below 2 to the 32nd. |
| `PbDecode.DecodeNumber` | TinderClone/Pods/nanopb/pb_decode.c:1321-1432 | Reads back every number of every scalar type at every width of its field. |
| `PbMessages.FieldIter.Find` | TinderClone/Pods/nanopb/pb_common.c:78-95 | Finds the field with the tag from wherever it stands, going round once, or says that there is none. |
| `PbMessages.DecodeMessage` | TinderClone/Pods/nanopb/pb_decode.c:928-1076 | Decodes every encoded message into the fields it came from, with packed arrays, submessages, oneofs, required and fixed-length fields. |
| `PbMessages.Decode` | TinderClone/Pods/nanopb/pb_decode.c:1078-1090 | Decoding what was encoded gives back the message, up to what absent fields hold, and consumes the stream. |

## Left out

The model does not cover the following.

- StoreReads.RunsFollowHistory: runs in which a compaction meets one of the first two findings are outside it, by `StoreHistory.Owed`, because the promise fails there.
- StepsKeepHistory.ActionKeepsInv: the same steps are outside it.
- StoreLife.CrashIsGood: the bytes of a log reach the disk in order, so a crash cuts a log and does not damage it in the middle; a machine crash between a process crash and the end of the next opening counts as one at the time of the first.
- SyncedWrites.ToldSurvives: an append to the log that fails, after which the code goes on with the next sequence numbers.
- LogReplay.Replay.RecoverLogFile: takes the batches of a log; `LogFiles.ReadBatches` reads them off its bytes.
- NewIterators.NewIterator: the children of the merging iterator are the abstract `Cursors.Cursor`; that tables, memtables and levels keep the contract of that class is stated by `TableIterators`, `SkipLists` and `TwoLevelIterators`, not by one type.
- TableIterators.TableIterator.Seek: tables that are damaged, and the block cache.
- Databases.DBImpl.Write: the log, the queue of writers and failures, which are `SyncedWrites` and `StoreSteps`.
- Databases.DBImpl.SwitchMemTable: the switch of the log, which is a step of `StoreSteps`.
- Databases.DBImpl.CompactMemTable: the log number and the record of the edit, which are steps of `StoreSteps`.
- Databases.LogAndApply: the record in the manifest, which is `ManifestFiles.WriteManifest` and a step of `StoreSteps`.
- Builders.Builder.Apply: the compaction pointers of an edit, which decide only where the next compaction starts.
- LogReaders.Reader.ReadRecord: an initial offset other than 0, the resynchronisation after a damaged block, and LastRecordOffset; on damaged input only progress and the absence of failures are stated.
- TableFormat.ReadBlock: Snappy blocks, as the type of every block is 0.
- TableBuilders.TableBuilder.Add: keys, values and blocks of 4 GB or more.
- GroupRuns.StepKeepsInv: batches whose bytes are malformed; a null batch that is merged into a group does not force a memtable switch of its own, as in the code.
- PbMessages.Decode: callbacks, extensions, pointer fields and their allocation, and delimited or null-terminated messages; a oneof is a set of slots of which one is present, not shared memory; strings count up to their first terminator.
- TableBuilders.TableBuilder.Finish: files of 2 to the 62nd bytes or more, blocks and filter blocks of 4 GB or more; a failing append is a capacity that is exhausted.
- Tables.Table.InternalGet: the block cache, which passes blocks through unchanged.
- The environment: files, directories, locks, clocks, threads and their scheduling.
- A failed sync of the log fails the database; the sequence numbers of the batch, which the code then counts as used, are not.
- I/O errors are steps that fail or operations that stop; the cleaning up after a failed write of the manifest is not modelled.
- Corrupt internal keys, which a compaction keeps and a reader reports.
- Seek statistics, compaction scores, the splitting of outputs at grandparents and the sizes of levels: which level or file is compacted, and where an output ends, is arbitrary.
- PrevLogNumber, the reuse of logs and manifests, and the deletion of old manifests.
- Versions kept alive by iterators and reads; file deletion counts only the current version and pending outputs.
- Random heights of skip-list nodes, hash functions and approximate memory use are parameters.
- The memory orders of the skip list and the cache: every load and store is one step of a sequentially consistent machine.
- Nodes and cache handles are indices of an arena; the hash table takes a remainder where the code masks bits.
- ShardedLRUCache, which only chooses a shard, and TotalCharge.
- The lookup tables of the checksum are functions, and the hardware instruction is not used.
- Sums of lengths in DecodeEntry that wrap around at 32 bits.
- CURRENT, the file names of a database, repair, dumping, properties, approximate sizes, and DestroyDB.
- The rest of the repository: the application, Firebase, gRPC and the other vendored libraries.
