# A verified model of LevelDB

This project models the log-structured merge tree that the macOS client embeds: LevelDB 1.20, under
`macOS-client/Pods/leveldb-library`. It proves what the store is for. Levels stay sorted and disjoint whatever
flushes, compactions and file moves happen in the background; a reader at a snapshot sees the history of writes up to
it, under an exact condition; a crash loses nothing that was promised; iterators behave as cursors on a sorted list;
and the storage formats read back what was written.

`dafny verify dfyconfig.toml` checks everything. One module models one component.

| file | models |
|---|---|
| `Format.dfy` | internal keys, their order, lookup in one sorted run |
| `Version.dfy`, `Inputs.dfy`, `Compaction.dfy` | versions and their lookup, choice of compaction inputs, the merge with its drop rules |
| `Placement.dfy`, `Merging.dfy`, `Boundaries.dfy`, `Gaps.dfy` | how flushes and installed compactions change the levels, and exactly when that is safe |
| `Lsm.dfy`, `Reads.dfy` | the levels and memtables as a state machine refining a list of writes, reopening included; readers and iterators beside it |
| `DbIter.dfy`, `Merger.dfy`, `TwoLevel.dfy` | the iterator tower |
| `SkipList.dfy` | the memtable's list, alone and under one writer with many readers |
| `LinkedLists.dfy`, `HandleTable.dfy`, `Cache.dfy` | circular lists and live snapshots, hash table, LRU cache |
| `GroupCommit.dfy`, `WriteBatch.dfy`, `Schedule.dfy` | concurrent writers, batches, background scheduling |
| `Recovery.dfy`, `Store.dfy` | logs, tables and manifest on disk with crashes at any step; the same together with the levels |
| `Manifest.dfy`, `FileNumbers.dfy`, `Builder.dfy`, `FileReuse.dfy`, `VersionEdit.dfy`, `Log.dfy` | the manifest, file numbers, building versions, and the log format |
| `Table.dfy`, `TableFormat.dfy`, `TableFile.dfy`, `TableRead.dfy` | tables: what the builder decides, the parts of the file, writing it and reading it |
| `Block.dfy`, `FilterBlock.dfy`, `Bloom.dfy`, `Separators.dfy`, `Coding.dfy`, `Crc32c.dfy` | storage formats |
| `Options.dfy` | optional values and outcomes |

## Reading the model

- **User keys** above the storage formats are integers: the ranks, in the user comparator's order, of the finitely many
  user keys that occur in a run. (No numbering of all byte strings could respect the bytewise order.) In the storage
  formats they are byte strings, a byte being an int from 0 to 255, and a block may be ordered by any transitive
  relation. A CRC word is the set of its one bits.
- **Steps.** Code that holds the mutex is one step; a release store or acquire load is one step. State machines
  (`Lsm`, `Recovery`, `Store`, `GroupCommit`, `Schedule`, the concurrent part of `SkipLists`) quantify over every run.
- **Parameters.** The merged compaction input, memtable-full decisions, block sizes, skip-list heights, hash functions
  and seek-statistics triggers are parameters or free choices. Checksums of log records and blocks are any functions.
- **No I/O errors**, no shutdown, `reuse_logs` off, log reader started at offset 0, children of a merging iterator have
  distinct keys.

## Properties that need a condition

Levels above 0 are sorted and disjoint in every run, with no condition (`Lsm.LevelsInEveryRun`). The rest of this list
is about statements that the code does not always meet.

- **Versions of one user key in two files.** Output splitting can leave two versions of a user key in adjacent files
  of a level, and the choice of inputs does not pull in the neighbour.
  - *Newer above older.* The order of levels survives an installed compaction exactly when no file left behind in the
    upper level holds an older version of a user key whose newest version read is in the upper input and is written
    (`Boundaries.InstallKeepsOrderIff`), and a move above level 0 exactly when no file begins on the user key on which
    the moved one ends (`Boundaries.MoveKeepsOrderIff`). `Boundaries.NewerVersionSinks` shows the failure. It holds all
    through a run exactly when no step breaks it (`Lsm.OrderInRunIff`), for which closed upper inputs above level 0 are
    enough (`Lsm.UpperRunKeepsOrder`); `Boundaries.UpperClosedAtEnds` says what that means for the bounds of files.
  - *Views.* Views are preserved exactly when no dropped deletion marker exposes a value left behind
    (`Compactions.ViewsPreservedIff`, over runs `Lsm.ViewsInRunIff`); inputs closed in both levels are enough
    (`Lsm.ClosedRunKeepsViews`). `Boundaries.LeftBehindVersionResurfaces` shows the failure above level 0.
  - *Level 0.* There the upper inputs are always closed, so the order of levels survives by itself. Views do not: a
    file left behind in level 1 may hold an older version of a key whose marker is read and dropped
    (`Boundaries.Level0CompactionResurfaces`). Closedness at level 0 is exactly closedness in level 1
    (`Boundaries.Level0Boundary`).
- **Manual compaction with a gap.** `CompactRange` may read files with a gap between them. A flush can fall between the
  inputs exactly when some user key inside their range is covered by no file at or above the output level
  (`Gaps.GapIff`). The level is then in order after the installation exactly when no output holds entries on both
  sides of the flushed table (`Gaps.InstallAroundFlushIff`), and `Gaps.GapLetsFlushIn` gives the flush for any open
  gap. Inputs chosen by `PickCompaction` cover an interval; the runs of `Lsm` take such inputs.
- **A snapshot as large as the largest sequence number.** The merge then drops every entry; its output follows the two
  rules exactly when the snapshot is smaller or the rules drop everything (`Compactions.KeptIsSurvivorsIff`). The
  sequence numbers of a run of `Lsm` stay below that number.
- **Decoding into a used edit.** `Clear` leaves the compaction pointers, so decoding restores a record exactly when the
  receiver had none (`VersionEdits.RoundTripIff`).
- **Requests without a batch.** A writer that only asks for a memtable switch can be acknowledged without one
  (`GroupCommit.SwitchSwallowed`). It gets its own switch exactly if no leader forms a group while it waits behind it
  with nothing keeping it out: no sync write that the leader does not sync, no batch that is too large, up to it in the
  queue (`GroupCommit.OwnSwitchIff`, `GroupCommit.InGroupIff`).

Reading the manifest with one builder gives what one version per edit gave exactly if no file comes back
(`FileReuse.SameFilesIff`). The edits of the code satisfy this: numbers are handed out once and files only go deeper
(`FileNumbers.SourcedIsNoReuse`), and `Manifests.VersionSet` asks its callers for no more than that.

## Model

| member | source | states |
|---|---|---|
| `Format.CompareIsLess` | macOS-client/Pods/leveldb-library/db/dbformat.cc:50-66 | comparing user keys and then packed tags is exactly the order by increasing user key, decreasing sequence number, decreasing type, and it is total |
| `Format.RunGetAnswers` | macOS-client/Pods/leveldb-library/db/memtable.cc:108-143 | looking at the first entry at or after the lookup key answers with the newest version visible at the snapshot, a deletion marker, or nothing |
| `Versions.FindFile` | macOS-client/Pods/leveldb-library/db/version_set.cc:86-105 | binary search returns the first file whose largest key is not before the target; all earlier files end before it |
| `Versions.SomeFileOverlapsRange` | macOS-client/Pods/leveldb-library/db/version_set.cc:121-156 | true exactly when some file meets the range of user keys, for disjoint and overlapping files and open ends |
| `Versions.GetLevel0` | macOS-client/Pods/leveldb-library/db/version_set.cc:344-366 | searching overlapping files newest first finds the newest visible entry of the level |
| `Versions.GetSortedLevel` | macOS-client/Pods/leveldb-library/db/version_set.cc:366-391 | one file found by binary search is enough in a sorted level, also when a user key spans two files |
| `Versions.Get` | macOS-client/Pods/leveldb-library/db/version_set.cc:332-429 | searching level by level and stopping at the first hit answers as the union of all entries would, given the level order |
| `CompactionInputs.GetOverlappingInputs` | macOS-client/Pods/leveldb-library/db/version_set.cc:531-572 | at level 0 the restarts end and give the files of the least overlap-closed range around the request; elsewhere exactly the files that meet it |
| `CompactionInputs.GetRange` | macOS-client/Pods/leveldb-library/db/version_set.cc:1224-1244 | the smallest and the largest internal key over all inputs, each the bound of some input |
| `CompactionInputs.SetupOtherInputs` | macOS-client/Pods/leveldb-library/db/version_set.cc:1345-1411 | inputs of the next level are exactly its files meeting the range of the first inputs, also after expansion, and all inputs together cover one interval |
| `CompactionInputs.PickCompaction` | macOS-client/Pods/leveldb-library/db/version_set.cc:1291-1343 | the chosen inputs are present, closed under overlap at level 0, and cover one interval with those of the next level |
| `CompactionInputs.PickLevelForMemTableOutput` | macOS-client/Pods/leveldb-library/db/version_set.cc:502-528 | the level chosen for a flushed table has no file of its range at or above it |
| `Compactions.Compaction.IsBaseLevelForKey` | macOS-client/Pods/leveldb-library/db/version_set.cc:1484-1503 | with monotone cursors per level: true exactly when no deeper file may hold the user key, for user keys asked in increasing order |
| `Compactions.ShouldDrop` | macOS-client/Pods/leveldb-library/db/db_impl.cc:939-972 | the running variables of the merge decide to drop an entry exactly by the two rules: hidden by a newer entry at or below the smallest snapshot, or an obsolete deletion at its base level |
| `Compactions.DoCompactionWork` | macOS-client/Pods/leveldb-library/db/db_impl.cc:887-1046 | the outputs, however they are cut, hold exactly the entries that the two rules keep, in order; at a snapshot as large as the largest sequence number they hold nothing |
| `Compactions.KeptIsSurvivorsIff` | macOS-client/Pods/leveldb-library/db/db_impl.cc:939-972 | what is written follows the two drop rules if and only if the smallest snapshot is below the largest sequence number or the rules drop everything anyway |
| `Compactions.ViewKept` | macOS-client/Pods/leveldb-library/db/db_impl.cc:939-972 | for every user key and every snapshot at or above the smallest one the view is the same before and after, unless a dropped deletion marker exposes an older value outside the inputs |
| `Compactions.ViewsPreservedIff` | macOS-client/Pods/leveldb-library/db/db_impl.cc:939-972 | all views at or above the smallest snapshot are preserved if and only if no dropped deletion marker exposes an older value outside the inputs |
| `Compactions.ClosedExposesNothing` | macOS-client/Pods/leveldb-library/db/version_set.cc:1484-1503 | user-key-closed inputs expose nothing |
| `Placement.FlushKeepsValid` | macOS-client/Pods/leveldb-library/db/db_impl.cc:488-532 | a flush keeps all levels sorted and disjoint |
| `Placement.FlushKeepsOrder` | macOS-client/Pods/leveldb-library/db/db_impl.cc:488-532 | a flush keeps newer data above older data |
| `Placement.StartPlaced` | macOS-client/Pods/leveldb-library/db/version_set.cc:1345-1411 | a compaction set up by the code, with no further condition, meets what the placement of its outputs needs: inputs present, no gap in what they cover, unread files of the output level to one side |
| `Placement.StartUpper` | macOS-client/Pods/leveldb-library/db/version_set.cc:1345-1411 | if no file left behind in the upper level holds an older version of an input's user key, it is newer than every input of both levels |
| `Placement.StartLower` | macOS-client/Pods/leveldb-library/db/version_set.cc:1345-1411 | the same for files left behind in the output level |
| `Placement.FlushKeepsPlaced` | macOS-client/Pods/leveldb-library/db/db_impl.cc:918-927 | a memtable flush in the middle of a compaction keeps what the placement of its outputs needs |
| `Placement.FlushKeepsNewer` | macOS-client/Pods/leveldb-library/db/db_impl.cc:918-927 | a memtable flush in the middle of a compaction leaves the unread files of the input levels newer than the inputs |
| `Placement.InstallKeepsValid` | macOS-client/Pods/leveldb-library/db/db_impl.cc:866-885 | installing the outputs keeps levels above 0 sorted and disjoint in internal-key order, whatever is left behind in the input levels |
| `Placement.InstallOrder` | macOS-client/Pods/leveldb-library/db/db_impl.cc:866-885 | whatever outputs are made of the inputs, only pairs of a file left behind in the upper level and an output can break the order of the levels |
| `Boundaries.InstallKeepsOrderIff` | macOS-client/Pods/leveldb-library/db/db_impl.cc:866-885 | installing a compaction keeps newer data above older if and only if no file left behind in the upper level holds a version, not newer, of a user key whose newest version read lies in the upper input and is not an obsolete deletion |
| `Boundaries.MoveKeepsOrderIff` | macOS-client/Pods/leveldb-library/db/db_impl.cc:718-735 | moving a file down keeps newer data above older if and only if the level is level 0 or no other file of it begins on the user key on which the moved one ends |
| `Boundaries.UpperClosedAtEnds` | macOS-client/Pods/leveldb-library/db/version_set.cc:1324-1343 | above level 0 the upper inputs are closed if and only if no file left behind begins on the user key on which one of them ends |
| `Boundaries.LowerClosedAtEnds` | macOS-client/Pods/leveldb-library/db/version_set.cc:1345-1352 | the inputs of the output level are closed if and only if no file left behind there begins on the user key on which one of them ends |
| `Boundaries.Level0Boundary` | macOS-client/Pods/leveldb-library/db/version_set.cc:1327-1336 | at level 0 a file left behind shares no user key with an upper input, so inputs are closed if and only if they are closed in level 1 |
| `Boundaries.NewerVersionSinks` | macOS-client/Pods/leveldb-library/db/db_impl.cc:718-735 | witness: moving the first of two files that share a user key puts its newer version below the older one |
| `Boundaries.LeftBehindVersionResurfaces` | macOS-client/Pods/leveldb-library/db/db_impl.cc:939-972 | witness: of two neighbours of level 1 the first, holding the deletion marker, is compacted; the marker goes and the deleted value of the second is seen again |
| `Boundaries.Level0CompactionResurfaces` | macOS-client/Pods/leveldb-library/db/db_impl.cc:939-972 | witness: a compaction of level 0 reads the first of two neighbours of level 1 and drops the marker of a value in the second; the order of levels holds before and after and the value is seen again |
| `Gaps.InstallAroundFlushIff` | macOS-client/Pods/leveldb-library/db/db_impl.cc:866-885 | for any version, inputs and cut of the outputs: after a flush to the output level in the middle of a compaction that level is in order if and only if no output holds entries on both sides of the flushed table |
| `Gaps.GapIff` | macOS-client/Pods/leveldb-library/db/version_set.cc:1413-1446 | a flush to the output level can fall between the inputs if and only if some user key inside their range is covered by no file at or above that level; inputs without a gap leave no such key |
| `Gaps.GapLetsFlushIn` | macOS-client/Pods/leveldb-library/db/version_set.cc:1413-1446 | for any open gap there is a permitted flush into it, after which any way of cutting the outputs leaves the level in order if and only if no output holds entries on both sides of the gap |
| `Lsm.StepKeepsInv` | macOS-client/Pods/leveldb-library/db/db_impl.cc:686-769 | write, memtable switch, flush, start and end of a compaction, trivial move, snapshot taken or released, crash with replay of the logs: each keeps the invariant of the store, for any inputs set up by the code |
| `Lsm.LevelsInEveryRun` | macOS-client/Pods/leveldb-library/db/version_set.cc:711-757 | in every run, with no condition on the inputs, levels above 0 are sorted and disjoint |
| `Lsm.StepKeepsOrderIff` | macOS-client/Pods/leveldb-library/db/db_impl.cc:686-769 | from a state with newer data above older, a step keeps it so if and only if it is not a compaction or move that leaves an older version behind |
| `Lsm.OrderInRunIff` | macOS-client/Pods/leveldb-library/db/db_impl.cc:686-769 | newer data lies above older data all through a run if and only if no installed compaction and no move of the run leaves an older version behind in the upper level |
| `Lsm.UpperRunKeepsOrder` | macOS-client/Pods/leveldb-library/db/version_set.cc:1291-1343 | if the upper inputs chosen above level 0 are closed, nothing in the run breaks the order of levels; level 0 needs no condition |
| `Lsm.StepKeepsViewsIff` | macOS-client/Pods/leveldb-library/db/db_impl.cc:887-1046 | from a state whose views from the floor up are those of the history, a step keeps them so if and only if it is not a compaction that exposes a value |
| `Lsm.ViewsInRunIff` | macOS-client/Pods/leveldb-library/db/db_impl.cc:887-1046 | every view from the floor up is that of the history all through a run if and only if no finished compaction of the run drops a deletion marker that exposes a value |
| `Lsm.ClosedRunKeepsViews` | macOS-client/Pods/leveldb-library/db/version_set.cc:1345-1411 | if the inputs chosen are closed in both levels, no compaction of the run exposes a value |
| `Lsm.ReopenStep` | macOS-client/Pods/leveldb-library/db/db_impl.cc:365-486 | after a crash and the replay of the logs into level-0 tables the invariant, the order of levels and the views of what was recovered hold |
| `Lsm.ReadersSeeHistory` | macOS-client/Pods/leveldb-library/db/db_impl.cc:1109-1154 | in every run in which no compaction exposes a value, the entries visible at any live snapshot, or now, are exactly the last writes of the history up to it |
| `Reads.Get` | macOS-client/Pods/leveldb-library/db/db_impl.cc:1109-1154 | memtable, immutable memtable and version, pinned at the start and read any number of steps later while writes, flushes and compactions go on, give the value of the history at the snapshot |
| `Reads.PinnedSeesHistory` | macOS-client/Pods/leveldb-library/db/db_impl.cc:1109-1154 | what a reader pinned shows the history of that time at its snapshot, whatever steps come before it is read |
| `Reads.IteratorWalksHistory` | macOS-client/Pods/leveldb-library/db/db_impl.cc:1067-1096 | an iterator opened in any state of a run walks, at any later time, exactly the map of the history at its snapshot, in increasing order |
| `Reads.OpenIteratorIsStable` | macOS-client/Pods/leveldb-library/db/db_impl.cc:1156-1167 | writes that arrive while an iterator is open only add entries above its snapshot and do not change the list it walks |
| `Reads.Resume` | macOS-client/Pods/leveldb-library/db/db_impl.cc:1067-1096 | an open iterator, after any steps of the store between two of its operations, is the same cursor: at the same index of the same list, over the entries there are now |
| `DbIterator.PairListIsView` | macOS-client/Pods/leveldb-library/db/db_iter.cc:173-203 | the list the iterator walks is exactly the set of user keys with their visible values |
| `DbIterator.PairListIncreases` | macOS-client/Pods/leveldb-library/db/db_iter.cc:173-203 | the list is strictly increasing in user keys |
| `DbIterator.DBIter.Key` | macOS-client/Pods/leveldb-library/db/db_iter.cc:66-69 | the user key of the pair at the cursor, in both directions |
| `DbIterator.DBIter.CurrentValue` | macOS-client/Pods/leveldb-library/db/db_iter.cc:70-73 | the value of the pair at the cursor, in both directions |
| `DbIterator.DBIter.Next` | macOS-client/Pods/leveldb-library/db/db_iter.cc:146-171 | moves to the next pair of the list, also after a change of direction |
| `DbIterator.DBIter.FindNextUserEntry` | macOS-client/Pods/leveldb-library/db/db_iter.cc:173-203 | skips hidden, deleted and too new entries and stops at the next pair |
| `DbIterator.DBIter.Prev` | macOS-client/Pods/leveldb-library/db/db_iter.cc:205-230 | moves to the previous pair of the list, also after a change of direction |
| `DbIterator.DBIter.FindPrevUserEntry` | macOS-client/Pods/leveldb-library/db/db_iter.cc:232-272 | walks back to the newest visible entry of the previous shown user key and saves it |
| `DbIterator.DBIter.Seek` | macOS-client/Pods/leveldb-library/db/db_iter.cc:274-286 | lands on the first pair with a user key at or after the target |
| `DbIterator.DBIter.SeekToFirst` | macOS-client/Pods/leveldb-library/db/db_iter.cc:288-297 | lands on the first pair or becomes invalid |
| `DbIterator.DBIter.SeekToLast` | macOS-client/Pods/leveldb-library/db/db_iter.cc:299-304 | lands on the last pair or becomes invalid |
| `MergingIterator.Merger.FindSmallest` | macOS-client/Pods/leveldb-library/table/merger.cc:155-168 | picks the child with the least current key |
| `MergingIterator.Merger.FindLargest` | macOS-client/Pods/leveldb-library/table/merger.cc:170-183 | picks the child with the greatest current key |
| `MergingIterator.Merger.SmallestIsNext` | macOS-client/Pods/leveldb-library/table/merger.cc:155-168 | the least current key of children all past position m is item m+1 of the sorted merge |
| `MergingIterator.Merger.LargestIsPrevious` | macOS-client/Pods/leveldb-library/table/merger.cc:170-183 | the greatest current key of children all before position m is item m-1 of the sorted merge |
| `MergingIterator.Merger.SeekToFirst` | macOS-client/Pods/leveldb-library/table/merger.cc:35-41 | at the first item of the merge |
| `MergingIterator.Merger.SeekToLast` | macOS-client/Pods/leveldb-library/table/merger.cc:43-49 | at the last item of the merge |
| `MergingIterator.Merger.SeekTo` | macOS-client/Pods/leveldb-library/table/merger.cc:51-57 | at the first item at or after the target |
| `MergingIterator.Merger.Next` | macOS-client/Pods/leveldb-library/table/merger.cc:59-83 | from item m to item m+1, from either direction |
| `MergingIterator.Merger.Prev` | macOS-client/Pods/leveldb-library/table/merger.cc:85-112 | from item m to item m-1, from either direction |
| `TwoLevelIterator.TwoLevel.SkipEmptyDataBlocksForward` | macOS-client/Pods/leveldb-library/table/two_level_iterator.cc:125-136 | ends, and lands on the next item of the concatenated blocks |
| `TwoLevelIterator.TwoLevel.SkipEmptyDataBlocksBackward` | macOS-client/Pods/leveldb-library/table/two_level_iterator.cc:138-149 | ends, and lands on the previous item of the concatenated blocks |
| `TwoLevelIterator.TwoLevel.SeekTo` | macOS-client/Pods/leveldb-library/table/two_level_iterator.cc:91-96 | lands on the first item at or after the target |
| `TwoLevelIterator.TwoLevel.SeekToFirst` | macOS-client/Pods/leveldb-library/table/two_level_iterator.cc:98-103 | lands on the first item, skipping empty blocks |
| `TwoLevelIterator.TwoLevel.SeekToLast` | macOS-client/Pods/leveldb-library/table/two_level_iterator.cc:105-110 | lands on the last item, skipping empty blocks |
| `TwoLevelIterator.TwoLevel.Next` | macOS-client/Pods/leveldb-library/table/two_level_iterator.cc:112-116 | moves to the next item of the concatenation |
| `TwoLevelIterator.TwoLevel.Prev` | macOS-client/Pods/leveldb-library/table/two_level_iterator.cc:118-122 | moves to the previous item of the concatenation |
| `TwoLevelIterator.SeekLandsAt` | macOS-client/Pods/leveldb-library/table/two_level_iterator.cc:91-96 | seeking in the index and then in the block agrees with seeking in the concatenation |
| `SkipLists.SkipList.FindGreaterOrEqual` | macOS-client/Pods/leveldb-library/db/skiplist.h:262-281 | the least node at or after the key, and for each level the last node before it |
| `SkipLists.SkipList.FindLessThan` | macOS-client/Pods/leveldb-library/db/skiplist.h:284-302 | the greatest node before the key |
| `SkipLists.SkipList.FindLast` | macOS-client/Pods/leveldb-library/db/skiplist.h:304-322 | the greatest node |
| `SkipLists.SkipList.Insert` | macOS-client/Pods/leveldb-library/db/skiplist.h:337-370 | the key joins the set at exactly the levels below its height; every level stays a sorted chain nested in the one below |
| `SkipLists.ChainIsSorted` | macOS-client/Pods/leveldb-library/db/skiplist.h:262-281 | following the links of a level visits exactly its keys in increasing order |
| `SkipLists.LevelsInEveryRun` | macOS-client/Pods/leveldb-library/db/skiplist.h:337-370 | under every interleaving of one writer with readers each level is a sorted sublist of the level below |
| `SkipLists.SearchesInEveryRun` | macOS-client/Pods/leveldb-library/db/skiplist.h:261-322 | under every interleaving a finished search, for a key or for the end, misses no key that the list held when it began, on either side of where it stopped |
| `SkipLists.LastLoadInEveryRun` | macOS-client/Pods/leveldb-library/db/skiplist.h:261-322 | at its last load a search, for a key or for the end, stops exactly where its goal lies in the list of that moment |
| `SkipLists.SeekInEveryRun` | macOS-client/Pods/leveldb-library/db/skiplist.h:261-281 | under every interleaving FindGreaterOrEqual gives the least key at or above its target in the list at its last load, which holds all it held at the beginning |
| `SkipLists.PrevInEveryRun` | macOS-client/Pods/leveldb-library/db/skiplist.h:213-302 | under every interleaving FindLessThan, by which an iterator steps back, gives the last node before its target in the list at its last load |
| `SkipLists.LastInEveryRun` | macOS-client/Pods/leveldb-library/db/skiplist.h:234-322 | under every interleaving FindLast gives the last node of the list at its last load, and the head only if it is empty |
| `LinkedLists.Remove` | macOS-client/Pods/leveldb-library/util/cache.cc:242-245 | unlinking a node takes exactly it out of the circular list |
| `LinkedLists.Append` | macOS-client/Pods/leveldb-library/util/cache.cc:247-253 | linking a node before the head makes it the newest |
| `LinkedLists.SnapshotList.Oldest` | macOS-client/Pods/leveldb-library/db/snapshot.h:39 | the first snapshot has the smallest number of all live ones |
| `LinkedLists.SnapshotList.New` | macOS-client/Pods/leveldb-library/db/snapshot.h:42-51 | a snapshot with a number no smaller than the live ones, as the last sequence number always is, goes last |
| `LinkedLists.SnapshotList.Delete` | macOS-client/Pods/leveldb-library/db/snapshot.h:53-58 | exactly the released snapshot leaves, and the order stays |
| `HandleTables.HandleTable.FindPointer` | macOS-client/Pods/leveldb-library/util/cache.cc:116-123 | the slot of the matching handle, or the last slot of its bucket when there is none |
| `HandleTables.MaskIsBucket` | macOS-client/Pods/leveldb-library/util/cache.cc:117 | masking the hash with one less than a power of two is the remainder by it |
| `HandleTables.HandleTable.Lookup` | macOS-client/Pods/leveldb-library/util/cache.cc:76-78 | the handle with this key and hash if the table holds one, otherwise null |
| `HandleTables.HandleTable.Insert` | macOS-client/Pods/leveldb-library/util/cache.cc:80-94 | the handle joins the set in place of the one with its key, which is returned |
| `HandleTables.HandleTable.Remove` | macOS-client/Pods/leveldb-library/util/cache.cc:96-104 | the matching handle leaves the set and none is left |
| `HandleTables.HandleTable.Resize` | macOS-client/Pods/leveldb-library/util/cache.cc:125-149 | relinking into more buckets keeps the set and leaves at least as many buckets as handles |
| `LruCache.RefKeepsInv` | macOS-client/Pods/leveldb-library/util/cache.cc:221-227 | handing out a reference keeps the cache invariant and moves the handle to the in-use list |
| `LruCache.UnrefKeepsInv` | macOS-client/Pods/leveldb-library/util/cache.cc:229-240 | returning a reference keeps the invariant; the last one runs the deleter |
| `LruCache.EraseKeepsInv` | macOS-client/Pods/leveldb-library/util/cache.cc:307-316 | taking a handle out of the cache keeps the invariant and lowers the usage by its charge |
| `LruCache.LRUCache.Lookup` | macOS-client/Pods/leveldb-library/util/cache.cc:255-262 | a handle exactly when the key is cached, with one more reference |
| `LruCache.LRUCache.Release` | macOS-client/Pods/leveldb-library/util/cache.cc:264-267 | the deleter runs exactly when no client and not the cache refers to the handle any more |
| `LruCache.LRUCache.Insert` | macOS-client/Pods/leveldb-library/util/cache.cc:269-303 | afterwards the usage fits or nothing evictable is left; the evicted handles are the oldest ones, in order, and no fewer would do; the key has one cached handle |
| `LruCache.LRUCache.Erase` | macOS-client/Pods/leveldb-library/util/cache.cc:318-321 | exactly the handle of this key leaves the cache |
| `LruCache.LRUCache.Prune` | macOS-client/Pods/leveldb-library/util/cache.cc:323-333 | every handle without a client is deleted, oldest first |
| `LruCache.Destroy` | macOS-client/Pods/leveldb-library/util/cache.cc:209-219 | with no client left, every handle ever made has been deleted exactly once |
| `GroupCommit.BuildBatchGroup` | macOS-client/Pods/leveldb-library/db/db_impl.cc:1269-1314 | the group is a prefix of the queue with its batches in order, holds no sync write unless its leader syncs, and is as large as the limits allow |
| `GroupCommit.InGroupIff` | macOS-client/Pods/leveldb-library/db/db_impl.cc:1269-1314 | a waiting writer, with or without a batch, is in the group if and only if no writer up to it is kept out as a sync write or as too large |
| `GroupCommit.CommittedInOrder` | macOS-client/Pods/leveldb-library/db/db_impl.cc:1194-1265 | in every schedule writers are acknowledged in queue order, their updates are logged and inserted once with numbers 1, 2, 3 and so on, and a reader at the last sequence number never sees part of a batch |
| `GroupCommit.BatchIsInPlace` | macOS-client/Pods/leveldb-library/db/db_impl.cc:1194-1265 | each update of an acknowledged batch is at its one place in log and memtable, right after the batches before it |
| `GroupCommit.SyncWritesAreSynced` | macOS-client/Pods/leveldb-library/db/db_impl.cc:1269-1314 | a sync write is acknowledged only when its log record was synced |
| `GroupCommit.OwnSwitchIff` | macOS-client/Pods/leveldb-library/db/db_impl.cc:1194-1314 | in every schedule a writer without a batch is acknowledged with a memtable switch of its own, once, if and only if no leader formed a group behind which it waited with nothing keeping it out; otherwise it shares the leader's log record |
| `GroupCommit.SwitchSwallowed` | macOS-client/Pods/leveldb-library/db/db_impl.cc:1194-1314 | witness: a run in which a request for a switch behind a small write is acknowledged and nothing is switched |
| `WriteBatches.WriteBatch.Add` | macOS-client/Pods/leveldb-library/db/write_batch.cc:98-109 | put and delete add one update and count it |
| `WriteBatches.WriteBatch.Append` | macOS-client/Pods/leveldb-library/db/write_batch.cc:141-145 | counts add up and updates follow each other |
| `WriteBatches.IterateContents` | macOS-client/Pods/leveldb-library/db/write_batch.cc:42-80 | a string without a whole header is rejected; otherwise the handler gets the updates before the end or the first malformed one, and a wrong count is reported |
| `WriteBatches.BodyRoundTrip` | macOS-client/Pods/leveldb-library/db/write_batch.cc:42-80 | iterating over what was written gives the updates back without error |
| `WriteBatches.WriteBatch.InsertInto` | macOS-client/Pods/leveldb-library/db/write_batch.cc:128-134 | the memtable gets every update with consecutive sequence numbers from the batch header on |
| `WriteBatches.HeaderRoundTrip` | macOS-client/Pods/leveldb-library/db/write_batch.cc:82-96 | sequence number, count and updates can be read back from the string form |
| `Schedule.Finalize` | macOS-client/Pods/leveldb-library/db/version_set.cc:1064-1100 | the level with the highest score |
| `Schedule.NeedsExactlyWhenOverfull` | macOS-client/Pods/leveldb-library/db/version_set.cc:1064-1100 | the score reaches one exactly when level 0 has four files or another level is over its limit, and then that level is not empty |
| `Schedule.NoLostWork` | macOS-client/Pods/leveldb-library/db/db_impl.cc:645-684 | in every run, if there is work or somebody waits, one background call is queued or running, never two; its end wakes all waiters and schedules what is left |
| `Recovery.DurableInEveryRun` | macOS-client/Pods/leveldb-library/db/db_impl.cc:274-363 | at every step boundary the tables of the manifest and the logs to replay hold each batch not lost exactly once, sync writes included; the recovered sequence number is past them all and all needed files exist |
| `Recovery.CrashLosesNothing` | macOS-client/Pods/leveldb-library/db/db_impl.cc:365-486 | a crash keeps order, invents nothing and keeps every acknowledged sync write; a process crash keeps everything |
| `Recovery.SyncedWritesSurvive` | macOS-client/Pods/leveldb-library/db/db_impl.cc:1194-1265 | no later crash, recovery or clean-up loses an acknowledged sync write |
| `Recovery.NothingLost` | macOS-client/Pods/leveldb-library/db/db_impl.cc:365-486 | with process crashes only, no logged batch is ever lost |
| `Recovery.DeleteKeepsNeeded` | macOS-client/Pods/leveldb-library/db/db_impl.cc:218-272 | deleting obsolete files removes no log to be replayed and no table of the manifest, a live version or a pending output |
| `Recovery.NeverTwice` | macOS-client/Pods/leveldb-library/db/db_impl.cc:534-565 | no batch is both in a live table and in a log to be replayed |
| `Recovery.NewLogKeepsReplay` | macOS-client/Pods/leveldb-library/db/version_set.cc:1058-1062 | a log created under a number past the counter and past all marked logs overwrites nothing that has to be replayed |
| `Recovery.RecoverLogFile` | macOS-client/Pods/leveldb-library/db/db_impl.cc:365-486 | the tables written for a log hold its batches, with fresh numbers, and the largest sequence number is found |
| `Recovery.RecoverLogs` | macOS-client/Pods/leveldb-library/db/db_impl.cc:312-360 | replaying all needed logs in order gives tables with exactly their batches, an unused number for the next log and the sequence number to go on with |
| `Recovery.StepKeepsInv` | macOS-client/Pods/leveldb-library/db/version_set.cc:820-903 | every write, switch, flush, compaction, manifest and deletion step, every crash and every failed or finished opening keeps the invariant |
| `Store.StepKeepsInv` | macOS-client/Pods/leveldb-library/db/db_impl.cc:1194-1265 | tree and disk together: logging, applying, switching, committing flushes and compactions, crashes and reopening keep tables in step with what was flushed and logs with what came after |
| `Store.ReadersSeeWhatIsLeft` | macOS-client/Pods/leveldb-library/db/db_impl.cc:1109-1154 | in every running state of every run, if no committed compaction exposes a value, an operation stands in the history exactly if a batch left in tables or logs covers it, and readers see that history |
| `Store.ReopenedReadsSurvivors` | macOS-client/Pods/leveldb-library/db/db_impl.cc:274-363 | after any crash and reopening readers see exactly the history made of the batches that recovery finds, with nothing at the numbers of the others |
| `Store.SyncedOperationsStay` | macOS-client/Pods/leveldb-library/db/db_impl.cc:1194-1265 | the operations of an acknowledged sync write stay at their places in the history whatever crashes come |
| `Store.OperationsStay` | macOS-client/Pods/leveldb-library/db/db_impl.cc:365-486 | if crashes cut nothing off the logs, every operation logged stays at its place |
| `LogFormat.Writer.AddRecord` | macOS-client/Pods/leveldb-library/db/log_writer.cc:36-82 | the file grows by exactly the fragments of the record, padded at block ends |
| `LogFormat.WriteLog` | macOS-client/Pods/leveldb-library/db/db_impl.cc:1224 | adding records one after the other makes the log of them all |
| `LogFormat.PhysicalRoundTrip` | macOS-client/Pods/leveldb-library/db/log_reader.cc:199-281 | a physical record that lies whole in the file is read back; one that does not ends the file silently |
| `LogFormat.Reader.ReadPhysicalRecord` | macOS-client/Pods/leveldb-library/db/log_reader.cc:199-281 | the buffered reader returns what a reader of the whole file would at this place |
| `LogFormat.Reader.ReadRecord` | macOS-client/Pods/leveldb-library/db/log_reader.cc:60-182 | joins fragments to the next logical record, with the reports of the specification |
| `LogFormat.ReadLog` | macOS-client/Pods/leveldb-library/db/db_impl.cc:411-416 | reading records until there is none gives everything the file holds, with the corruptions reported on the way |
| `LogFormat.CutLogReadsWholeRecords` | macOS-client/Pods/leveldb-library/db/log_reader.cc:60-182 | for any records and a cut at any byte, reading gives exactly the records wholly inside the cut and reports nothing |
| `LogFormat.WholeWithinAll` | macOS-client/Pods/leveldb-library/db/log_writer.cc:36-82 | a log that is not cut holds all records |
| `Coding.EncodeVarint64` | macOS-client/Pods/leveldb-library/util/coding.cc:81-90 | the loop writes seven bits a byte, low bits first |
| `Coding.Varint32IsVarint` | macOS-client/Pods/leveldb-library/util/coding.cc:47-73 | the unrolled 32-bit form writes the same bytes as the loop, at most five |
| `Coding.GetVarintPtr` | macOS-client/Pods/leveldb-library/util/coding.cc:143-158 | the shifting loop reads what the recursive definition reads, and fails where it fails |
| `Coding.GetVarint32Ptr` | macOS-client/Pods/leveldb-library/util/coding.h:89-100 | the one-byte fast path agrees with the loop |
| `Coding.Varint32RoundTrip` | macOS-client/Pods/leveldb-library/util/coding.cc:112-141 | reading undoes writing for every 32-bit value and leaves the rest of the input |
| `Coding.Varint64RoundTrip` | macOS-client/Pods/leveldb-library/util/coding.cc:143-170 | reading undoes writing for every 64-bit value and leaves the rest of the input |
| `Coding.LengthPrefixedRoundTrip` | macOS-client/Pods/leveldb-library/util/coding.cc:182-192 | reading undoes writing for every string below 4 GB |
| `Coding.FixedRoundTrip` | macOS-client/Pods/leveldb-library/util/coding.cc:9-33 | fixed-width integers, low byte first, read back |
| `VersionEdits.EncodeTo` | macOS-client/Pods/leveldb-library/db/version_edit.cc:41-86 | the record is the concatenation of its tagged fields |
| `VersionEdits.DecodeFrom` | macOS-client/Pods/leveldb-library/db/version_edit.cc:109-210 | the loop takes fields until the end or the first error, with the error of that field |
| `VersionEdits.EditRoundTrip` | macOS-client/Pods/leveldb-library/db/version_edit.cc:41-210 | decoding what was encoded restores every part; the receiver keeps its compaction pointers in front |
| `VersionEdits.RoundTripIff` | macOS-client/Pods/leveldb-library/db/version_edit.cc:26-39 | the plain round trip holds if and only if the receiver had no compaction pointers |
| `VersionEdits.EncodingIsInjective` | macOS-client/Pods/leveldb-library/db/version_edit.cc:41-86 | different records have different bytes |
| `VersionEdits.DecodedLevels` | macOS-client/Pods/leveldb-library/db/version_edit.cc:98-107 | a decoded record names only existing levels |
| `Builders.Builder.Apply` | macOS-client/Pods/leveldb-library/db/version_set.cc:665-708 | for every level the deletions and then the additions of the edit are recorded |
| `Builders.Builder.SaveLevel` | macOS-client/Pods/leveldb-library/db/version_set.cc:711-757 | merging added files with upper-bound searches in the base gives the merged list without the deleted ones |
| `Builders.SavedIs` | macOS-client/Pods/leveldb-library/db/version_set.cc:711-772 | the saved list is in file order and holds exactly the base and added files not deleted |
| `Builders.AllAtOnceIsOneByOne` | macOS-client/Pods/leveldb-library/db/version_set.cc:665-772 | for edits in which no number joins the level twice, as all edits of the version set are, one builder builds the same list as applying them one version at a time |
| `Builders.SnapshotReplay` | macOS-client/Pods/leveldb-library/db/version_set.cc:1102-1130 | replaying a snapshot of a version and such later edits gives the list that the version became |
| `Builders.ReusedNumberResurrects` | macOS-client/Pods/leveldb-library/db/version_set.cc:697-705 | witness: were a number deleted and added again with another file, the old file would come back |
| `FileReuse.SameFilesIff` | macOS-client/Pods/leveldb-library/db/version_set.cc:665-772 | for any edits: one builder gives the files that one version per edit gives if and only if no file comes back, that is, is deleted and later has its number added with another file and not deleted again |
| `FileNumbers.SourcedIsNoReuse` | macOS-client/Pods/leveldb-library/db/version_set.h:191 | if every table an edit adds has a number handed out for it, or leaves a shallower level in the same edit, no number joins a level twice |
| `FileNumbers.SourcedKeepsDown` | macOS-client/Pods/leveldb-library/db/db_impl.cc:718-735 | files only ever go deeper: one that is at a level now was never at a deeper one |
| `FileNumbers.OutputsAreSourced` | macOS-client/Pods/leveldb-library/db/db_impl.cc:866-885 | the edits of flushes and compactions are of that kind |
| `FileNumbers.MoveIsSourced` | macOS-client/Pods/leveldb-library/db/db_impl.cc:718-735 | the edits of trivial moves are of that kind |
| `FileNumbers.CurrentIsNumbered` | macOS-client/Pods/leveldb-library/db/version_set.cc:905-1025 | in the version that any such edits lead to every table has its own number, on all levels together, below the counter |
| `BuilderPlacement.BuilderEdits` | macOS-client/Pods/leveldb-library/db/version_set.cc:711-772 | one edit applied by a builder is the change of a level used in the placement proofs |
| `Manifests.Recover` | macOS-client/Pods/leveldb-library/db/version_set.cc:905-1025 | errors as the code reports them, otherwise all edits in one builder and the latest counters |
| `Manifests.RecordsInvert` | macOS-client/Pods/leveldb-library/db/version_set.cc:932-941 | every well-formed record of this comparator is read back as it was |
| `Manifests.WriteSnapshot` | macOS-client/Pods/leveldb-library/db/version_set.cc:1102-1130 | the record adds exactly the files of every level |
| `Manifests.VersionSet.NewFileNumber` | macOS-client/Pods/leveldb-library/db/version_set.h:191 | hands out a number that no table has and that was not handed out |
| `Manifests.VersionSet.ReuseFileNumber` | macOS-client/Pods/leveldb-library/db/version_set.h:196-200 | takes back a number that was handed out last, and keeps all numbers of tables below the counter |
| `Manifests.VersionSet.MarkFileNumberUsed` | macOS-client/Pods/leveldb-library/db/version_set.cc:1058-1062 | a number found on disk is not handed out afterwards, and numbers of tables stay below the counter |
| `Manifests.VersionSet.LogAndApply` | macOS-client/Pods/leveldb-library/db/version_set.cc:820-903 | the edit is completed, appended after a snapshot if the descriptor is new, and the next version installed; descriptor and version stay in agreement and the numbers of its tables are used up |
| `Manifests.ManifestGivesCurrent` | macOS-client/Pods/leveldb-library/db/version_set.cc:905-1025 | after any LogAndApply calls, recovering from the manifest gives the current files, log numbers and last recorded counters, with all numbers in order to go on from |
| `Manifests.RecoveredIsCurrent` | macOS-client/Pods/leveldb-library/db/version_set.cc:905-1025 | the same with the code's own record encoding and decoding |
| `Blocks.DecodeEntry` | macOS-client/Pods/leveldb-library/table/block.cc:53-76 | the fast path for one-byte lengths agrees with reading three varints |
| `Blocks.EntryRoundTrip` | macOS-client/Pods/leveldb-library/table/block.cc:53-76 | an encoded entry decodes to its lengths, key delta and value |
| `Blocks.BlockBuilder.Add` | macOS-client/Pods/leveldb-library/table/block_builder.cc:73-107 | the block gains exactly this entry, with prefix compression between restart points, for any interval |
| `Blocks.Finish` | macOS-client/Pods/leveldb-library/table/block_builder.cc:63-71 | the restart array and its length follow the data |
| `Blocks.Open` | macOS-client/Pods/leveldb-library/table/block.cc:23-38 | the constructor undoes Finish: of any finished block it finds where the entries end and how many restart points follow |
| `Blocks.FinishedIsTrailed` | macOS-client/Pods/leveldb-library/table/block_builder.cc:63-71 | a finished block holds its entries and then every restart point and their number as words |
| `Blocks.NewIterator` | macOS-client/Pods/leveldb-library/table/block.cc:256-266 | opening the contents of a finished block gives an iterator over exactly the entries it was made of |
| `Blocks.FinishBlock` | macOS-client/Pods/leveldb-library/table/block_builder.cc:63-71 | the contents of a block under 4 GB are those of a finished block with the entries added |
| `Blocks.Iter.ParseNextKey` | macOS-client/Pods/leveldb-library/table/block.cc:226-253 | moves to the next entry with its full key and value, or past the end |
| `Blocks.Iter.Next` | macOS-client/Pods/leveldb-library/table/block.cc:139-142 | moves from entry i to entry i+1 of the list added |
| `Blocks.Iter.Prev` | macOS-client/Pods/leveldb-library/table/block.cc:144-163 | moves from entry i to entry i-1, across restart points, and becomes invalid before the first |
| `Blocks.Iter.Seek` | macOS-client/Pods/leveldb-library/table/block.cc:165-203 | lands on the first key at or after the target, for keys increasing in any transitive order |
| `Blocks.BytewiseIsTransitive` | macOS-client/Pods/leveldb-library/util/comparator.cc:25-27 | the bytewise order is such an order |
| `Blocks.Iter.SeekToFirst` | macOS-client/Pods/leveldb-library/table/block.cc:205-208 | lands on the first entry, if any |
| `Blocks.Iter.SeekToLast` | macOS-client/Pods/leveldb-library/table/block.cc:210-215 | lands on the last entry, if any |
| `Separators.FindShortestSeparator` | macOS-client/Pods/leveldb-library/util/comparator.cc:29-51 | the result is the start itself, or lies strictly between start and limit and is no longer |
| `Separators.FindShortSuccessor` | macOS-client/Pods/leveldb-library/util/comparator.cc:53-65 | the result is the key itself, which happens only for a run of 0xff bytes, or comes after it and is no longer |
| `Separators.FindSeparator` | macOS-client/Pods/leveldb-library/db/dbformat.cc:68-85 | at or after the last key and before the next first one, with a user key strictly between unless it is the last key |
| `Separators.FindSuccessor` | macOS-client/Pods/leveldb-library/db/dbformat.cc:87-99 | at or after the key |
| `Bloom.CreateFilter` | macOS-client/Pods/leveldb-library/util/bloom.cc:35-61 | every key given passes the filter, whatever the hash |
| `Bloom.KeyMayMatch` | macOS-client/Pods/leveldb-library/util/bloom.cc:63-86 | false exactly for a filter too short or with some probe of the key not set |
| `FilterBlocks.FilterBlockBuilder.StartBlock` | macOS-client/Pods/leveldb-library/table/filter_block.cc:22-28 | filters of all earlier stretches are written before the block begins |
| `FilterBlocks.FilterBlockBuilder.GenerateFilter` | macOS-client/Pods/leveldb-library/table/filter_block.cc:52-76 | one more filter, that passes all waiting keys and leaves earlier filters alone |
| `FilterBlocks.FilterBlockBuilder.Finish` | macOS-client/Pods/leveldb-library/table/filter_block.cc:36-50 | the contents are the filters, their offsets, the end of the filters and the stretch; every key added to the block at an offset passes the filter found for that offset |
| `FilterBlocks.NewReader` | macOS-client/Pods/leveldb-library/table/filter_block.cc:78-93 | opening undoes Finish; contents that are too small or point outside themselves give a reader without filters, and no lookup leaves the contents |
| `FilterBlocks.ReaderKeyMayMatch` | macOS-client/Pods/leveldb-library/table/filter_block.cc:95-109 | for a finished block: the shifted offset and two words of the array find the filter, and the answer is that filter's; an offset past all filters counts as a possible match |
| `Tables.TableBuilder.Add` | macOS-client/Pods/leveldb-library/table/table_builder.cc:92-121 | the entry joins; the pending index key separates the last block from it |
| `Tables.TableBuilder.Flush` | macOS-client/Pods/leveldb-library/table/table_builder.cc:123-137 | the block is closed, its index key waits for the next entry, and the filter starts the next block |
| `Tables.TableBuilder.Finish` | macOS-client/Pods/leveldb-library/table/table_builder.cc:199-254 | the finished index separates all blocks and the filter passes every key of every block |
| `Tables.IndexIncreases` | macOS-client/Pods/leveldb-library/table/table_builder.cc:102-110 | index keys strictly increase |
| `Tables.FoundInBlock` | macOS-client/Pods/leveldb-library/table/table.cc:226-255 | the block that the index leads to decides a search of all entries |
| `TableFormat.KeyRoundTrip` | macOS-client/Pods/leveldb-library/db/dbformat.cc:18-21 | an encoded internal key is parsed back |
| `TableFormat.HandleRoundTrip` | macOS-client/Pods/leveldb-library/table/format.cc:15-30 | a block handle in at most twenty bytes is read back |
| `TableFormat.FooterRoundTrip` | macOS-client/Pods/leveldb-library/table/format.cc:32-63 | the footer gives back both handles |
| `TableFormat.StoredIsRead` | macOS-client/Pods/leveldb-library/table/format.cc:65-143 | an uncompressed block is read back from its place, with and without a check of its checksum |
| `TableFiles.TableWriter.Add` | macOS-client/Pods/leveldb-library/table/table_builder.cc:92-121 | the entry joins the plan and the data block, and a block that has grown large enough is written |
| `TableFiles.TableWriter.Flush` | macOS-client/Pods/leveldb-library/table/table_builder.cc:123-190 | the data block goes to the file with its trailer and its place is kept for the index |
| `TableFiles.TableWriter.Finish` | macOS-client/Pods/leveldb-library/table/table_builder.cc:199-254 | data blocks, filter, metaindex and index block and footer stand in the file: a table of exactly the entries added |
| `TableReads.Open` | macOS-client/Pods/leveldb-library/table/table.cc:38-83 | a file that is too short, has a bad magic number or handle, or whose index block cannot be read is rejected as the code does; a finished table is opened with its index and filter |
| `TableReads.ReadMeta` | macOS-client/Pods/leveldb-library/table/table.cc:91-143 | of a finished table the metaindex block leads to the filter block |
| `TableReads.SeekBlock` | macOS-client/Pods/leveldb-library/table/table.cc:226-255 | seeking the encoded key in the bytes of a data block finds what a search of its entries finds |
| `TableReads.InternalGet` | macOS-client/Pods/leveldb-library/table/table.cc:226-255 | in the bytes of any finished table file, lookup through index block, filter and one data block finds the entry of the user key exactly when a search of all entries does |
| `Crc32c.ZeroIsRemainder` | macOS-client/Pods/leveldb-library/util/crc32c.cc:299-318 | dividing by a byte is linear under exclusive or and shifts out low zero bits |
| `Crc32c.Step1Is` | macOS-client/Pods/leveldb-library/util/crc32c.cc:309-312 | a table step is one byte of the bitwise definition |
| `Crc32c.FoldFour` | macOS-client/Pods/leveldb-library/util/crc32c.cc:313-320 | a step through the four tables is four bytes of the definition |
| `Crc32c.Extend` | macOS-client/Pods/leveldb-library/util/crc32c.cc:299-347 | for every buffer, alignment and starting value the loops give the checksum of the definition |
| `Crc32c.ChecksumConcat` | macOS-client/Pods/leveldb-library/util/crc32c.cc:299-347 | extending by a and then by b is extending by both |

## Left out

- The Android and macOS user interface and the Firebase glue: calls into libraries, no logic of this kind.
- Operating system files, locks and memory maps; mutexes and condition variables themselves; arenas, random numbers and file names.
- C bindings, properties, statistics, status texts, option clipping, approximate sizes: thin or formatting only.
- Repair: it puts every table at level 0, so the level order does not apply.
- Corrupted input: in most formats a built block, table or log is read, or a log cut at a byte; damage in the middle, resynchronising from a later offset, and the overflow of 32-bit length sums in damaged entries are not modelled.
- Compression, hardware checksums and checksum masking; the block cache between a table and its blocks.
- The literal numbers of the four CRC tables: the tables are defined by the polynomial and the recurrence that links them.
- The flattening of waiting filter keys into one string.
- Compaction pointers, grandparent overlap limits and seek statistics influence only which file is chosen or where an output is cut; the model allows any choice.
- Integer overflow of sequence numbers and file numbers.
- Update in place of list nodes in `HandleTables` and `LruCache`: links and lists there are map and sequence fields; `LinkedLists` proves the pointer operations on heap nodes.
- Crc32c.Extend: the table entries are functions of the polynomial, not the literal numbers of the source.
- Blocks.Iter.ParseNextKey: the corruption branches are not written out; for a built block they cannot be taken.
- The encoding of memtable entries and of lookup keys in the memtable; there a key is an internal key.
- Writes that arrive inside one operation of an iterator: they come between its operations, as `Reads.Resume` shows.
- TableFiles.TableWriter.Finish: nothing is promised of a file of 2^64 bytes or of an index or filter block of 4 GB, whose offsets do not fit.
- Recovery.DurableInEveryRun: which entries of a batch a merge has dropped is not seen here, its outputs answer for the batches of their inputs; Store says what readers see of the batches that are left.
- Recovery.StepKeepsInv: the same, in the step that commits a compaction.
- Lsm.ReopenStep: any operation after the flushed ones may be lost here; Store.ReopenedReadsSurvivors says exactly which are.
