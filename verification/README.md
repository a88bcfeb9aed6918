# A verified model of the storage engine

The database stores key-value pairs in an LSM tree: a write goes to a write-ahead log and to a memory table; a
full memory table is swapped out under traffic and becomes a sorted table on disk; when there are too many
tables they are merged into one; after a stop or a crash, the tables are reloaded and the logs are replayed.
Every one of these parts is a fast or durable form of one map from keys to (optional value, version). This
project models the parts and proves that they agree with that map, at every step and at every point where a
crash can happen: between any two operations on files, in the middle of a log entry, and while the files of a table
are being written.

The layers, from the bottom:

| file | what it models |
|---|---|
| `kv.dfy`, `wrappers.dfy` | values, operations, the one map and its algebra |
| `wire.dfy` | the Protocol Buffers wire format ("Base 128 Varints" and "Message Structure" in its Encoding document) and length-delimited frames, decoded byte by byte |
| `log.dfy` | log files as bytes: what a reader makes of any file, torn or resumed |
| `disk.dfy`, `log_writer.dfy` | the data directory with its history of states; the log writers that append to it and are swapped |
| `tables.dfy` | sorted tables: building, offsets, binary search |
| `compaction.dfy` | the k-way merge |
| `collection.dfy` | the table list in memory and in the metadata file, with every crash point |
| `memtable.dfy` | the memory table, its double buffer, replay |
| `recovery.dfy` | what recovery makes of the logs, and exactly when that is right |
| `engine.dfy` | the whole engine as a state machine: one step for each statement of a swap, of compaction and of recovery, mixed with requests and failures |
| `failed_swap.dfy`, `empty_log.dfy` | reachable runs that lose writes or bring back old values, and from which the program cannot start again |
| `reads.dfy` | a `Get` split into its probes |
| `reclaim.dfy` | reference counts and freeing |
| `storage_system.dfy`, `controller.dfy` | requests and the swap as methods over the real objects, each proved to be a run of the engine |
| `startup.dfy`, `restart.dfy` | the start of the program as a loop over log files, proved to be the engine's restart step; crashes anywhere, and the whole cycle of run, stop and start |
| `election.dfy` | master election over ZooKeeper sessions |
| `versions.dfy` | the version counter under interference |

The state machine in `engine.dfy` carries the main theorems; the classes are tied to it. `StorageSystem.Valid`
says that the memory buffers and the tables are those of an engine state that satisfies the engine's invariant, and
that the log files hold its logs up to the writers' positions. `StorageSystem.Settled` says that there is nothing else
in the files: no log has a tail, and a reload finds exactly the tables in memory. A first start gives a settled system,
and so does a start on log files without tails; requests and swaps keep it settled while there are at most 200
million keys. From a settled system every method proves which steps of the engine it took and gives the history of
the disk as points of that run (`Tracked`): each state of the disk decodes to the engine's tables and logs at its
point, the points never go back, and no step that changes the files is skipped.

## What was found

Where a property is false of the code, the code is modelled as it is, a lemma gives an input on which the
property fails, and another gives the exact condition under which it holds.

- A swap that fails after its first statement leaves a log behind. The retry writes the old buffer to a table and
  then removes the *newer* of the two old logs, whose writes are in no table; a crash then loses them
  (`FailedSwap.RetryLosesWrites`, a run from the empty engine). The files stay right exactly when every key that
  only the removed log names is already held by the older logs or the tables (`Engine.RemoveLogExact`). In memory
  nothing is ever lost (`Engine.LiveMapSurvivesFailures`).
- The removal of a log may fail without notice, and then it stays behind in the same way, although no swap has failed.
  The next swap, on which nothing fails, removes the newer log, and a restart replays the older one over the table
  with the newer values (`FailedSwap.KeptLogGoesStale`, a run from the empty engine). `Engine.RemoveLogExact` has the
  condition for this case as well.
- Recovery keeps only the last small log it visits, and the threshold at start-up (5000) is not the one that
  triggers a swap (5), so a crash during a swap can leave two small logs of which one is forgotten
  (`FailedSwap.CrashInSwapLosesWrites`, a run of five writes, the first statement of their swap, and one more write;
  `Recovery.TwoSmallLogsLoseOne` for any two small logs). For any number of logs, none redundant and no two
  exchangeable, recovery is right exactly when only the newest log may be small and the large ones are met oldest
  first (`Recovery.SafeOrderExact`).
- The message with the offsets of a table is refused when it has 2 GB or more, and the result of writing it is ignored
  (persistent.cpp:69): the index file stays empty, the table is in use, and a reload finds it without entries. A
  reload gives the table exactly when it has no entries or its offsets fit (`Tables.IndexFileExact`,
  `Collection.CreateTable`), and after a compaction, which deletes the old data files, a restart finds the map exactly
  when the merged table's offsets fit, and nothing otherwise (`Collection.RunCompaction`,
  `Collection.UnindexedIsLost`). Up to 200 million keys they always fit, from 2^30 keys on never
  (`Tables.IndexSize`); the theorems about crashes are stated for the former.
- A start reads the greatest version of every log through the position of its maximum, also when the log has no
  operation. A process that stops before its first write, or between a log swap and the next write, leaves such a
  log and has no defined start (`EmptyLog.StopsThatCannotStart`). The current log is empty exactly when nothing was
  written since its last swap (`EmptyLog.EmptyExactly`, `EmptyLog.EmptyAfterStep`), and a start on which nothing
  fails is undefined exactly when some log is empty (`Startup.InitializeStorages`).
- A log is resumed without being truncated. A shorter entry written over a torn one can end just before old bytes
  that read as an entry (`Log.ResumeCanRepeat`); `Log.ResumeExact` has the condition.
- `UpdateMaxVersion(v)` may be followed by a generated version `v`, so generated versions are at least, not above,
  every observed one (`Versions.UpdateThenGenerateCanRepeat`). An undisturbed update is followed by a greater version
  exactly when the counter already was above `v` (`Versions.UndisturbedUpdate`); in any interleaving `v` is repeated
  exactly when the last change of the counter was the swap that stored it (`Versions.NextRepeatsExactly`).
- When the answer to a successful create of `/master` is lost, the owner finds the node in place, watches it, and
  never learns that it is the master (`Election.LostAnswerLeavesNoMaster`). In every run the owner is unaware exactly
  when the answer to the create that made it the owner was lost, and stays so until its session ends
  (`Election.UnawareExact`, `Election.OwnerIsUnawareExactly`). Safety is not affected.

## Assumptions

- Loading a buffer reference and taking its count is one step.
- One request (guard, log, memory) is atomic with respect to the statements of a swap; a `Get` is split into its
  probes in `reads.dfy`.
- One swap job runs at a time, as the job guard ensures.
- Rewriting a metadata file is atomic, and so is a rename.
- The data directory is an absolute path: `AppendMetadata` joins it with a path that `SwapWith` has already joined with
  it (persistent_storage_collection.cpp:41 and 141).
- File names are random in the program: here they are fresh, pairwise distinct and short, and logs are numbered.
- `MergeData` dereferences `begin()` of every table, so tables that are merged must not be empty; that they are not
  is part of the engine's invariant (`Engine.StepKeepsStructure`).
- Versions do not wrap around; entries that a table is built from have distinct keys, as those of a map do.

## Model

| member | source | states |
|---|---|---|
| Kv.LastOperationDecides | src/stewkk/db/logic/recovery/wal_reader.cpp:98-110 | after any operations, one more insertion binds its key to its very value and version, a removal binds it to a tombstone with its version, and every other key stays as it was |
| Wire.VarintBytes | src/stewkk/db/wal.proto:6-21 | the bytes of a varint are the number to the base 128, least significant first, with the top bit set in all but the last |
| Wire.VarintRoundTrip | src/stewkk/db/wal.proto:6-21 | a varint is decoded to the number that was encoded, in as many bytes, whatever follows it |
| Wire.FieldsRoundTrip | src/stewkk/db/wal.proto:6-21 | parsing the encoding of any list of valid fields returns that list |
| Wire.LastFieldDecides | src/stewkk/db/wal.proto:5-21 | of several fields with one number the last decides, and fields of another number or kind do not matter |
| Wire.FrameRoundTrip | src/stewkk/db/logic/recovery/wal_writer.cpp:19-27 | a delimited message is read back whole with its exact size, whatever bytes follow |
| Wire.FramePrefix | src/stewkk/db/logic/recovery/wal_reader.cpp:38-48 | no proper prefix of a delimited message is ever accepted as one |
| Log.OperationRoundTrip | src/stewkk/db/logic/recovery/swappable_wal_writer.cpp:35-53 | an insertion or removal of any strings and version that fits in a message is decoded to the same operation |
| Log.EntryBytes | src/stewkk/db/wal.proto:5-21 | the very bytes of a delimited insertion or removal with short strings: lengths, field numbers and kinds, key, value, version |
| Log.OtherFields | src/stewkk/db/logic/recovery/wal_reader.cpp:41 | unknown fields of an entry are skipped, and an operation that is no message makes the entry unreadable |
| Log.PartsAreMerged | src/stewkk/db/logic/recovery/wal_reader.cpp:41 | an entry whose operation comes in two parts is read as the operation of both parts together |
| Log.LaterOperationCounts | src/stewkk/db/logic/recovery/wal_reader.cpp:50-65 | of an insertion and a removal in one entry the later one counts |
| Log.OtherEntries | src/stewkk/db/logic/recovery/wal_reader.cpp:41-67 | for any bytes: an entry without an operation is passed over, and one that is cut short or no message ends the log where it starts |
| Log.ReadWAL | src/stewkk/db/logic/recovery/wal_reader.cpp:25-71 | fails exactly when the file cannot be opened; otherwise the loop returns the operations and the offset that the recursive definition of a log's contents gives, for any bytes |
| Log.DecodeAfterLog | src/stewkk/db/logic/recovery/wal_reader.cpp:36-69 | the operations that were logged come first and the offset counts their bytes, whatever bytes come after them |
| Log.TornLog | src/stewkk/db/logic/recovery/wal_reader.cpp:37-48 | after any logged operations and any proper prefix of one more entry, exactly those operations and the offset where they end are returned |
| Log.CutLog | src/stewkk/db/logic/recovery/wal_reader.cpp:37-48 | a log cut at any byte yields exactly the operations that lie wholly before the cut |
| Log.DecodeSplit | src/stewkk/db/logic/recovery/wal_reader.cpp:36-48 | for any file at all, what was decoded up to the reported offset stays decoded when everything after it is replaced |
| Log.ResumeLog | src/stewkk/db/logic/recovery/wal_writer.cpp:42-52 | opening any file at the reported offset and appending operations makes the next read return the old operations, the new ones, then what the rest of the old tail decodes to |
| Log.ResumeExact | src/stewkk/db/logic/recovery/wal_writer.cpp:42-52 | resuming returns old and new operations and nothing else if and only if the part of the torn tail that was not overwritten decodes to nothing; so always when the new entries are at least as long as the tail |
| Log.ResumeCanRepeat | src/stewkk/db/logic/recovery/wal_writer.cpp:42-52 | a torn file and one new entry for which the next read reports the new operation twice |
| Log.HoldsOneMore | src/stewkk/db/logic/recovery/wal_writer.cpp:19-27 | writing one entry at the end of what a file holds makes it hold that operation as well |
| LogWriter.WALWriterImpl.WriteEntry | src/stewkk/db/logic/recovery/wal_writer.cpp:19-27 | overwrites the file from the stream position without truncating it and moves the position; an entry too large for a message is refused and changes nothing; no other file changes |
| LogWriter.NewWALWriter | src/stewkk/db/logic/recovery/wal_writer.cpp:29-40 | creates an empty log file with the position at its start, or changes nothing |
| LogWriter.LoadWALWriter | src/stewkk/db/logic/recovery/wal_writer.cpp:42-52 | the old bytes stay and the position is the given offset |
| LogWriter.SwappableWalWriterImpl.WriteEntry | src/stewkk/db/logic/recovery/swappable_wal_writer.cpp:35-61 | the current log gains exactly this operation, the others keep theirs, and a refused operation changes nothing; while no file has a tail, a reader of all the files finds exactly what has been written; an entry written over a tail leaves none if and only if it reaches the file's end |
| LogWriter.SwappableWalWriterImpl.Swap | src/stewkk/db/logic/recovery/swappable_wal_writer.cpp:63-80 | a new empty log becomes the current one and the callback names the log before it; on failure nothing changes |
| LogWriter.SwappableWalWriterImpl.RemoveOld | src/stewkk/db/logic/recovery/swappable_wal_writer.cpp:76-79 | removes exactly the log before the current one; if the removal fails silently all logs stay |
| LogWriter.LogsAreRead | src/stewkk/db/logic/recovery/wal_reader.cpp:25-71 | reading the log files when none has a tail returns from each exactly the operations that the writers put there, and calls the whole of it valid |
| LogWriter.TornAppendIsUnread | src/stewkk/db/logic/recovery/wal_reader.cpp:37-48 | after a crash in the middle of writing an entry to one of several whole logs, a reader finds in all of them what was there before |
| Tables.SortIsSorted | src/stewkk/db/logic/storage/persistent.cpp:33 | entries with distinct keys are put into the order of their bytes, and no entry is lost or added |
| Tables.LessExact | src/stewkk/db/logic/storage/persistent.cpp:33 | one key comes before another if and only if it is a proper prefix of it or has the smaller byte at the first place where they differ |
| Tables.StorableExact | src/stewkk/db/logic/storage/persistent.cpp:33-59 | whether entries can become a table depends on the map they stand for alone, not on the order in which they are collected |
| Tables.BuildableExact | src/stewkk/db/logic/storage/persistent.cpp:33-59 | entries can become a table if and only if each is below 2 GB as a message and the data file stays below 2^63 bytes |
| Tables.EntryBytes | src/stewkk/db/persistent.proto:18-22 | the very bytes of a delimited entry with short strings; a tombstone is an entry without field 2 |
| Tables.Table.Get | src/stewkk/db/logic/storage/persistent.cpp:85-100 | the binary search finds an entry exactly when the table stands for a map with that key, and returns that key, value or tombstone, and version |
| Tables.ReadAtOffset | src/stewkk/db/logic/storage/persistent.cpp:148-165 | reading at the i-th offset decodes the i-th entry; an absent value stays absent |
| Tables.IndexRoundTrip | src/stewkk/db/logic/storage/persistent.cpp:112-118 | the offsets of any table are decoded from the message that encodes them |
| Tables.IndexMessage | src/stewkk/db/logic/storage/persistent.cpp:55-69 | the message holds the number of offsets once, as `map_size`, and then the offsets |
| Tables.IndexFileExact | src/stewkk/db/logic/storage/persistent.cpp:55-69 | the offsets loaded from the index file are those written if and only if there are none or the message fits in 2 GB; otherwise none are loaded |
| Tables.IndexSize | src/stewkk/db/logic/storage/persistent.cpp:55-69 | the message fits for up to 200 million offsets of any size, and never for 2^30 or more |
| Tables.NewPersistentStorage | src/stewkk/db/logic/storage/persistent.cpp:33-59 | builds the sorted data file and its offsets, and fails exactly when an entry does not fit in a message or the file is too long for an offset; an index message that does not fit leaves an empty index file and is not noticed |
| Tables.TableIsFaithful | src/stewkk/db/logic/storage/persistent.cpp:23-100 | the new table is readable, its entries are in the order of their keys' bytes, its offsets strictly increase, and it stands for exactly the map of the given entries |
| Tables.TableIsSaved | src/stewkk/db/logic/storage/persistent.cpp:103-126 | the table has one offset for each key of its map, and its index file is decoded to all of them or, when they did not fit, to none; up to 200 million keys they fit |
| Compaction.Top | src/stewkk/db/logic/storage/compaction.cpp:31-50 | the cursor taken from the queue has the smallest key, and of equal keys the newest table |
| Compaction.LeftDecreases | src/stewkk/db/logic/storage/compaction.cpp:54-70 | each round leaves one entry fewer to consume |
| Compaction.MergeStep | src/stewkk/db/logic/storage/compaction.cpp:54-70 | one round keeps the output sorted and in agreement with the newest table for every key taken so far |
| Compaction.MergeEntries | src/stewkk/db/logic/storage/compaction.cpp:52-72 | for any non-empty list of non-empty tables the output is in the order of the keys' bytes, each key once, and stands for the same map as the tables read newest first, tombstones included |
| Collection.MetadataRoundTrip | src/stewkk/db/logic/storage/persistent_storage_collection.cpp:16-57 | the list of file names that was written is the list that is read |
| Collection.MetadataBytes | src/stewkk/db/persistent.proto:5-11 | the very bytes of a list with one short name |
| Collection.OtherLists | src/stewkk/db/logic/storage/persistent_storage_collection.cpp:16-31 | a missing or unreadable list counts as empty, and unknown fields of a readable one are skipped |
| Collection.ReadCollection | src/stewkk/db/logic/storage/persistent_storage_collection.cpp:59-81 | loads the listed tables in order and skips those that cannot be loaded |
| Collection.ListOneMore | src/stewkk/db/logic/storage/persistent_storage_collection.cpp:33-57 | after the list has been rewritten with one more name, a restart finds the same tables and then that one |
| Collection.DeleteFirst | src/stewkk/db/logic/storage/persistent_storage_collection.cpp:162-164 | after the data file of the oldest loadable table is deleted, a restart finds exactly the others |
| Collection.CreateTable | src/stewkk/db/logic/storage/persistent.cpp:23-78 | leaves the table's two files in place or fails by a file fault or size; a reload then gives the very table if and only if it is empty or its index message fits; no state of the disk on the way looks different to a restart, and no log changes |
| Collection.PersistentStorageCollection.Add | src/stewkk/db/logic/storage/persistent_storage_collection.cpp:88-107 | memory and a reload of the disk gain the table together, the reload with the offsets that were saved, or neither changes |
| Collection.PersistentStorageCollection.Get | src/stewkk/db/logic/storage/persistent_storage_collection.cpp:109-125 | finds a key exactly when some table binds it, with the binding of the newest such table |
| Collection.PersistentStorageCollection.SwapWith | src/stewkk/db/logic/storage/persistent_storage_collection.cpp:133-167 | after success memory and a reload are the one merged table, the reload with the offsets that were saved; every single state of the disk on the way reloads as the old tables, or as those of them not yet deleted followed by the merged one |
| Collection.MergedHidesOld | src/stewkk/db/logic/storage/persistent_storage_collection.cpp:146-164 | a merged table listed after any of the newer tables it came from stands for the same map |
| Collection.CrashViewMeaning | src/stewkk/db/logic/storage/persistent_storage_collection.cpp:133-167 | what a restart finds at any crash point of the swap has the same entry for every key |
| Collection.MergeData | src/stewkk/db/logic/storage/compaction.cpp:15-73 | succeeds exactly when no file fails and the entries fit; the merged table stands for the map of the collection, and its index fits for up to 200 million keys; until it is listed no crash can see it |
| Collection.RunCompaction | src/stewkk/db/logic/storage/compaction.cpp:77-98 | does nothing for five tables or fewer and otherwise leaves one table exactly when no file fails and the entries fit; whatever fails, the collection stands for the same map; a reload at the end of a replacement does if and only if the merged index fits, and then, if it did at the start, so does a reload of every state the disk went through |
| Collection.UnindexedIsLost | src/stewkk/db/logic/storage/compaction.cpp:77-98 | once a merged table is alone on the list, a restart answers from its map if and only if its index fitted, and finds nothing at all otherwise |
| Memtable.MapStorage.Get | src/stewkk/db/logic/storage/inmemory.cpp:15-22 | finds exactly the keys that are bound, tombstones among them |
| Memtable.MapStorage.Insert | src/stewkk/db/logic/storage/inmemory.cpp:28-30 | binds one key to the very value and version, and no other |
| Memtable.MapStorage.Remove | src/stewkk/db/logic/storage/inmemory.cpp:24-26 | binds one key to a tombstone with the version |
| Memtable.Replay | src/stewkk/db/logic/recovery/wal_reader.cpp:98-110 | the loop has the effect of all operations in order, the last one of a key deciding |
| Memtable.ToEntries | src/stewkk/db/logic/storage/inmemory.cpp:36-43 | one entry for each key, standing for the same map |
| Memtable.SwappableMemoryStorage.Get | src/stewkk/db/logic/storage/swappable_memory_storage.cpp:44-59 | answers from the first reader over the second |
| Memtable.SwappableMemoryStorage.Insert | src/stewkk/db/logic/storage/swappable_memory_storage.cpp:68-73 | changes only the buffer that the writer shares with one of the readers, and what the readers find is the old contents with the key bound to the very value |
| Memtable.SwappableMemoryStorage.Collect | src/stewkk/db/logic/storage/swappable_memory_storage.cpp:83-95 | directs later writes to the first buffer and returns the second one's entries |
| Memtable.SwappableMemoryStorage.RemoveCollected | src/stewkk/db/logic/storage/swappable_memory_storage.cpp:97-104 | the first buffer becomes the second, a new empty one the first, and the writer stays with the old first |
| Recovery.RecoveryIsReplay | src/stewkk/db/logic/recovery/wal_reader.cpp:127-158 | with no condition at all, recovery amounts to replaying the large logs in visiting order and then the last small one over the tables |
| Recovery.LargesExact | src/stewkk/db/logic/recovery/wal_reader.cpp:136-148 | the logs that become tables are exactly those whose replay has more keys than the threshold, each once and in the order of the visits |
| Recovery.LastSmallExact | src/stewkk/db/logic/recovery/wal_reader.cpp:149-157 | the log that stays in memory is the last one visited whose replay has at most so many keys, and there is none exactly if all have more |
| Recovery.SafeOrderKeepsAll | src/stewkk/db/logic/recovery/wal_reader.cpp:127-158 | when only the newest log may be small and large ones are met oldest first, those logs are all logs in age order, wherever the small one is met |
| Recovery.RecoveryRebuilds | src/stewkk/db/logic/recovery/wal_reader.cpp:112-168 | under that condition the recovered map is the old tables with all logs replayed by age |
| Recovery.SafeOrderExact | src/stewkk/db/logic/recovery/wal_reader.cpp:112-168 | for any number of logs of which each has a key of its own and each two disagree on a key that no third names, recovery is right if and only if only the newest log may be small and the large ones are met oldest first |
| Recovery.TwoLogsExact | src/stewkk/db/logic/recovery/wal_reader.cpp:136-157 | the same for the two logs that one interrupted swap leaves: the older must be large and, when both are, come first in the directory |
| Recovery.TwoSmallLogsLoseOne | src/stewkk/db/logic/recovery/wal_reader.cpp:149-157 | of any two small logs, whichever is older, recovery forgets each key that only the one visited first and no table names |
| Engine.StepRefinesMap | src/stewkk/db/logic/controllers/controller.cpp:43-70 | no statement of a swap, of compaction or of a failed attempt, and no restart, changes the map the engine answers from; a write changes exactly its key |
| Engine.StepKeepsStructure | src/stewkk/db/logic/storage/swappable_memory_storage.cpp:83-104 | at each statement the readers, the writer, the tables in memory and those listed on disk stand in the stated relation, and no collected buffer or table is empty |
| Engine.RemoveLogIsDurable | src/stewkk/db/logic/controllers/controller.cpp:44-67 | deleting the only old log loses nothing, although writes between the log swap and the collection are in the new log and the old buffer |
| Engine.StepKeepsInv | src/stewkk/db/logic/controllers/controller.cpp:43-70 | every step keeps the invariant: the files hold the map the engine answers from |
| Engine.EngineIsOneMap | src/stewkk/db/logic/controllers/controller.cpp:43-70 | after any run with crashes and recoveries in safe order and no log removed after a failed attempt, the engine is the map with all writes applied in order, and the files hold it |
| Engine.LiveMapSurvivesFailures | src/stewkk/db/logic/controllers/controller.cpp:43-70 | after any run without a restart, failed attempts and retries included, the engine answers as that map |
| Engine.RemoveLogExact | src/stewkk/db/logic/recovery/swappable_wal_writer.cpp:76-79 | with any number of old logs, removing the newest of them keeps the files right if and only if every key that only it names is already held just so by the older logs or the tables |
| Engine.BufferIsLogUntilSwap | src/stewkk/db/logic/storage/storage_system.cpp:12-52 | from a start or recovery until the next swap, the writable buffer is exactly the replay of the current log |
| Engine.StartedBufferIsLog | src/stewkk/db/logic/recovery/wal_reader.cpp:149-157 | a new or recovered engine begins with its writable buffer equal to the replay of its log |
| FailedSwap.RetryLosesWrites | src/stewkk/db/logic/controllers/controller.cpp:53-67 | a run from the empty engine, with one failed swap and its retry, after which a key is answered from memory and held by no file |
| FailedSwap.CrashInSwapLosesWrites | src/stewkk/db/logic/recovery/wal_reader.cpp:149-157 | a run of five writes, a log swap and one more write, after which the files hold the five writes and a recovery at the default threshold that visits the logs by age does not |
| FailedSwap.KeptLogGoesStale | src/stewkk/db/logic/recovery/swappable_wal_writer.cpp:76-79 | a run of two bursts on the same keys and their swaps, in which only a log's removal fails unnoticed: the engine answers with the new value and the files hold the old one |
| Reads.StepIsHonest | src/stewkk/db/logic/storage/swappable_memory_storage.cpp:44-59 | whatever step happens between two probes, all that the read can still return has been the key's value since it began |
| Reads.GetIsLinearizable | src/stewkk/db/logic/storage/storage_system.cpp:54-72 | a `Get` whose probes are interleaved with any writes, swaps, failed swaps and compactions returns the value, tombstone or absence the map had for the key at some moment between its first and last step |
| Reads.GetAnswers | src/stewkk/db/logic/storage/storage_system.cpp:54-72 | whatever happens meanwhile, a read can always take its next step, and after four steps of its own it has its answer |
| Reads.UndisturbedGet | src/stewkk/db/logic/storage/storage_system.cpp:54-72 | undisturbed, those four steps answer with the binding of the key in the one map, tombstone or absence included |
| Reclaim.StepKeepsInv | include/stewkk/db/logic/synchronization/operations_guard.hpp:15-48 | each count is at every step the number of operations in flight that hold it, and what they hold is alive |
| Reclaim.CollectedIsFrozen | src/stewkk/db/logic/storage/swappable_memory_storage.cpp:83-104 | once Step 2 has waited, no operation in flight can write the collected map, no step changes it before it is freed, and the copy stays equal to it |
| Reclaim.FreedWasUnused | src/stewkk/db/logic/storage/swappable_memory_storage.cpp:97-104 | the map freed in Step 4 is held by no operation |
| Reclaim.ReclamationIsSafe | include/stewkk/db/logic/synchronization/operations_guard.hpp:60-91 | in every reachable state each count is the number of operations holding it, nothing held has been freed, and while a map is collected no operation in flight can write it and the copy equals it |
| Reclaim.BeginHolds | include/stewkk/db/logic/synchronization/operations_guard.hpp:15-48 | an operation can always begin; it then holds the counter of its own reference, and nothing else has changed |
| Reclaim.WaitExact | include/stewkk/db/logic/synchronization/operations_guard.hpp:60-91 | the swap goes on from either wait if and only if no operation in flight holds the counter it waits for |
| Reclaim.WaitShrinks | src/stewkk/db/logic/storage/swappable_memory_storage.cpp:83-104 | while the swap waits no operation comes to hold that counter |
| Reclaim.SwapIsNeverStuck | src/stewkk/db/logic/storage/swappable_memory_storage.cpp:83-104 | from every state the operations in flight can end one by one, leaving all buffers as they are, and then the next statement of the swap can be carried out |
| Reclaim.StepRefinesBuffers | src/stewkk/db/logic/storage/swappable_memory_storage.cpp:83-104 | each step with its counts is a step of the plain double buffer that the engine uses, or leaves that alone |
| StorageSystems.StorageSystem.Get | src/stewkk/db/logic/storage/storage_system.cpp:54-72 | returns the live value of the one map, with version 0 for a key in memory and the table's version otherwise; tombstones and absent keys are not found |
| StorageSystems.StorageSystem.Write | src/stewkk/db/logic/storage/storage_system.cpp:12-52 | leaves the operation out if and only if the key is not in memory and its live table entry is strictly newer, and then neither log nor memory changes; otherwise it is in the log and in memory, or in neither when the log refuses it; right after a written insertion a `Get` of the key answers its very value, and after a written removal nothing; a settled system stays settled, and one that was torn becomes settled exactly when the entry covers the tail |
| StorageSystems.RequestsKeep | src/stewkk/db/logic/storage/storage_system.cpp:12-52 | any number of requests leaves tables, list, older logs, buffer references and all but the writable buffer alone, and the writable buffer never loses a key |
| StorageSystems.WrittenIsRead | src/stewkk/db/logic/storage/storage_system.cpp:12-72 | a write changes what a `Get` of its own key answers, to its value or to nothing found, and of no other key |
| StorageSystems.InterruptedLoads | src/stewkk/db/logic/recovery/wal_reader.cpp:37-48 | a crash inside an operation, with a torn entry in a log and anything in the files of unlisted tables and in the new list, leaves files in which a restart finds the engine's tables and logs as before the operation |
| StorageSystems.TrackedTogether | src/stewkk/db/logic/controllers/controller.cpp:43-70 | the disk histories of two runs, the second going on from the end of the first, are together a history of the joined run |
| Controllers.Controller.SwapLog | src/stewkk/db/logic/controllers/controller.cpp:44-49 | on success a new log is current and the callback names the old one; on failure nothing has happened |
| Controllers.Controller.Collect | src/stewkk/db/logic/controllers/controller.cpp:51 | the entries stand for the second buffer, and the engine has switched its writer |
| Controllers.Controller.Persist | src/stewkk/db/logic/controllers/controller.cpp:53-57 | the new unlisted table stands for the collected buffer; the attempt ends exactly on a file fault or when that map cannot be stored; every disk state on the way decodes to the tables and logs of the engine before |
| Controllers.Controller.Add | src/stewkk/db/logic/controllers/controller.cpp:59-63 | the table is in the list on disk and in memory, or the attempt ends with neither |
| Controllers.Controller.RemoveCollected | src/stewkk/db/logic/controllers/controller.cpp:65 | the collected buffer leaves the readers only now, and the engine has taken exactly these two steps |
| Controllers.Controller.RemoveOldLog | src/stewkk/db/logic/controllers/controller.cpp:67 | the log removed is the newest old one; a silent failure keeps it |
| Controllers.Controller.Compact | src/stewkk/db/logic/controllers/controller.cpp:69 | exactly when there are more than five tables, no file fails and their map can be stored, one table with that map replaces them, and otherwise they stay; with at most 200 million keys every disk state on the way decodes to the engine after its merge, rename or so many deletions, in that order, and the system stays settled |
| Controllers.Controller.SwapToPersistentStorage | src/stewkk/db/logic/controllers/controller.cpp:43-70 | with any file operation failing and any requests in between, it is a run of the engine in which just those requests were asked: the one map afterwards is the one before with those of them applied that were written; the tables gain the collected buffer exactly when it can be stored and no fault stands in the way, and more than five become one with their map under the same conditions; the job gives up exactly when one of the two fails; the old log goes exactly with a listed buffer whose removal does not fail; a settled system with at most 200 million keys stays settled, and every disk state on the way decodes to the tables and logs of the engine at its point of that run, points in order and no logged write skipped |
| Controllers.Controller.TriggerSwapToPersistentStorage | src/stewkk/db/logic/controllers/controller.cpp:30-41 | does nothing below five keys or while a swap is under way, and otherwise serves the requests that come first and swaps with the outcome above; those requests cannot make its buffer too small |
| Startup.GetMaxVersion | src/stewkk/db/logic/recovery/wal_reader.cpp:19-21 | the greatest version of a non-empty list |
| Startup.LoggedIsStorable | src/stewkk/db/logic/recovery/wal_reader.cpp:136-148 | a memory table replayed from operations the log accepted can be made a table unless its data file is too long for an offset |
| Startup.RecoverLarge | src/stewkk/db/logic/recovery/wal_reader.cpp:136-148 | succeeds exactly when no file fails and the map can be stored; lists a table with the log's effect before it removes the log; every disk state on the way has done neither, the first, or both, unless the map has more than 200 million keys |
| Startup.RecoverFile | src/stewkk/db/logic/recovery/wal_reader.cpp:127-158 | a log that replays to more keys than the threshold becomes the newest table and its file goes; one with at most so many becomes the memory table, tables and files stay, and the writer goes on where its complete entries end; fails exactly on a fault of the one or the other, or if the map cannot be stored |
| Startup.InitializeStorages | src/stewkk/db/logic/recovery/wal_reader.cpp:112-168 | each log with more keys than the threshold is a table, in directory order after the old ones, and its file is gone; all other files are as they were; the last of the others is the memory table and its file goes on being written, and exactly without one there is a new empty file; the counter is one above every logged version; when nothing fails it is undefined exactly if some log has no operation; whatever fails, each disk state of the loop has the first few large logs as tables and the same or one fewer of their files removed, unless a log has more than 200 million keys |
| Restarts.StageKeepsMap | src/stewkk/db/logic/recovery/wal_reader.cpp:136-148 | a crash at any such state, also between listing a table and removing its log, leaves files with the same map, and running recovery again on them in a safe order rebuilds it |
| Restarts.InterruptedStage | src/stewkk/db/logic/recovery/wal_reader.cpp:136-148 | a crash in the middle of writing a table's files during a start is at the same stage as before, so the two facts above hold of it |
| Restarts.RestartOf | src/stewkk/db/logic/recovery/wal_reader.cpp:112-168 | a start that meets no empty log is the engine's restart step and keeps the map of an engine whose files were right |
| Restarts.Start | src/stewkk/db/logic/recovery/wal_reader.cpp:112-168 | the objects of the new process form the engine after that step and answer from the map of the stopped one, and there is no such process when a log is empty; generated versions go on above every logged one; with at most 200 million keys every disk state of the loop, whatever fails in it, still holds that map, a further start would find the new engine, and the new system is settled when no log file had a tail |
| Restarts.FirstStart | src/stewkk/db/logic/recovery/wal_reader.cpp:112-168 | a start on a directory without logs gives a settled system that answers from the tables alone |
| Restarts.CrashAnywhere | src/stewkk/db/logic/controllers/controller.cpp:43-70 | for any tracked run, each disk state and each state torn by an unfinished operation after it has a point of the run, points never going back and missing no step that changes the files; the bytes decode to the tables and logs of the engine at that point, and, unless a log was removed too early, to the map with exactly the writes carried out up to there |
| Restarts.CrashAndStart | src/stewkk/db/logic/recovery/wal_reader.cpp:112-168 | the program started on the files of such a crash, met in a safe order, answers from the map with exactly those writes; when nothing fails it does start unless some log is empty |
| Restarts.StopIsStopped | src/stewkk/db/logic/recovery/wal_reader.cpp:25-71 | the files of an engine are those that a start takes for it, if and only if the bytes after what its logs hold decode to nothing |
| Restarts.ReadIsLogged | src/stewkk/db/logic/recovery/wal_reader.cpp:25-71 | what is read from the log files is what the engine has logged, if and only if the bytes after what each log holds decode to nothing |
| Restarts.StopAndStart | src/stewkk/db/logic/recovery/wal_reader.cpp:112-168 | stopping a running system whose files decode to its engine, as those of every settled one do, and starting the program on them gives a system with the same map; if it was settled, so is the new one, and the cycle can go on |
| EmptyLog.EmptyAfterStep | src/stewkk/db/logic/recovery/swappable_wal_writer.cpp:63-80 | the current log is empty after a step if and only if the step swapped it, or recovered with the newest log large, or it was empty and the step was no write and no restart |
| EmptyLog.EmptyExactly | src/stewkk/db/logic/recovery/wal_reader.cpp:19-21 | in a process that is not restarted the current log is empty if and only if nothing was written since its last swap, and then no order of the logs allows a start |
| EmptyLog.StopsThatCannotStart | src/stewkk/db/logic/recovery/wal_reader.cpp:19-21 | an engine stopped before its first write, and a run stopped right after a log swap, that cannot be started again although the second one's files hold its writes |
| Election.Process.Handle | src/stewkk/db/logic/coordination/zookeeper.cpp:47-152 | the callbacks, as they change the globals in place, do what the state machine's client does for the same event |
| Election.Process.TryBecomeMasterCompletion | src/stewkk/db/logic/coordination/zookeeper.cpp:124-143 | a create that succeeds sets the master flag and sends nothing; after a lost answer, a timeout or an existing node one check is sent, and nothing else changes |
| Election.Process.CheckMasterCompletion | src/stewkk/db/logic/coordination/zookeeper.cpp:80-104 | a lost check is sent again, a missing node is answered with a create, and an existing one with nothing |
| Election.Process.CheckMasterWatch | src/stewkk/db/logic/coordination/zookeeper.cpp:106-114 | the deletion of /master is answered with one create |
| Election.Process.SessionWatcher | src/stewkk/db/logic/coordination/zookeeper.cpp:47-76 | a reconnect stands for election only after an expiry; an expiry clears the master flag and drops the old handle with its requests and events; nothing else changes |
| Election.StepKeepsInv | src/stewkk/db/logic/coordination/zookeeper.cpp:80-152 | the election's invariant holds at each step of servers, sessions, watches and callbacks |
| Election.AtMostOneMaster | src/stewkk/db/logic/coordination/zookeeper.cpp:124-152 | in every run a node with the master flag and a live session owns /master, so no two do, and no node is both master and expired |
| Election.NoForgottenCandidate | src/stewkk/db/logic/coordination/zookeeper.cpp:80-152 | in every run each node with a live session is master, or has a request pending, or an event under way that stirs it, or watches /master |
| Election.CanTakeOver | src/stewkk/db/logic/coordination/zookeeper.cpp:80-152 | whenever /master has no owner, any node with a live session has a run of its own callbacks and answered requests after which it owns /master and knows it |
| Election.UnawareExact | src/stewkk/db/logic/coordination/zookeeper.cpp:124-143 | after any step the owner of /master is unaware of it if and only if that step made it the owner and lost the answer, or it was unaware before and its session has not ended |
| Election.OwnerIsUnawareExactly | src/stewkk/db/logic/coordination/zookeeper.cpp:80-152 | in every run, whenever /master has an owner, that owner is unaware if and only if the answer to the create that made it the owner was lost |
| Election.LostAnswerLeavesNoMaster | src/stewkk/db/logic/coordination/zookeeper.cpp:124-129 | a run in which the answer to a successful create is lost: the owner is unaware, no node is master, and nothing more will happen by itself |
| Versions.GeneratedVersionsIncrease | src/stewkk/db/logic/coordination/global_versioning.cpp:7-19 | in every interleaving the counter never decreases, generated versions strictly increase, and each is at least every version whose update had returned |
| Versions.GeneratesAreConsecutive | src/stewkk/db/logic/coordination/global_versioning.cpp:7 | n generations in a row hand out the next n numbers, each one above the last |
| Versions.StepIsMonotone | src/stewkk/db/logic/coordination/global_versioning.cpp:9-19 | a swap that fails without being spurious has been overtaken, so the distance the loop has left has shrunk |
| Versions.NextRepeatsExactly | src/stewkk/db/logic/coordination/global_versioning.cpp:7-19 | in every interleaving, after the update of a version has returned, the next generated version is that same one if and only if the last change of the counter was a swap that stored it, and above it otherwise |
| Versions.UndisturbedUpdate | src/stewkk/db/logic/coordination/global_versioning.cpp:9-19 | when nobody else raises the counter during an update, the next generated version is strictly above the updated one if and only if the counter was before the update began, and is that very version otherwise |
| Versions.UpdateThenGenerateCanRepeat | src/stewkk/db/logic/coordination/global_versioning.cpp:15-16 | a run in which the updated version itself is generated next |
| Versions.VersionNumberGenerator.UpdateMaxVersion | src/stewkk/db/logic/coordination/global_versioning.cpp:9-19 | whatever other threads generate and however often the swap fails spuriously, the call is a run of the interleaving model that ends with the call returned and this counter: at least the given version, never lowered, and without interference exactly the larger of the two |
| Versions.VersionNumberGenerator.Generate | src/stewkk/db/logic/coordination/global_versioning.cpp:7 | returns the counter and raises it by one, as the model's step does from any state with this counter |

## Left out

- gRPC handlers, middleware, the Python client, logging, flags: plumbing around the engine.
- Replica fan-out, retries and read repair, and convergence of replicas by version: network behaviour.
- Service discovery under /nodes: the same retry pattern as the election, with no safety claim.
- Election.NoForgottenCandidate: only the result codes OK, node-exists, no-node, connection-loss and timeout are modelled; on any other code the program gives up, and a check that succeeds always carries a stat.
- Compaction.MergeEntries: the library's heap is modelled as a bag from which a top is selected, so the array layout of the heap is not captured; a read error in the middle of a merge, where the comparator answers false, is not modelled.
- Tables.NewPersistentStorage: the library's sort is a function with a proved result, and the offsets of a file are counted rather than asked from a stream; a failing write of bytes is not modelled.
- Wire.FieldsRoundTrip: groups and the packed form of repeated numbers, which this program never writes, are treated as malformed or skipped.
- LogWriter.WALWriterImpl.WriteEntry: an entry is refused only for its size; errors of the stream or of its flush, which the program does not look at, are not modelled, and a partial write is a crash (`Log.TornLog`), not a failed request.
- Startup.InitializeStorages: what happens after the maximum of an empty list has been dereferenced is not modelled, the start ends there as undefined; versions are unbounded numbers.
- Restarts.Start: after a torn log has been resumed, the class invariant speaks about the part of the file up to the writer's position; what the rest of the old tail may add to the next read is stated by Log.ResumeExact, and the system is settled again once a write has covered the tail (StorageSystems.StorageSystem.Write).
- Collection.MetadataRoundTrip: the list of file names, which also keeps the names of deleted tables, is taken to fit in a message; it would reach 2 GB only after millions of swaps.
- Controllers.Controller.SwapToPersistentStorage: requests of other threads happen between its statements, not inside one of them; the engine's state machine and the reads cover the steps within Collect, Add, RemoveCollected and compaction.
- Versions.VersionNumberGenerator.Generate: does not model the wrap-around of 64 bits.
- Crashes inside the rewriting of a metadata file, ordering of flushes to the device, exceptions thrown by rename and remove, file descriptor lifetimes, executors and strands, and the C++ memory model.
- Reference counters are values in a state machine in reclaim.dfy, not heap objects; spinning is a step that is enabled when the count is zero.
