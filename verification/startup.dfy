/** What a start of the program makes of the log files it finds, with every point at which it may crash. */
module Startup {
  import opened Wrappers
  import opened Kv
  import opened Wire
  import opened Disks
  import opened Tables
  import opened Compaction
  import opened Memtable
  import opened LogWriter
  import opened Recovery
  import opened Collection
  import opened Versions
  import Log

  // ---------------------------------------------------------------- the newest version

  /** The greatest version in a list of operations, or 0. */
  ghost predicate IsMaxVersion(ops: seq<Operation>, v: nat) {
    && (forall i :: 0 <= i < |ops| ==> ops[i].version <= v)
    && (v == 0 || exists i :: 0 <= i < |ops| && ops[i].version == v)
  }

  /** `GetMaxVersion`: it dereferences the position of the maximum, so the list must not be empty. */
  method GetMaxVersion(ops: seq<Operation>) returns (v: uint64)
    requires ops != []
    ensures IsMaxVersion(ops, v)
  {
    v := ops[0].version;
    var k := 1;
    while k < |ops|
      invariant 1 <= k <= |ops|
      invariant forall i :: 0 <= i < k ==> ops[i].version <= v
      invariant exists i :: 0 <= i < k && ops[i].version == v
    {
      if v < ops[k].version {
        v := ops[k].version;
      }
      k := k + 1;
    }
  }

  lemma MaxOfBoth(a: seq<Operation>, b: seq<Operation>, v: nat, w: nat)
    requires IsMaxVersion(a, v) && IsMaxVersion(b, w)
    ensures IsMaxVersion(a + b, if v < w then w else v)
  {
    var m := if v < w then w else v;
    if m != 0 {
      if v < w {
        var i :| 0 <= i < |b| && b[i].version == w;
        assert (a + b)[|a| + i].version == m;
      } else {
        var i :| 0 <= i < |a| && a[i].version == v;
        assert (a + b)[i].version == m;
      }
    }
  }

  // ---------------------------------------------------------------- what the files are at each point

  /** The large logs among the first `k` visited. */
  function Gone(dir: seq<nat>, visited: seq<seq<Operation>>, threshold: nat, k: nat): set<nat>
    requires k <= |dir| == |visited|
  {
    if k == 0 then
      {}
    else
      Gone(dir, visited, threshold, k - 1) + (if IsLarge(visited[k - 1], threshold) then {dir[k - 1]} else {})
  }

  /** The directory as a start finds it. */
  datatype Found = Found(tables: seq<Memory>, logs: map<nat, Bytes>, dir: seq<nat>, threshold: nat) {
    ghost predicate Valid() {
      IsListing(logs, dir)
    }

    ghost function Visited(): (r: seq<seq<Operation>>)
      requires Valid()
      ensures |r| == |dir|
    {
      Decoded(logs, dir)
    }
  }

  /** Every log becomes a table whose index fits in a message. */
  ghost predicate FewKeys(found: Found)
    requires found.Valid()
  {
    forall i :: 0 <= i < |found.dir| ==> |Effect(found.Visited()[i])| <= MANY_KEYS
  }

  /** The tables of the first `added` visited logs are listed and the first `removed` log files are dealt with. */
  ghost predicate AtStage(files: Files, found: Found, added: nat, removed: nat)
    requires found.Valid()
  {
    && removed <= added <= |found.dir| && added <= removed + 1
    && AllWellFormed(Reload(files))
    && Views(Reload(files)) == found.tables + Effects(Larges(found.Visited()[..added], found.threshold))
    && LogFiles(files) == found.logs - Gone(found.dir, found.Visited(), found.threshold, removed)
  }

  ghost predicate SomeStage(files: Files, found: Found)
    requires found.Valid()
  {
    exists added: nat, removed: nat :: AtStage(files, found, added, removed)
  }

  /** Every state of the disk from number `from` on is at some stage. */
  ghost predicate Staged(history: seq<Files>, from: nat, found: Found)
    requires found.Valid()
  {
    forall i :: from <= i < |history| ==> SomeStage(history[i], found)
  }

  // ---------------------------------------------------------------- the loop

  /**
   How a start ends. It is undefined when it meets a log without operations, whose greatest version it reads
   all the same; nothing is modelled after that.
   */
  datatype Outcome = Ready | Failed | Undefined

  /** Which operations on the files of one log fail. */
  function NoFault(): Faults {
    Faults(false, false, false, false, false, false)
  }

  datatype Faults = Faults(read: bool, data: bool, index: bool, open: bool, add: bool, load: bool)

  // ---------------------------------------------------------------- what was logged can be stored

  lemma SameSize(op: Operation)
    ensures |EncodeFields(EntryFields(EntryFor(op)))| == |EncodeFields(Log.InnerFields(op))|
  {
    var a, b := EntryFields(EntryFor(op)), Log.InnerFields(op);
    if op.Remove? {
      assert a[1..] == [Number(3, op.version)] && b[1..] == [Number(2, op.version)];
      assert a[1..][1..] == [] && b[1..][1..] == [];
    } else {
      assert a == b;
    }
  }

  function EntryFor(op: Operation): StorageEntry {
    StorageEntry(op.key, op.Binding().value, op.Binding().version)
  }

  /** An operation that fits in a log entry fits in a table entry, which has one field less around it. */
  lemma LoggedFits(op: Operation)
    requires Log.Fits(op)
    ensures Tables.Fits(EntryFor(op))
  {
    FieldsLength([Blob(if op.Remove? then 1 else 2, EncodeFields(Log.InnerFields(op)))], 0);
    SameSize(op);
  }

  lemma {:induction false} BindingIsLogged(ops: seq<Operation>, key: Bytes)
    requires key in Effect(ops)
    ensures exists i :: 0 <= i < |ops| && ops[i].key == key && ops[i].Binding() == Effect(ops)[key]
  {
    var n := |ops| - 1;
    if ops[n].key != key {
      BindingIsLogged(ops[..n], key);
      var i :| 0 <= i < n && ops[..n][i].key == key && ops[..n][i].Binding() == Effect(ops[..n])[key];
      assert ops[i].key == key && ops[i].Binding() == Effect(ops)[key];
    }
  }

  /** A memory table that came from the log can be stored unless its data file would be too long for an offset. */
  lemma LoggedIsStorable(ops: seq<Operation>, es: seq<StorageEntry>)
    requires Log.AllFit(ops) && DistinctKeys(es) && MemoryOf(es) == Effect(ops)
    ensures Buildable(Sort(es)) <==> |EncodeEntries(Sort(es))| < MAX_FILE
  {
    SortIsSorted(es);
    hide EncodeEntries, Tables.Fits, Log.Fits, Effect, Sort;
    forall i | 0 <= i < |Sort(es)|
      ensures Tables.Fits(Sort(es)[i])
    {
      var e := Sort(es)[i];
      assert e in es;
      var j :| 0 <= j < |es| && es[j] == e;
      MemoryOfAt(es, j);
      BindingIsLogged(ops, e.key);
      var k :| 0 <= k < |ops| && ops[k].key == e.key && ops[k].Binding() == Effect(ops)[e.key];
      LoggedFits(ops[k]);
    }
  }

  /** From the state with these tables and logs: nothing yet, the table listed, or the log removed as well. */
  ghost predicate Halfway(h: Files, tables: seq<Memory>, memory: Memory, logs: map<nat, Bytes>, number: nat) {
    && AllWellFormed(Reload(h))
    && (|| (Views(Reload(h)) == tables && LogFiles(h) == logs)
        || (Views(Reload(h)) == tables + [memory] && LogFiles(h) == logs)
        || (Views(Reload(h)) == tables + [memory] && LogFiles(h) == logs - {number}))
  }

  lemma NotHalfway(h: Files, files: Files, tables: seq<Table>, memory: Memory, number: nat)
    requires SameTables(h, files) && LogFiles(h) == LogFiles(files) && AllWellFormed(tables) && Reload(files) == tables
    ensures Halfway(h, Views(tables), memory, LogFiles(files), number)
  {
    hide ListedNames, Reload, LogFiles, Views, AllWellFormed;
  }

  lemma ListedHalfway(h: Files, tables: seq<Table>, table: Table, logs: map<nat, Bytes>, number: nat)
    requires Reload(h) == tables + [table] && AllWellFormed(tables) && table.WellFormed()
    requires LogFiles(h) == logs || LogFiles(h) == logs - {number}
    ensures Halfway(h, Views(tables), table.View(), logs, number)
  {
    hide Reload, LogFiles, Table.View, Table.WellFormed;
    assert AllWellFormed(Reload(h)) && Views(Reload(h)) == Views(tables) + [table.View()];
  }

  /** A large log becomes a table; then its file is removed. */
  method RecoverLarge(c: PersistentStorageCollection, number: nat, memory: Memory, name: Bytes, faults: Faults)
    returns (ok: bool)
    requires c.Valid() && ShortName(name) && name !in ListedNames(c.disk.files)
    modifies c, c.disk
    ensures c.Valid() && old(c.disk.history) <= c.disk.history
    ensures ok <==> !faults.data && !faults.index && !faults.open && !faults.add && Storable(memory)
    ensures Views(c.collection) == old(Views(c.collection)) + if ok then [memory] else []
    ensures LogFiles(c.disk.files) == old(LogFiles(c.disk.files)) - if ok then {number} else {}
    ensures ListedNames(c.disk.files) == old(ListedNames(c.disk.files)) + if ok then [name] else []
    ensures old(c.Reloads()) && |memory| <= MANY_KEYS ==>
              && c.Reloads()
              && forall i :: |old(c.disk.history)| <= i < |c.disk.history| ==>
                   Halfway(c.disk.history[i], old(Views(c.collection)), memory, old(LogFiles(c.disk.files)), number)
  {
    hide ListedNames, Reload, LoadTable, LogFiles, StrictlySorted, MemoryOf, Sort, Buildable, ReadEntryAt, TableOf;
    hide DistinctKeys, GoodNames, IndexFile, IndexFits, DecodeIndex, SavedAs, Table.Saved, Halfway, Storable;
    hide Table.View, Table.WellFormed;
    ghost var files, from, tables := c.disk.files, |c.disk.history|, c.collection;
    var entries := ToEntries(memory);
    var table := CreateTable(c.disk, name, entries, faults.data, faults.index, faults.open);
    StorableExact(memory, entries);
    if c.Reloads() {
      forall i | from <= i < |c.disk.history|
        ensures Halfway(c.disk.history[i], Views(tables), memory, LogFiles(files), number)
      {
        NotHalfway(c.disk.history[i], files, tables, memory, number);
      }
    }
    if table.Err? {
      return false;
    }
    NewTable(name, entries);
    ghost var settled := c.Reloads() && |memory| <= MANY_KEYS;
    ok := c.Add(table.value, faults.add);
    if !ok {
      return;
    }
    assert Views(c.collection) == Views(tables) + [memory];
    ghost var listed := c.disk.files;
    LogFilesDelete(listed, LogFile(number));
    LogsAreNotTables(listed, listed - {LogFile(number)});
    c.disk.Delete(LogFile(number));
    if settled {
      ListedHalfway(listed, tables, table.value, LogFiles(files), number);
      ListedHalfway(c.disk.files, tables, table.value, LogFiles(files), number);
    }
  }

  lemma NextVisited(visited: seq<seq<Operation>>, k: nat, threshold: nat)
    requires k < |visited|
    ensures visited[..k + 1] == visited[..k] + [visited[k]]
    ensures Larges(visited[..k + 1], threshold) ==
            Larges(visited[..k], threshold) + if IsLarge(visited[k], threshold) then [visited[k]] else []
    ensures Effects(Larges(visited[..k + 1], threshold)) ==
            Effects(Larges(visited[..k], threshold))
            + if IsLarge(visited[k], threshold) then [Effect(visited[k])] else []
    ensures LastSmall(visited[..k + 1], threshold) ==
            if IsLarge(visited[k], threshold) then LastSmall(visited[..k], threshold) else Some(visited[k])
    ensures LastSmall(visited[..k + 1], threshold).Some? ==>
              KeptAt(visited[..k + 1], threshold) ==
              if IsLarge(visited[k], threshold) then KeptAt(visited[..k], threshold) else k
    ensures Concat(visited[..k + 1]) == Concat(visited[..k]) + visited[k]
  {
    assert visited[..k + 1][..k] == visited[..k];
    hide IsLarge, Effect;
  }

  lemma NextStage(found: Found, k: nat)
    requires found.Valid() && k < |found.dir| && IsLarge(found.Visited()[k], found.threshold)
    ensures found.tables + Effects(Larges(found.Visited()[..k + 1], found.threshold)) ==
            found.tables + Effects(Larges(found.Visited()[..k], found.threshold)) + [Effect(found.Visited()[k])]
    ensures found.logs - Gone(found.dir, found.Visited(), found.threshold, k + 1) ==
            found.logs - Gone(found.dir, found.Visited(), found.threshold, k) - {found.dir[k]}
  {
    var visited := found.Visited();
    NextVisited(visited, k, found.threshold);
    hide Larges, Effects, Effect, IsLarge, Found.Visited;
    ConcatIsAssociative(found.tables, Effects(Larges(visited[..k], found.threshold)), [Effect(visited[k])]);
  }

  lemma HalfwayIsStage(found: Found, k: nat, h: Files, tables: seq<Memory>, logs: map<nat, Bytes>)
    requires found.Valid() && k < |found.dir| && IsLarge(found.Visited()[k], found.threshold)
    requires tables == found.tables + Effects(Larges(found.Visited()[..k], found.threshold))
    requires logs == found.logs - Gone(found.dir, found.Visited(), found.threshold, k)
    requires Halfway(h, tables, Effect(found.Visited()[k]), logs, found.dir[k])
    ensures SomeStage(h, found)
  {
    NextStage(found, k);
    hide Larges, Effects, Gone, Reload, LogFiles, StrictlySorted, ReadEntryAt, IsLarge, Effect, Found.Visited,
         Found.Valid;
    hide Views, AllWellFormed;
    if Views(Reload(h)) == tables && LogFiles(h) == logs {
      assert AtStage(h, found, k, k);
    } else if LogFiles(h) == logs {
      assert AtStage(h, found, k + 1, k);
    } else {
      assert AtStage(h, found, k + 1, k + 1);
    }
  }

  /** The states that one large log goes through are all at some stage. */
  lemma LargeIsStaged(found: Found, k: nat, history: seq<Files>, from: nat, tables: seq<Memory>, logs: map<nat, Bytes>)
    requires found.Valid() && k < |found.dir| && IsLarge(found.Visited()[k], found.threshold)
    requires tables == found.tables + Effects(Larges(found.Visited()[..k], found.threshold))
    requires logs == found.logs - Gone(found.dir, found.Visited(), found.threshold, k)
    requires forall i :: from <= i < |history| ==>
               Halfway(history[i], tables, Effect(found.Visited()[k]), logs, found.dir[k])
    ensures Staged(history, from, found)
  {
    hide AtStage, SomeStage, Found.Valid, Halfway, Larges, Effects, Gone, Effect, IsLarge;
    forall i | from <= i < |history|
      ensures SomeStage(history[i], found)
    {
      HalfwayIsStage(found, k, history[i], tables, logs);
    }
  }

  /** A small log is never removed. */
  lemma {:induction false} SmallStays(found: Found, j: nat, k: nat)
    requires found.Valid() && j < |found.dir| && k <= |found.dir|
    requires !IsLarge(found.Visited()[j], found.threshold)
    ensures found.dir[j] !in Gone(found.dir, found.Visited(), found.threshold, k)
  {
    hide IsLarge, Found.Visited;
    if k > 0 {
      SmallStays(found, j, k - 1);
    }
  }

  /** The memory table of the last small log among the first `k`, or an empty one. */
  ghost function Remembered(found: Found, k: nat): Memory
    requires found.Valid() && k <= |found.dir|
  {
    var small := LastSmall(found.Visited()[..k], found.threshold);
    if small.Some? then Effect(small.value) else map[]
  }

  /** The writer continues the last small log among the first `k`, where its complete entries end. */
  ghost predicate Continues(found: Found, k: nat, writer: WALWriterImpl?)
    requires found.Valid() && k <= |found.dir|
    reads writer
  {
    var small := LastSmall(found.Visited()[..k], found.threshold);
    && (writer == null <==> small.None?)
    && (writer != null ==>
          && writer.number == found.dir[KeptAt(found.Visited()[..k], found.threshold)]
          && writer.number !in Gone(found.dir, found.Visited(), found.threshold, |found.dir|)
          && Log.DecodeLog(found.logs[writer.number]) == Log.Contents(small.value, writer.pos))
  }

  /** Everything that is known after the first `k` files. */
  ghost predicate Recovering(found: Found, k: nat, c: PersistentStorageCollection, storage: SwappableMemoryStorage,
                             writer: WALWriterImpl?, maxVersion: nat)
    requires found.Valid() && k <= |found.dir|
    reads c, c.disk, storage, storage.readerFirst, storage.readerSecond, storage.writer, writer
  {
    && c.Valid() && storage.Valid()
    && Views(c.collection) == found.tables + Effects(Larges(found.Visited()[..k], found.threshold))
    && LogFiles(c.disk.files) == found.logs - Gone(found.dir, found.Visited(), found.threshold, k)
    && storage.view == InitialBuffers(Remembered(found, k))
    && (FewKeys(found) ==> c.Reloads())
    && Continues(found, k, writer) && (writer != null ==> writer.disk == c.disk)
    && IsMaxVersion(Concat(found.Visited()[..k]), maxVersion)
  }

  lemma {:induction false} NotGoneYet(found: Found, j: nat, k: nat)
    requires found.Valid() && k <= j < |found.dir|
    ensures found.dir[j] !in Gone(found.dir, found.Visited(), found.threshold, k)
  {
    hide IsLarge, Found.Visited;
    if k > 0 {
      NotGoneYet(found, j, k - 1);
    }
  }

  lemma LargeRecovered(found: Found, k: nat)
    requires found.Valid() && k < |found.dir| && IsLarge(found.Visited()[k], found.threshold)
    ensures Remembered(found, k + 1) == Remembered(found, k)
    ensures forall writer: WALWriterImpl? :: Continues(found, k, writer) ==> Continues(found, k + 1, writer)
  {
    NextVisited(found.Visited(), k, found.threshold);
    hide IsLarge, Found.Visited, Larges, Effects, LastSmall, Concat, Gone;
  }

  lemma SmallRecovered(found: Found, k: nat, writer: WALWriterImpl)
    requires found.Valid() && k < |found.dir| && !IsLarge(found.Visited()[k], found.threshold)
    requires writer.number == found.dir[k] && writer.pos == Log.DecodeLog(found.logs[found.dir[k]]).valid
    ensures Remembered(found, k + 1) == Effect(found.Visited()[k])
    ensures Continues(found, k + 1, writer)
    ensures found.tables + Effects(Larges(found.Visited()[..k + 1], found.threshold)) ==
            found.tables + Effects(Larges(found.Visited()[..k], found.threshold))
    ensures Gone(found.dir, found.Visited(), found.threshold, k + 1) ==
              Gone(found.dir, found.Visited(), found.threshold, k)
  {
    SmallStays(found, k, |found.dir|);
    NextVisited(found.Visited(), k, found.threshold);
    hide IsLarge, Larges, Effects, LastSmall, Concat, Log.DecodeLog, Effect;
    AppendNothing(Effects(Larges(found.Visited()[..k], found.threshold)), []);
  }

  method RecoverLargeFile(ghost found: Found, k: nat, number: nat, memory: Memory, name: Bytes, faults: Faults,
                          c: PersistentStorageCollection, storage: SwappableMemoryStorage, writer: WALWriterImpl?,
                          ghost maxVersion: nat, ghost newMax: nat)
    returns (ok: bool)
    requires found.Valid() && k < |found.dir| && number == found.dir[k]
    requires IsLarge(found.Visited()[k], found.threshold) && memory == Effect(found.Visited()[k])
    requires Recovering(found, k, c, storage, writer, maxVersion)
    requires IsMaxVersion(Concat(found.Visited()[..k + 1]), newMax)
    requires ShortName(name) && name !in ListedNames(c.disk.files)
    modifies c, c.disk
    ensures old(c.disk.history) <= c.disk.history
    ensures FewKeys(found) ==> Staged(c.disk.history, |old(c.disk.history)|, found)
    ensures ok ==> Recovering(found, k + 1, c, storage, writer, newMax)
    ensures ok ==> Views(c.collection) == old(Views(c.collection)) + [memory]
    ensures ok ==> LogFiles(c.disk.files) == old(LogFiles(c.disk.files)) - {number}
    ensures ok <==> !faults.data && !faults.index && !faults.open && !faults.add && Storable(memory)
    ensures ListedNames(c.disk.files) == old(ListedNames(c.disk.files)) + if ok then [name] else []
  {
    hide ListedNames, Reload, LogFiles, Gone, Larges, Effects, LastSmall, Concat, StrictlySorted, IsMaxVersion;
    hide Log.DecodeLog, Effect, Storable, Staged, InitialBuffers, Halfway, Found.Visited, IsLarge, Remembered,
         Continues;
    hide GoodNames, Views, LoadTable, ReadEntryAt, SwappableMemoryStorage.Valid;
    NextStage(found, k);
    LargeRecovered(found, k);
    ok := RecoverLarge(c, number, memory, name, faults);
    if FewKeys(found) {
      LargeIsStaged(found, k, c.disk.history, |old(c.disk.history)|, old(Views(c.collection)),
                    old(LogFiles(c.disk.files)));
    }
  }

  method RecoverSmallFile(ghost found: Found, k: nat, number: nat, memory: Memory, position: nat, faulty: bool,
                          c: PersistentStorageCollection, ghost storage: SwappableMemoryStorage,
                          ghost writer: WALWriterImpl?, ghost maxVersion: nat, ghost newMax: nat)
    returns (newStorage: SwappableMemoryStorage, newWriter: WALWriterImpl?)
    requires found.Valid() && k < |found.dir| && number == found.dir[k]
    requires !IsLarge(found.Visited()[k], found.threshold) && memory == Effect(found.Visited()[k])
    requires position == Log.DecodeLog(found.logs[number]).valid
    requires Recovering(found, k, c, storage, writer, maxVersion)
    requires IsMaxVersion(Concat(found.Visited()[..k + 1]), newMax)
    ensures newWriter == null <==> faulty
    ensures newWriter != null ==> Recovering(found, k + 1, c, newStorage, newWriter, newMax) && fresh(newWriter)
    ensures newWriter != null ==> newWriter.number == number && newWriter.pos == position
    ensures newStorage.Valid() && newStorage.view.Contents() == memory
    ensures fresh({newStorage, newStorage.readerFirst, newStorage.readerSecond, newStorage.writer})
  {
    hide ListedNames, Reload, LogFiles, Gone, Larges, Effects, LastSmall, Concat, StrictlySorted, IsMaxVersion;
    hide Log.DecodeLog, Effect, InitialBuffers, Found.Visited, IsLarge, Remembered, Continues;
    hide GoodNames, Views, LoadTable, ReadEntryAt;
    NotGoneYet(found, k, k);
    newStorage := new SwappableMemoryStorage(memory);
    InitialContents(memory);
    newWriter := LoadWALWriter(c.disk, number, position, faulty);
    if newWriter != null {
      SmallRecovered(found, k, newWriter);
    }
  }

  lemma FileIsThere(found: Found, k: nat, c: PersistentStorageCollection, storage: SwappableMemoryStorage,
                    writer: WALWriterImpl?, maxVersion: nat)
    requires found.Valid() && k < |found.dir| && Recovering(found, k, c, storage, writer, maxVersion)
    ensures LogFile(found.dir[k]) in c.disk.files && c.disk.files[LogFile(found.dir[k])] == found.logs[found.dir[k]]
    ensures found.Visited()[k] == Log.DecodeLog(found.logs[found.dir[k]]).ops
    ensures c.Valid() && IsMaxVersion(Concat(found.Visited()[..k]), maxVersion)
  {
    hide ListedNames, Reload, LogFiles, Gone, Larges, Effects, LastSmall, Concat, StrictlySorted, IsMaxVersion;
    hide Log.DecodeLog, Views, GoodNames;
    NotGoneYet(found, k, k);
    LogFilesAt(c.disk.files, found.dir[k]);
  }

  /** One file of the loop. */
  method RecoverFile(ghost found: Found, k: nat, number: nat, threshold: nat, name: Bytes, faults: Faults,
                     c: PersistentStorageCollection, storage: SwappableMemoryStorage, writer: WALWriterImpl?,
                     maxVersion: nat)
    returns (outcome: Outcome, newStorage: SwappableMemoryStorage, newWriter: WALWriterImpl?, newMax: nat)
    requires found.Valid() && k < |found.dir| && number == found.dir[k] && threshold == found.threshold
    requires Recovering(found, k, c, storage, writer, maxVersion)
    requires ShortName(name) && name !in ListedNames(c.disk.files)
    modifies c, c.disk
    ensures old(c.disk.history) <= c.disk.history
    ensures FewKeys(found) ==> Staged(c.disk.history, |old(c.disk.history)|, found)
    ensures outcome.Ready? ==> Recovering(found, k + 1, c, newStorage, newWriter, newMax)
    ensures outcome.Ready? ==> found.Visited()[k] != []
    ensures outcome.Undefined? ==> found.Visited()[k] == []
    ensures outcome.Ready? && |Effect(found.Visited()[k])| > threshold ==>
              && Views(c.collection) == old(Views(c.collection)) + [Effect(found.Visited()[k])]
              && LogFiles(c.disk.files) == old(LogFiles(c.disk.files)) - {number}
              && newStorage == storage && newWriter == writer
    ensures outcome.Ready? && |Effect(found.Visited()[k])| <= threshold ==>
              && c.collection == old(c.collection) && c.disk.files == old(c.disk.files)
              && newStorage.Valid() && newStorage.view.Contents() == Effect(found.Visited()[k])
              && newWriter != null && newWriter.number == number
              && newWriter.pos == Log.DecodeLog(found.logs[number]).valid
    ensures outcome.Failed? <==>
              || faults.read
              || (found.Visited()[k] != [] && threshold < |Effect(found.Visited()[k])|
                  && (faults.data || faults.index || faults.open || faults.add
                      || !Storable(Effect(found.Visited()[k]))))
              || (found.Visited()[k] != [] && |Effect(found.Visited()[k])| <= threshold && faults.load)
    ensures ListedNames(c.disk.files) == old(ListedNames(c.disk.files))
            || ListedNames(c.disk.files) == old(ListedNames(c.disk.files)) + [name]
    ensures newStorage != storage ==>
              fresh({newStorage, newStorage.readerFirst, newStorage.readerSecond, newStorage.writer})
    ensures newWriter != writer && newWriter != null ==> fresh(newWriter)
  {
    hide ListedNames, Reload, LogFiles, Gone, Larges, Effects, LastSmall, Concat, IsMaxVersion, Recovering;
    hide Log.DecodeLog, Apply, Storable, SomeStage, Found.Visited, Found.Valid, PersistentStorageCollection.Valid;
    outcome, newStorage, newWriter, newMax := Failed, storage, writer, maxVersion;
    FileIsThere(found, k, c, storage, writer, maxVersion);
    var read := Log.ReadWAL(if faults.read then None else Some(c.disk.files[LogFile(number)]));
    if read.Err? {
      return;
    }
    var ops := read.value.ops;
    if ops == [] {
      outcome := Undefined;
      return;
    }
    var replayed := new MapStorage(0, map[]);
    Replay(ops, replayed);
    var newest := GetMaxVersion(ops);
    MaxOfBoth(Concat(found.Visited()[..k]), ops, maxVersion, newest);
    NextVisited(found.Visited(), k, threshold);
    newMax := if maxVersion < newest then newest else maxVersion;
    if |replayed.contents| > threshold {
      var ok := RecoverLargeFile(found, k, number, replayed.contents, name, faults, c, storage, writer, maxVersion,
                                 newMax);
      outcome := if ok then Ready else Failed;
    } else {
      newStorage, newWriter := RecoverSmallFile(found, k, number, replayed.contents, read.value.valid, faults.load,
                                                c, storage, writer, maxVersion, newMax);
      outcome := if newWriter != null then Ready else Failed;
    }
  }

  lemma RecoveringStarts(found: Found, c: PersistentStorageCollection, storage: SwappableMemoryStorage)
    requires found.Valid() && c.Valid() && c.Reloads() && storage.Valid() && storage.view == InitialBuffers(map[])
    requires Views(c.collection) == found.tables && LogFiles(c.disk.files) == found.logs
    ensures Recovering(found, 0, c, storage, null, 0)
  {
    hide ListedNames, Reload, LogFiles, StrictlySorted, Views, GoodNames;
    assert found.Visited()[..0] == [];
    AppendNothing(found.tables, []);
    assert found.logs - {} == found.logs;
  }

  /** What a start has made of the log files: the tables, the memory table, the log that goes on, and the versions. */
  ghost predicate Initialized(found: Found, newLog: nat, c: PersistentStorageCollection,
                              storage: SwappableMemoryStorage,
                              writer: WALWriterImpl, generator: VersionNumberGenerator)
    requires found.Valid()
    reads c, c.disk, storage, storage.readerFirst, storage.readerSecond, storage.writer, writer, writer.disk, generator
  {
    var n := |found.dir|;
    var left := found.logs - Gone(found.dir, found.Visited(), found.threshold, n);
    && c.Valid() && storage.Valid() && writer.disk == c.disk && writer.Valid()
    && Views(c.collection) == found.tables + Effects(Larges(found.Visited(), found.threshold))
    && (FewKeys(found) ==> c.Reloads())
    && storage.view == InitialBuffers(Remembered(found, n))
    && 1 <= generator.current && IsMaxVersion(Concat(found.Visited()), generator.current - 1)
    && (if LastSmall(found.Visited(), found.threshold).Some? then
          LogFiles(c.disk.files) == left && Continues(found, n, writer)
        else
          LogFiles(c.disk.files) == left[newLog := []] && writer.number == newLog && writer.pos == 0)
  }

  /** After the loop: a new log when there is none to continue, and the version generator. */
  method GoOn(ghost found: Found, newLog: nat, faulty: bool, c: PersistentStorageCollection,
              storage: SwappableMemoryStorage, last: WALWriterImpl?, maxVersion: nat)
    returns (writer: WALWriterImpl?, generator: VersionNumberGenerator)
    requires found.Valid() && Recovering(found, |found.dir|, c, storage, last, maxVersion)
    requires newLog !in found.logs
    modifies c.disk
    ensures old(c.disk.history) <= c.disk.history
    ensures writer == null <==> last == null && faulty
    ensures writer != null ==> Initialized(found, newLog, c, storage, writer, generator)
    ensures writer != null ==> fresh(writer) || writer == last
    ensures fresh(generator)
  {
    hide ListedNames, Reload, LogFiles, OtherFiles, Gone, Larges, Effects, LastSmall, Concat, StrictlySorted;
    hide Log.DecodeLog, Views, GoodNames, Effect, IsMaxVersion, Remembered, Found.Visited, InitialBuffers;
    writer := last;
    assert found.Visited()[..|found.dir|] == found.Visited();
    generator := new VersionNumberGenerator(maxVersion + 1);
    if writer == null {
      writer := NewWALWriter(c.disk, newLog, faulty);
      LogsAreNotTables(c.disk.files, old(c.disk.files));
    } else {
      ContinuedFits(found, writer);
    }
  }

  lemma ContinuedFits(found: Found, writer: WALWriterImpl)
    requires found.Valid() && Continues(found, |found.dir|, writer)
    ensures writer.number in found.logs && writer.pos <= |found.logs[writer.number]|
    ensures writer.number in found.logs - Gone(found.dir, found.Visited(), found.threshold, |found.dir|)
  {
    hide Gone, Larges, LastSmall, Found.Visited;
  }

  /**
   The same by the number of keys of each log. A log with more than `threshold` keys has become a table, in the
   order of the directory, and its file is gone; all other files are as they were. The last log with at most so many
   keys is the memory table, and the writer goes on where its complete entries end; only without one there is a new
   file, in which the writer begins.
   */
  ghost predicate BySize(found: Found, newLog: nat, c: PersistentStorageCollection, storage: SwappableMemoryStorage,
                         writer: WALWriterImpl)
    requires found.Valid()
    reads c, c.disk, storage, storage.readerFirst, storage.readerSecond, storage.writer, writer
  {
    var visited, logs := found.Visited(), LogFiles(c.disk.files);
    && storage.Valid() && AllWellFormed(c.collection)
    && (exists at :: AreLarge(visited, found.threshold, at)
                     && Views(c.collection) ==
                        found.tables + seq(|at|, j requires 0 <= j < |at| => Effect(visited[at[j]])))
    && (forall i :: 0 <= i < |found.dir| ==>
          if found.threshold < |Effect(visited[i])| then
            found.dir[i] !in logs
          else
            found.dir[i] in logs && logs[found.dir[i]] == found.logs[found.dir[i]])
    && (forall n :: n in logs ==> n in found.logs || n == newLog)
    && (newLog in logs <==> forall i :: 0 <= i < |visited| ==> found.threshold < |Effect(visited[i])|)
    && (forall i: nat :: IsLastSmall(visited, found.threshold, i) ==>
          && storage.view.Contents() == storage.view.buf[storage.view.writer] == Effect(visited[i])
          && writer.number == found.dir[i] && writer.pos == Log.DecodeLog(found.logs[found.dir[i]]).valid)
    && ((forall i :: 0 <= i < |visited| ==> found.threshold < |Effect(visited[i])|) ==>
          && storage.view.Contents() == map[] && writer.number == newLog && writer.pos == 0
          && newLog in logs && logs[newLog] == [])
  }

  lemma {:induction false} LargeGoes(dir: seq<nat>, visited: seq<seq<Operation>>, threshold: nat, j: nat, k: nat)
    requires j < k <= |dir| == |visited| && IsLarge(visited[j], threshold)
    ensures dir[j] in Gone(dir, visited, threshold, k)
  {
    hide IsLarge;
    if j < k - 1 {
      LargeGoes(dir, visited, threshold, j, k - 1);
    }
  }

  /** Which log files are gone at the end. */
  lemma GoneExact(found: Found, i: nat)
    requires found.Valid() && i < |found.dir|
    ensures found.dir[i] in Gone(found.dir, found.Visited(), found.threshold, |found.dir|)
       <==> found.threshold < |Effect(found.Visited()[i])|
  {
    if IsLarge(found.Visited()[i], found.threshold) {
      LargeGoes(found.dir, found.Visited(), found.threshold, i, |found.dir|);
    } else {
      SmallStays(found, i, |found.dir|);
    }
  }

  lemma TablesBySize(found: Found) returns (at: seq<nat>)
    requires found.Valid()
    ensures AreLarge(found.Visited(), found.threshold, at)
    ensures Effects(Larges(found.Visited(), found.threshold)) ==
            seq(|at|, j requires 0 <= j < |at| => Effect(found.Visited()[at[j]]))
  {
    at := LargesExact(found.Visited(), found.threshold);
    hide Effect, Larges, Found.Visited;
    assert forall j :: 0 <= j < |at| ==> Effects(Larges(found.Visited(), found.threshold))[j]
                                         == Effect(found.Visited()[at[j]]);
  }

  lemma FilesBySize(found: Found, newLog: nat, files: map<nat, Bytes>)
    requires found.Valid() && newLog !in found.logs
    requires var left := found.logs - Gone(found.dir, found.Visited(), found.threshold, |found.dir|);
             files == left || files == left[newLog := []]
    ensures forall i :: 0 <= i < |found.dir| ==>
              if found.threshold < |Effect(found.Visited()[i])| then
                found.dir[i] !in files
              else
                found.dir[i] in files && files[found.dir[i]] == found.logs[found.dir[i]]
    ensures forall n :: n in files ==> n in found.logs || n == newLog
  {
    hide Effect, Gone, Found.Visited;
    forall i | 0 <= i < |found.dir|
      ensures found.dir[i] in found.logs && found.dir[i] != newLog
      ensures found.dir[i] in Gone(found.dir, found.Visited(), found.threshold, |found.dir|)
         <==> found.threshold < |Effect(found.Visited()[i])|
    {
      GoneExact(found, i);
    }
  }

  lemma BySizeHolds(found: Found, newLog: nat, c: PersistentStorageCollection, storage: SwappableMemoryStorage,
                    writer: WALWriterImpl, generator: VersionNumberGenerator)
    requires found.Valid() && newLog !in found.logs && Initialized(found, newLog, c, storage, writer, generator)
    ensures BySize(found, newLog, c, storage, writer)
  {
    hide Effect, Gone, Larges, Effects, Found.Visited, AreLarge, LogFiles, Reload, ListedNames, StrictlySorted, SavedAs;
    hide Log.DecodeLog, IsMaxVersion, Concat, InitialBuffers, Found.Valid, LastSmall, KeptAt, Views, GoodNames, IsLarge;
    var visited := found.Visited();
    assert visited[..|found.dir|] == visited;
    var at := TablesBySize(found);
    FilesBySize(found, newLog, LogFiles(c.disk.files));
    LastSmallExact(visited, found.threshold);
    InitialContents(Remembered(found, |found.dir|));
    if LastSmall(visited, found.threshold).Some? {
      ContinuedFits(found, writer);
    }
  }

  ghost predicate NoneEmpty(logs: seq<seq<Operation>>) {
    forall i :: 0 <= i < |logs| ==> logs[i] != []
  }

  /** No operation on a file fails, and every log could become a table. */
  ghost predicate NothingFails(found: Found, faults: seq<Faults>, newLogFault: bool)
    requires found.Valid()
  {
    && !newLogFault && |faults| == |found.dir|
    && forall i :: 0 <= i < |faults| ==> faults[i] == NoFault() && Storable(Effect(found.Visited()[i]))
  }

  /**
   `InitializeStorages`. It goes through the log files in directory order. Whatever fails and wherever it
   crashes, every state that the loop leaves on the disk is at some stage, unless the index of a table is refused
   for its size.
   */
  method InitializeStorages(disk: Disk, dir: seq<nat>, threshold: nat, names: seq<Bytes>, newLog: nat,
                            faults: seq<Faults>, newLogFault: bool, ghost found: Found)
    returns (outcome: Outcome, persistent: PersistentStorageCollection, storage: SwappableMemoryStorage,
             writer: WALWriterImpl?, generator: VersionNumberGenerator, ghost looped: nat)
    requires disk.Valid() && GoodNames(ListedNames(disk.files)) && AllWellFormed(Reload(disk.files))
    requires found == Found(Views(Reload(disk.files)), LogFiles(disk.files), dir, threshold) && found.Valid()
    requires |names| == |faults| == |dir| && GoodNames(names) && newLog !in LogFiles(disk.files)
    requires forall i :: 0 <= i < |names| ==> names[i] !in ListedNames(disk.files)
    modifies disk
    ensures old(disk.history) <= disk.history && |old(disk.history)| <= looped <= |disk.history|
    ensures FewKeys(found) ==> Staged(disk.history[..looped], |old(disk.history)|, found)
    ensures outcome.Ready? ==> writer != null && persistent.disk == disk
    ensures outcome.Ready? ==> Initialized(found, newLog, persistent, storage, writer, generator)
    ensures outcome.Ready? ==> BySize(found, newLog, persistent, storage, writer)
    ensures outcome.Ready? ==>
              fresh({persistent, writer, storage, storage.readerFirst, storage.readerSecond, storage.writer, generator})
    ensures outcome.Ready? ==> NoneEmpty(found.Visited())
    ensures outcome.Undefined? ==> !NoneEmpty(found.Visited())
    ensures NothingFails(found, faults, newLogFault) ==>
              outcome == if NoneEmpty(found.Visited()) then Ready else Undefined
  {
    hide ListedNames, Reload, LogFiles, Recovering, Initialized, Storable, SomeStage, Found.Visited, Found.Valid;
    hide BySize, Views, Log.DecodeLog, Buffers.Contents, SwappableMemoryStorage.Valid;
    hide PersistentStorageCollection.Valid;
    hide Effect;
    persistent := new PersistentStorageCollection(disk);
    storage := new SwappableMemoryStorage(map[]);
    writer := null;
    generator := new VersionNumberGenerator(0);
    var maxVersion := 0;
    RecoveringStarts(found, persistent, storage);
    outcome := Ready;
    var k := 0;
    while k < |dir|
      invariant k <= |dir| && persistent.disk == disk && Recovering(found, k, persistent, storage, writer, maxVersion)
      invariant forall i :: k <= i < |names| ==> names[i] !in ListedNames(disk.files)
      invariant old(disk.history) <= disk.history
      invariant FewKeys(found) ==> Staged(disk.history, |old(disk.history)|, found)
      invariant fresh({persistent, storage, storage.readerFirst, storage.readerSecond, storage.writer})
      invariant writer != null ==> fresh(writer)
      invariant forall i :: 0 <= i < k ==> found.Visited()[i] != []
    {
      ghost var before := disk.history;
      outcome, storage, writer, maxVersion := RecoverFile(found, k, dir[k], threshold, names[k], faults[k],
                                                          persistent, storage, writer, maxVersion);
      if FewKeys(found) {
        StagedTogether(before, disk.history, |old(disk.history)|, found);
      }
      looped := |disk.history|;
      if !outcome.Ready? {
        assert disk.history[..looped] == disk.history;
        return;
      }
      k := k + 1;
    }
    looped := |disk.history|;
    assert disk.history[..looped] == disk.history;
    writer, generator := GoOn(found, newLog, newLogFault, persistent, storage, writer, maxVersion);
    outcome := if writer != null then Ready else Failed;
    if writer != null {
      BySizeHolds(found, newLog, persistent, storage, writer, generator);
    }
  }

  lemma StagedTogether(a: seq<Files>, b: seq<Files>, from: nat, found: Found)
    requires found.Valid() && from <= |a| && a <= b && Staged(a, from, found) && Staged(b, |a|, found)
    ensures Staged(b, from, found)
  {
    hide SomeStage;
  }
}
