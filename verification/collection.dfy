/** The list of tables, in memory and in the metadata file, and the disk it lives on. */
module Collection {
  import opened Wrappers
  import opened Kv
  import opened Wire
  import opened Disks
  import opened Tables
  import opened Compaction

  // ---------------------------------------------------------------- the metadata file

  /** Generated file names are short. */
  predicate ShortName(name: Bytes) {
    |name| < 0x100
  }

  function NameField(name: Bytes): Field {
    Blob(1, EncodeFields([Blob(1, name)]))
  }

  function EncodeMetadata(names: seq<Bytes>): Bytes {
    EncodeFields(seq(|names|, i requires 0 <= i < |names| => NameField(names[i])))
  }

  /** The file names of the entries of a `persistent.Metadata` message. */
  function NamesOf(fs: seq<Field>): Option<seq<Bytes>> {
    if fs == [] then
      Some([])
    else
      match NamesOf(fs[..|fs| - 1])
      case None => None
      case Some(names) =>
        var last := fs[|fs| - 1];
        if !(last.Blob? && last.num == 1) then Some(names) else
        match ParseFields(last.data)
        case None => None
        case Some(inner) => Some(names + [GetBlob(inner, 1, [])])
  }

  function DecodeMetadata(bs: Bytes): Option<seq<Bytes>> {
    match ParseFields(bs)
    case None => None
    case Some(fs) => NamesOf(fs)
  }

  lemma NameRoundTrip(name: Bytes)
    requires ShortName(name)
    ensures ValidField(NameField(name))
    ensures ParseFields(NameField(name).data) == Some([Blob(1, name)])
  {
    var fs := [Blob(1, name)];
    VarintFits(10);
    VarintFits(|name|);
    assert fs[1..] == [];
    FieldsRoundTrip(fs);
  }

  lemma {:induction false} NamesRoundTrip(names: seq<Bytes>, fs: seq<Field>)
    requires forall i :: 0 <= i < |names| ==> ShortName(names[i])
    requires |fs| == |names| && forall i :: 0 <= i < |fs| ==> fs[i] == NameField(names[i])
    ensures NamesOf(fs) == Some(names)
  {
    hide ParseFields, EncodeFields;
    if names != [] {
      var n := |names| - 1;
      NamesRoundTrip(names[..n], fs[..n]);
      NameRoundTrip(names[n]);
      assert names[..n] + [names[n]] == names;
    }
  }

  lemma MetadataRoundTrip(names: seq<Bytes>)
    requires forall i :: 0 <= i < |names| ==> ShortName(names[i])
    ensures DecodeMetadata(EncodeMetadata(names)) == Some(names)
  {
    hide NamesOf, NameField;
    var fs := seq(|names|, i requires 0 <= i < |names| => NameField(names[i]));
    forall i | 0 <= i < |fs|
      ensures ValidField(fs[i])
    {
      NameRoundTrip(names[i]);
    }
    FieldsRoundTrip(fs);
    NamesRoundTrip(names, fs);
  }

  /** The very bytes of a list with one short name. */
  lemma MetadataBytes(name: Bytes)
    requires |name| < 100
    ensures EncodeMetadata([name]) == [10, |name| + 2] + ([10, |name|] + name)
  {
    OneShort(Blob(1, name));
    OneShort(NameField(name));
    hide EncodeFields;
    assert seq(1, i requires 0 <= i < 1 => NameField([name][i])) == [NameField(name)];
  }

  /** `ReadMetadata`, where an unreadable file counts as an empty list. */
  function ListedNames(files: Files): seq<Bytes> {
    if Metadata !in files then [] else
    match DecodeMetadata(files[Metadata])
    case None => []
    case Some(names) => names
  }

  /** A missing or unreadable list counts as empty; a readable one may have fields that are not known. */
  lemma OtherLists(files: Files, fs: seq<Field>, f: Field)
    ensures Metadata !in files || ParseFields(files[Metadata]).None? ==> ListedNames(files) == []
    ensures !(f.Blob? && f.num == 1) ==> NamesOf(fs + [f]) == NamesOf(fs)
  {
    hide ParseFields;
    assert (fs + [f])[..|fs|] == fs;
  }

  /** `LoadPersistentStorage` */
  function LoadTable(files: Files, name: Bytes): Option<Table> {
    if Index(name) !in files then None else
    match DecodeIndex(files[Index(name)])
    case None => None
    case Some(index) => if Data(name) !in files then None else Some(Table(name, files[Data(name)], index))
  }

  /** The tables that can be loaded, in the order of the list; the others are skipped. */
  function LoadAll(files: Files, names: seq<Bytes>): seq<Table> {
    if names == [] then
      []
    else
      var last := LoadTable(files, names[|names| - 1]);
      LoadAll(files, names[..|names| - 1]) + (if last.Some? then [last.value] else [])
  }

  /** What a restart finds. */
  function Reload(files: Files): seq<Table> {
    LoadAll(files, ListedNames(files))
  }

  /** `ReadCollection` */
  method ReadCollection(disk: Disk) returns (result: seq<Table>)
    ensures result == Reload(disk.files)
  {
    var names := ListedNames(disk.files);
    result := [];
    var i := 0;
    while i < |names|
      invariant i <= |names|
      invariant result == LoadAll(disk.files, names[..i])
    {
      var got := LoadTable(disk.files, names[i]);
      assert names[..i + 1][..i] == names[..i];
      if got.Some? {
        result := result + [got.value];
      }
      i := i + 1;
    }
    assert names[..i] == names;
  }

  ghost predicate Distinct(names: seq<Bytes>) {
    forall i, j :: 0 <= i < j < |names| ==> names[i] != names[j]
  }

  ghost predicate GoodNames(names: seq<Bytes>) {
    Distinct(names) && forall i :: 0 <= i < |names| ==> ShortName(names[i])
  }

  /** Both files of the table are in place. */
  ghost predicate OnDisk(files: Files, table: Table) {
    LoadTable(files, table.name) == Some(table)
  }

  lemma {:induction false} LoadAllSameFiles(a: Files, b: Files, names: seq<Bytes>)
    requires forall i :: 0 <= i < |names| ==> LoadTable(a, names[i]) == LoadTable(b, names[i])
    ensures LoadAll(a, names) == LoadAll(b, names)
  {
    hide LoadTable;
    if names != [] {
      LoadAllSameFiles(a, b, names[..|names| - 1]);
    }
  }

  lemma {:induction false} LoadedNames(files: Files, names: seq<Bytes>, i: nat)
    requires i < |LoadAll(files, names)|
    ensures LoadAll(files, names)[i].name in names
    ensures OnDisk(files, LoadAll(files, names)[i])
  {
    var n := |names| - 1;
    if i < |LoadAll(files, names[..n])| {
      LoadedNames(files, names[..n], i);
    }
  }

  lemma {:induction false} LoadedAreDistinct(files: Files, names: seq<Bytes>)
    requires Distinct(names)
    ensures forall i, j :: 0 <= i < j < |LoadAll(files, names)| ==>
              LoadAll(files, names)[i].name != LoadAll(files, names)[j].name
  {
    if names != [] {
      var n := |names| - 1;
      var before := LoadAll(files, names[..n]);
      LoadedAreDistinct(files, names[..n]);
      forall i | 0 <= i < |before|
        ensures before[i].name != names[n]
      {
        LoadedNames(files, names[..n], i);
      }
    }
  }

  /** Writing the files of a table that is not listed changes nothing for a restart. */
  lemma UnlistedFiles(files: Files, path: Path, bytes: Bytes)
    requires path.Data? || path.Index?
    requires path.name !in ListedNames(files)
    ensures Reload(files[path := bytes]) == Reload(files)
    ensures ListedNames(files[path := bytes]) == ListedNames(files)
  {
    hide DecodeIndex, DecodeMetadata;
    LoadAllSameFiles(files[path := bytes], files, ListedNames(files));
  }

  lemma NewMetadataIsIgnored(files: Files, bytes: Bytes)
    ensures Reload(files[NewMetadata := bytes]) == Reload(files) == Reload(files - {NewMetadata})
    ensures ListedNames(files[NewMetadata := bytes]) == ListedNames(files) == ListedNames(files - {NewMetadata})
  {
    hide DecodeIndex, DecodeMetadata;
    LoadAllSameFiles(files[NewMetadata := bytes], files, ListedNames(files));
    LoadAllSameFiles(files - {NewMetadata}, files, ListedNames(files));
  }

  ghost predicate SameTableFiles(a: Files, b: Files) {
    forall p: Path :: p.Data? || p.Index? ==> (p in a <==> p in b) && (p in a ==> a[p] == b[p])
  }

  lemma SameFilesLoadSame(a: Files, b: Files, names: seq<Bytes>)
    requires SameTableFiles(a, b)
    ensures LoadAll(a, names) == LoadAll(b, names)
  {
    hide DecodeIndex;
    LoadAllSameFiles(a, b, names);
  }

  /** Listing one more table. */
  lemma ListOneMore(files: Files, after: Files, table: Table)
    requires GoodNames(ListedNames(files)) && ShortName(table.name) && table.name !in ListedNames(files)
    requires OnDisk(files, table)
    requires Metadata in after && after[Metadata] == EncodeMetadata(ListedNames(files) + [table.name])
    requires SameTableFiles(after, files)
    ensures ListedNames(after) == ListedNames(files) + [table.name] && GoodNames(ListedNames(after))
    ensures Reload(after) == Reload(files) + [table]
  {
    hide DecodeMetadata, EncodeMetadata, LoadTable, SameTableFiles;
    var names := ListedNames(files) + [table.name];
    assert Distinct(names);
    MetadataRoundTrip(names);
    assert ListedNames(after) == names;
    SameFilesLoadSame(after, files, names);
    assert names[..|names| - 1] == ListedNames(files);
    hide ListedNames;
  }

  lemma {:induction false} LoadAllWithout(files: Files, names: seq<Bytes>, tables: seq<Table>, first: Table)
    requires Distinct(names) && LoadAll(files, names) == [first] + tables
    ensures LoadAll(files - {Data(first.name)}, names) == tables
  {
    hide DecodeIndex;
    var n := |names| - 1;
    var after := files - {Data(first.name)};
    var before := LoadAll(files, names[..n]);
    LoadedNames(files, names, 0);
    if before == [] {
      assert tables == [] && LoadTable(files, names[n]) == Some(first);
      LoadNothing(files, after, names[..n]);
    } else {
      var rest := before[1..];
      assert before[0] == first && before == [first] + rest;
      LoadAllWithout(files, names[..n], rest, first);
      LoadedNames(files, names[..n], 0);
      assert LoadTable(after, names[n]) == LoadTable(files, names[n]);
      var last := LoadAll(files, names)[|before|..];
      assert LoadAll(files, names) == before + last && LoadAll(after, names) == rest + last;
      assert tables == LoadAll(files, names)[1..] == rest + last;
    }
  }

  lemma {:induction false} LoadNothing(files: Files, after: Files, names: seq<Bytes>)
    requires LoadAll(files, names) == []
    requires forall name :: LoadTable(files, name) == None ==> LoadTable(after, name) == None
    ensures LoadAll(after, names) == []
  {
    hide LoadTable;
    if names != [] {
      LoadNothing(files, after, names[..|names| - 1]);
    }
  }

  /** Deleting the data file of the first table that still loads makes a restart skip that table only. */
  lemma DeleteFirst(files: Files, first: Table, rest: seq<Table>)
    requires Distinct(ListedNames(files)) && Reload(files) == [first] + rest
    ensures ListedNames(files - {Data(first.name)}) == ListedNames(files)
    ensures Reload(files - {Data(first.name)}) == rest
  {
    hide DecodeIndex, DecodeMetadata;
    LoadAllWithout(files, ListedNames(files), rest, first);
  }

  /** The logs play no part in the list or in the tables. */
  lemma LogsAreNotTables(a: Files, b: Files)
    requires OtherFiles(a) == OtherFiles(b)
    ensures ListedNames(a) == ListedNames(b) && Reload(a) == Reload(b)
    ensures forall name :: LoadTable(a, name) == LoadTable(b, name)
  {
    hide DecodeIndex, DecodeMetadata;
    forall p: Path | !p.LogFile?
      ensures p in a <==> p in b
      ensures p in a ==> a[p] == b[p]
    {
      assert p in a <==> p in OtherFiles(a);
      assert p in b <==> p in OtherFiles(b);
    }
    LoadAllSameFiles(a, b, ListedNames(a));
  }

  /** For a restart the two states hold the same list and the same tables. */
  ghost predicate SameTables(a: Files, b: Files) {
    ListedNames(a) == ListedNames(b) && Reload(a) == Reload(b)
  }

  method WriteUnlisted(disk: Disk, path: Path, bytes: Bytes, faulty: bool) returns (ok: bool)
    requires disk.Valid() && (path.Data? || path.Index?) && path.name !in ListedNames(disk.files)
    modifies disk
    ensures disk.Valid() && ok == !faulty && SameTables(disk.files, old(disk.files))
    ensures disk.files == if ok then old(disk.files)[path := bytes] else old(disk.files)
    ensures disk.history == if ok then old(disk.history) + [disk.files] else old(disk.history)
    ensures LogFiles(disk.files) == old(LogFiles(disk.files))
  {
    hide LogFiles;
    UnlistedFiles(disk.files, path, bytes);
    ok := disk.Write(path, bytes, faulty);
  }

  /**
   `NewPersistentStorage` with its files. The three flags say which file operation fails. Until the table
   is listed, no state of the disk differs for a restart. Afterwards a reload gives the very table exactly when
   its index fits in a message.
   */
  method CreateTable(disk: Disk, name: Bytes, entries: seq<StorageEntry>,
                     dataFault: bool, indexFault: bool, openFault: bool) returns (r: Result<Table>)
    requires disk.Valid() && DistinctKeys(entries) && name !in ListedNames(disk.files)
    modifies disk
    ensures disk.Valid() && old(disk.history) <= disk.history
    ensures r.Ok? <==> !dataFault && !indexFault && !openFault && Buildable(Sort(entries))
    ensures r.Ok? ==> r.value == TableOf(name, Sort(entries)) && r.value.name == name
    ensures r.Ok? ==> OnDisk(disk.files, r.value.Saved())
    ensures r.Ok? ==> (OnDisk(disk.files, r.value) <==> r.value.index == [] || IndexFits(r.value.index))
    ensures forall i :: |old(disk.history)| <= i < |disk.history| ==>
              SameTables(disk.history[i], old(disk.files)) && LogFiles(disk.history[i]) == old(LogFiles(disk.files))
    ensures SameTables(disk.files, old(disk.files))
    ensures LogFiles(disk.files) == old(LogFiles(disk.files))
  {
    hide ListedNames, Reload, IndexFile, IndexFits, DecodeIndex, Buildable, LogFiles, LoadTable, TableOf, Sort;
    hide DistinctKeys, Table.Saved;
    var ok := WriteUnlisted(disk, Data(name), [], dataFault);
    if !ok {
      return Err;
    }
    var built := NewPersistentStorage(name, entries);
    if built.Err? {
      return Err;
    }
    ok := WriteUnlisted(disk, Index(name), [], indexFault);
    if !ok {
      return Err;
    }
    ok := WriteUnlisted(disk, Data(name), built.value.table.data, false);
    ok := WriteUnlisted(disk, Index(name), built.value.indexFile, false);
    if openFault {
      return Err;
    }
    BuiltIsOnDisk(disk.files, name, entries, built.value);
    return Ok(built.value.table);
  }

  lemma BuiltIsOnDisk(files: Files, name: Bytes, entries: seq<StorageEntry>, built: Built)
    requires DistinctKeys(entries) && Buildable(Sort(entries))
    requires built.table == TableOf(name, Sort(entries)) && built.indexFile == IndexFile(built.table.index)
    requires Data(name) in files && files[Data(name)] == built.table.data
    requires Index(name) in files && files[Index(name)] == built.indexFile
    ensures OnDisk(files, built.table.Saved()) && built.table.name == name
    ensures OnDisk(files, built.table) <==> built.table.index == [] || IndexFits(built.table.index)
  {
    TableIsSaved(name, entries);
    hide IndexFile, IndexFits, DecodeIndex, Sort;
  }

  /** `AppendMetadata`: the list is always read from the main file and written to `target`. */
  method AppendMetadata(disk: Disk, table: Table, target: Path, faulty: bool) returns (ok: bool)
    requires disk.Valid() && !target.LogFile?
    modifies disk
    ensures disk.Valid() && ok == !faulty
    ensures LogFiles(disk.files) == old(LogFiles(disk.files))
    ensures ok ==> disk.files == old(disk.files)[target := EncodeMetadata(ListedNames(old(disk.files)) + [table.name])]
    ensures ok ==> disk.history == old(disk.history) + [disk.files]
    ensures !ok ==> disk.files == old(disk.files) && disk.history == old(disk.history)
  {
    hide LogFiles;
    ok := disk.Write(target, EncodeMetadata(ListedNames(disk.files) + [table.name]), faulty);
  }

  /** The tables a restart finds after `n` disk operations of a swap of `tables` for `merged`. */
  ghost function CrashView(tables: seq<Table>, merged: Table, n: nat): seq<Table>
    requires n < 3 + |tables|
  {
    if n < 2 then tables else tables[n - 2..] + [merged]
  }

  function FileNames(tables: seq<Table>): seq<Bytes> {
    seq(|tables|, i requires 0 <= i < |tables| => tables[i].name)
  }

  /** The tables that a restart finds for those in memory: the same, except that an index that did not fit is gone. */
  ghost predicate SavedAs(disk: seq<Table>, memory: seq<Table>) {
    && |disk| == |memory|
    && forall i :: 0 <= i < |disk| ==>
         disk[i] == memory[i] || (!IndexFits(memory[i].index) && disk[i] == memory[i].Saved())
  }

  ghost predicate Indexed(tables: seq<Table>) {
    forall i :: 0 <= i < |tables| ==> IndexFits(tables[i].index)
  }

  lemma SavedNames(disk: seq<Table>, memory: seq<Table>)
    requires SavedAs(disk, memory)
    ensures |disk| == |memory| && forall i :: 0 <= i < |disk| ==> disk[i].name == memory[i].name
  {
    hide IndexFits;
  }

  lemma OneSaved(table: Table)
    ensures SavedAs([table.Saved()], [table])
  {
    hide IndexFits;
  }

  lemma OneMoreSaved(disk: seq<Table>, memory: seq<Table>, table: Table)
    requires SavedAs(disk, memory)
    ensures SavedAs(disk + [table.Saved()], memory + [table])
  {
    hide IndexFits;
  }

  /** A list of good names, and these log files. */
  ghost predicate Sound(files: Files, logs: map<nat, Bytes>) {
    GoodNames(ListedNames(files)) && LogFiles(files) == logs
  }

  /** Every state of the disk from number `from` on is sound. */
  ghost predicate SoundFrom(history: seq<Files>, from: nat, logs: map<nat, Bytes>) {
    forall i :: from <= i < |history| ==> Sound(history[i], logs)
  }

  class PersistentStorageCollection {
    const disk: Disk
    var collection: seq<Table>

    /** The tables in memory are those that a restart would find, as far as their indexes have been saved. */
    ghost predicate Valid()
      reads this, disk
    {
      && disk.Valid()
      && GoodNames(ListedNames(disk.files))
      && AllWellFormed(collection)
      && SavedAs(Reload(disk.files), collection)
    }

    /** A restart finds exactly the tables in memory. */
    ghost predicate Reloads()
      reads this, disk
    {
      Reload(disk.files) == collection
    }

    /** The map that the collection stands for. */
    ghost function Meaning(): Memory
      requires AllWellFormed(collection)
      reads this
    {
      Flatten(Views(collection))
    }

    /** Opens the data directory, as every start of the program does. */
    constructor (disk: Disk)
      requires disk.Valid() && GoodNames(ListedNames(disk.files)) && AllWellFormed(Reload(disk.files))
      ensures Valid() && this.disk == disk && Reloads()
    {
      var got := ReadCollection(disk);
      this.disk := disk;
      collection := got;
    }

    /** A table that has been created and not been listed. */
    ghost predicate Fresh(table: Table)
      reads disk
    {
      && OnDisk(disk.files, table.Saved()) && table.WellFormed()
      && (|table.View()| <= MANY_KEYS ==> IndexFits(table.index))
      && ShortName(table.name) && table.name !in ListedNames(disk.files)
    }

    /** `Add`: lists the table, then pushes it. */
    method Add(table: Table, faulty: bool) returns (ok: bool)
      requires Valid() && Fresh(table)
      modifies this, disk
      ensures Valid() && ok == !faulty && LogFiles(disk.files) == old(LogFiles(disk.files))
      ensures ok ==> ListedNames(disk.files) == old(ListedNames(disk.files)) + [table.name]
      ensures ok ==> collection == old(collection) + [table]
      ensures ok ==> Reload(disk.files) == old(Reload(disk.files)) + [table.Saved()]
      ensures old(Reloads()) && (ok ==> IndexFits(table.index)) ==> Reloads()
      ensures ok ==> disk.history == old(disk.history) + [disk.files]
      ensures !ok ==> collection == old(collection) && disk.files == old(disk.files)
                      && disk.history == old(disk.history)
    {
      hide ListedNames, Reload, EncodeMetadata, LoadTable, LogFiles, IndexFits, SavedAs, ReadEntryAt, StrictlySorted;
      ok := AppendMetadata(disk, table, Metadata, faulty);
      if !ok {
        return;
      }
      ListOneMore(old(disk.files), disk.files, table.Saved());
      OneMoreSaved(old(Reload(disk.files)), collection, table);
      collection := collection + [table];
    }

    /** `Get`: asks the tables from the newest to the oldest. */
    method Get(key: Bytes) returns (r: Result<StorageEntry>)
      requires AllWellFormed(collection)
      ensures r.Ok? <==> key in Meaning()
      ensures r.Ok? ==> r.value == StorageEntry(key, Meaning()[key].value, Meaning()[key].version)
    {
      hide StrictlySorted, MemoryOf, ReadEntryAt;
      ghost var views := Views(collection);
      var i := |collection|;
      while i > 0
        invariant 0 <= i <= |collection|
        invariant forall j :: i <= j < |views| ==> key !in views[j]
      {
        i := i - 1;
        var res := collection[i].Get(key);
        if res.Ok? {
          NewestDecides(views, i, key);
          return res;
        }
      }
      FlattenKeys(views, key);
      return Err;
    }

    /** The first half of `SwapWith`: writes the new list beside the old one and renames it into place. */
    method Install(table: Table, faulty: bool) returns (ok: bool)
      requires Valid() && Fresh(table)
      modifies disk
      ensures disk.Valid() && ok == !faulty && LogFiles(disk.files) == old(LogFiles(disk.files))
      ensures ListedNames(disk.files) == old(ListedNames(disk.files)) + (if ok then [table.name] else [])
      ensures Reload(disk.files) == old(Reload(disk.files)) + if ok then [table.Saved()] else []
      ensures GoodNames(ListedNames(disk.files))
      ensures old(disk.history) <= disk.history && |disk.history| == |old(disk.history)| + if ok then 3 else 1
      ensures forall i :: |old(disk.history)| <= i < |disk.history| ==>
                Reload(disk.history[i]) ==
                old(Reload(disk.files)) + if i < |old(disk.history)| + 2 then [] else [table.Saved()]
      ensures SoundFrom(disk.history, |old(disk.history)|, old(LogFiles(disk.files)))
    {
      hide ListedNames, Reload, EncodeMetadata, LoadTable, StrictlySorted, LogFiles, IndexFits, SavedAs, ReadEntryAt;
      assert Reload(disk.files) + [] == Reload(disk.files);
      ghost var files := disk.files;
      NewMetadataIsIgnored(files, []);
      disk.Delete(NewMetadata);
      ghost var names := ListedNames(files) + [table.name];
      NewMetadataIsIgnored(disk.files, EncodeMetadata(names));
      ok := AppendMetadata(disk, table, NewMetadata, faulty);
      if ok {
        disk.Rename(NewMetadata, Metadata);
        RenamedList(files, disk.files, table.Saved());
      }
    }

    /** The second half: deletes the data files of the replaced tables, oldest first. */
    method DeleteReplaced(toDelete: seq<Bytes>, ghost tables: seq<Table>, ghost merged: Table)
      requires disk.Valid() && GoodNames(ListedNames(disk.files)) && Reload(disk.files) == tables + [merged]
      requires |toDelete| == |tables| && forall i :: 0 <= i < |tables| ==> toDelete[i] == tables[i].name
      modifies disk
      ensures disk.Valid() && LogFiles(disk.files) == old(LogFiles(disk.files))
      ensures ListedNames(disk.files) == old(ListedNames(disk.files)) && Reload(disk.files) == [merged]
      ensures old(disk.history) <= disk.history && |disk.history| == |old(disk.history)| + |tables|
      ensures forall i :: |old(disk.history)| <= i < |disk.history| ==>
                Reload(disk.history[i]) == tables[i - |old(disk.history)| + 1..] + [merged]
      ensures SoundFrom(disk.history, |old(disk.history)|, old(LogFiles(disk.files)))
    {
      hide ListedNames, Reload, LogFiles;
      ghost var start := |disk.history|;
      assert tables[0..] == tables;
      var k := 0;
      while k < |toDelete|
        invariant k <= |tables| && disk.Valid() && LogFiles(disk.files) == old(LogFiles(disk.files))
        invariant |disk.history| == start + k && old(disk.history) <= disk.history
        invariant ListedNames(disk.files) == old(ListedNames(disk.files))
                  && Reload(disk.files) == tables[k..] + [merged]
        invariant forall i :: start <= i < start + k ==> Reload(disk.history[i]) == tables[i - start + 1..] + [merged]
        invariant SoundFrom(disk.history, start, old(LogFiles(disk.files)))
      {
        assert tables[k..] + [merged] == [tables[k]] + (tables[k + 1..] + [merged]);
        DeleteFirst(disk.files, tables[k], tables[k + 1..] + [merged]);
        disk.Delete(Data(toDelete[k]));
        k := k + 1;
      }
      assert tables[k..] + [merged] == [merged];
    }

    /**
     `SwapWith`: puts the new list into place, then deletes the data files of the tables it replaces. Every
     state of the disk on the way is accounted for.
     */
    method SwapWith(table: Table, faulty: bool) returns (ok: bool)
      requires Valid() && Fresh(table)
      modifies this, disk
      ensures Valid() && ok == !faulty && LogFiles(disk.files) == old(LogFiles(disk.files))
      ensures ok ==> collection == [table] && |disk.history| == |old(disk.history)| + 3 + |old(collection)|
      ensures !ok ==> collection == old(collection) && |disk.history| == |old(disk.history)| + 1
      ensures old(disk.history) <= disk.history
      ensures forall i :: |old(disk.history)| <= i < |disk.history| ==>
                Reload(disk.history[i]) ==
                CrashView(old(Reload(disk.files)), table.Saved(), i - |old(disk.history)|)
      ensures Reload(disk.files) == if ok then [table.Saved()] else old(Reload(disk.files))
      ensures SoundFrom(disk.history, |old(disk.history)|, old(LogFiles(disk.files)))
    {
      hide ListedNames, Reload, LoadTable, StrictlySorted, LogFiles, GoodNames, ReadEntryAt, LoadAll, EncodeMetadata;
      hide IndexFits, SavedAs, Table.Saved, CrashView, Table.WellFormed, Table.View, MemoryOf;
      ghost var tables, start := Reload(disk.files), |disk.history|;
      SavedNames(tables, collection);
      ok := Install(table, faulty);
      ghost var installed := disk.history;
      if ok {
        var toDelete := FileNames(collection);
        collection := [table];
        OneSaved(table);
        DeleteReplaced(toDelete, tables, table.Saved());
      }
      SwapStates(installed, disk.history, start, tables, table.Saved());
    }
  }

  lemma SwapStates(installed: seq<Files>, history: seq<Files>, start: nat, tables: seq<Table>, merged: Table)
    requires installed <= history && start < |installed| <= start + 3
    requires forall i :: start <= i < |installed| ==>
               Reload(installed[i]) == tables + if i < start + 2 then [] else [merged]
    requires |installed| < |history| ==> |installed| == start + 3 && |history| == start + 3 + |tables|
    requires forall i :: |installed| <= i < |history| ==>
               Reload(history[i]) == tables[i - |installed| + 1..] + [merged]
    ensures forall i :: start <= i < |history| ==> Reload(history[i]) == CrashView(tables, merged, i - start)
    ensures tables + [] == tables
  {
    hide Reload;
    assert tables[0..] == tables;
    forall i | start <= i < |history|
      ensures Reload(history[i]) == CrashView(tables, merged, i - start)
    {
      if i < |installed| {
        assert history[i] == installed[i];
      }
    }
  }

  lemma RenamedList(files: Files, after: Files, table: Table)
    requires GoodNames(ListedNames(files)) && ShortName(table.name) && table.name !in ListedNames(files)
    requires OnDisk(files, table)
    requires var list := EncodeMetadata(ListedNames(files) + [table.name]);
             after == (files - {NewMetadata})[NewMetadata := list][Metadata := list] - {NewMetadata}
    ensures ListedNames(after) == ListedNames(files) + [table.name] && GoodNames(ListedNames(after))
    ensures Reload(after) == Reload(files) + [table]
  {
    hide ListedNames, Reload, EncodeMetadata, LoadTable;
    ListOneMore(files, after, table);
  }

  // ---------------------------------------------------------------- compaction

  /** What a restart from these files would answer. */
  ghost function DiskMeaning(files: Files): Memory
    requires AllWellFormed(Reload(files))
  {
    Flatten(Views(Reload(files)))
  }

  /** A merged table hides any of the tables it was merged from that are still listed. */
  lemma MergedHidesOld(tables: seq<Table>, merged: Table, k: nat)
    requires AllWellFormed(tables) && merged.WellFormed() && k <= |tables|
    requires merged.View() == Flatten(Views(tables))
    ensures AllWellFormed(tables[k..] + [merged])
    ensures Flatten(Views(tables[k..] + [merged])) == merged.View()
  {
    hide StrictlySorted, MemoryOf, ReadEntryAt, Flatten;
    var views, whole := Views(tables), merged.View();
    assert views[..k] + views[k..] == views;
    FlattenConcat(views[..k], views[k..]);
    FlattenSnoc(views[k..], whole);
    assert Views(tables[k..] + [merged]) == views[k..] + [whole];
    hide Views, AllWellFormed, Table.View;
    HiddenByMerged(Flatten(views[..k]), Flatten(views[k..]), whole);
  }

  lemma HiddenByMerged(below: Memory, left: Memory, whole: Memory)
    requires whole == below + left
    ensures left + whole == whole
  {
  }

  lemma CrashViewMeaning(tables: seq<Table>, merged: Table, n: nat)
    requires AllWellFormed(tables) && merged.WellFormed() && n < 3 + |tables|
    requires merged.View() == Flatten(Views(tables))
    ensures AllWellFormed(CrashView(tables, merged, n))
    ensures Flatten(Views(CrashView(tables, merged, n))) == Flatten(Views(tables))
  {
    if n >= 2 {
      MergedHidesOld(tables, merged, n - 2);
    }
  }

  ghost predicate NoEmptyTable(tables: seq<Table>) {
    forall i :: 0 <= i < |tables| ==> tables[i].index != []
  }

  lemma MergedIsNotEmpty(tables: seq<Table>, entries: seq<StorageEntry>)
    requires tables != [] && AllWellFormed(tables) && NoEmptyTable(tables)
    requires MemoryOf(entries) == Flatten(Views(tables))
    ensures entries != []
  {
    var last := tables[|tables| - 1];
    SortedKeysAreDistinct(last.Entries());
    MemoryOfAt(last.Entries(), 0);
    assert last.Entries()[0].key in Flatten(Views(tables));
  }

  /**
   `MergeData`: merges the tables of the collection into the files of a new table that stands for the same
   map, tombstones included. It fails only by a file fault or when the entries do not fit in one table.
   */
  method MergeData(c: PersistentStorageCollection, name: Bytes, dataFault: bool, indexFault: bool, openFault: bool)
    returns (r: Result<Table>)
    requires c.Valid() && NoEmptyTable(c.collection) && c.collection != []
    requires ShortName(name) && name !in ListedNames(c.disk.files)
    modifies c.disk
    ensures c.Valid() && c.Meaning() == old(c.Meaning()) && old(c.disk.history) <= c.disk.history
    ensures LogFiles(c.disk.files) == old(LogFiles(c.disk.files))
    ensures r.Ok? <==> !dataFault && !indexFault && !openFault && Storable(c.Meaning())
    ensures r.Ok? ==> c.Fresh(r.value) && r.value.View() == c.Meaning() && r.value.index != []
    ensures r.Ok? && |c.Meaning()| <= MANY_KEYS ==> IndexFits(r.value.index)
    ensures Reload(c.disk.files) == old(Reload(c.disk.files))
    ensures forall i :: |old(c.disk.history)| <= i < |c.disk.history| ==>
              Reload(c.disk.history[i]) == old(Reload(c.disk.files))
    ensures SoundFrom(c.disk.history, |old(c.disk.history)|, old(LogFiles(c.disk.files)))
  {
    hide ListedNames, Reload, LoadTable, StrictlySorted, MemoryOf, Sort, Buildable, ReadEntryAt, IndexFits;
    hide LogFiles, Storable, SavedAs, Table.Saved;
    var data := MergeEntries(c.collection);
    SortedKeysAreDistinct(data);
    StorableExact(c.Meaning(), data);
    r := CreateTable(c.disk, name, data, dataFault, indexFault, openFault);
    if r.Ok? {
      MergedIsNotEmpty(c.collection, data);
      SameLength(data);
      TableIsFaithful(name, data);
      TableIsSaved(name, data);
    }
  }

  /** Every state of the disk from number `from` on can be loaded and stands for `meaning`. */
  ghost predicate CrashSafe(history: seq<Files>, from: nat, meaning: Memory) {
    forall i :: from <= i < |history| ==>
      AllWellFormed(Reload(history[i])) && DiskMeaning(history[i]) == meaning
  }

  /** Every state of the disk from number `from` on reloads as these tables. */
  ghost predicate StillReloads(history: seq<Files>, from: nat, tables: seq<Table>) {
    forall i :: from <= i < |history| ==> Reload(history[i]) == tables
  }

  /** Some quiet states, and then all those of a swap of the tables for `merged`. */
  ghost predicate Swapped(history: seq<Files>, from: nat, middle: nat, tables: seq<Table>, merged: Table) {
    && from <= middle && |history| == middle + 3 + |tables|
    && (forall i :: from <= i < middle ==> Reload(history[i]) == tables)
    && (forall i :: middle <= i < |history| ==> Reload(history[i]) == CrashView(tables, merged, i - middle))
  }

  /** A merged table whose index did not fit: once it is alone on the list, a restart finds nothing. */
  lemma UnindexedIsLost(files: Files, table: Table)
    requires Reload(files) == [table.Saved()] && table.WellFormed() && table.index != []
    ensures AllWellFormed(Reload(files))
    ensures DiskMeaning(files) == table.View() <==> IndexFits(table.index)
    ensures !IndexFits(table.index) ==> DiskMeaning(files) == map[]
  {
    hide IndexFits, ReadEntryAt, Reload, Flatten;
    var loaded := Reload(files)[0];
    assert Views(Reload(files)) == [loaded.View()];
    FlattenOne(loaded.View());
    SortedKeysAreDistinct(table.Entries());
    MemoryOfAt(table.Entries(), 0);
  }

  /** What a compaction does to the disk: nothing that a restart can see, or all of a swap. */
  ghost predicate Compacted(history: seq<Files>, from: nat, tables: seq<Table>, before: seq<Table>, after: seq<Table>) {
    if after == before then
      StillReloads(history, from, tables)
    else
      |after| == 1 && exists middle: nat :: Swapped(history, from, middle, tables, after[0].Saved())
  }

  /** The two halves of a compaction, whatever fails in them. */
  method MergeAndSwap(c: PersistentStorageCollection, name: Bytes, faults: (bool, bool, bool, bool))
    requires c.Valid() && NoEmptyTable(c.collection) && 5 < |c.collection|
    requires ShortName(name) && name !in ListedNames(c.disk.files)
    modifies c, c.disk
    ensures c.Valid() && c.Meaning() == old(c.Meaning()) && NoEmptyTable(c.collection)
    ensures c.collection == old(c.collection) || |c.collection| == 1
    ensures |c.collection| == 1 <==> faults == (false, false, false, false) && Storable(old(c.Meaning()))
    ensures c.collection != old(c.collection) && |old(c.Meaning())| <= MANY_KEYS ==> Indexed(c.collection)
    ensures LogFiles(c.disk.files) == old(LogFiles(c.disk.files)) && old(c.disk.history) <= c.disk.history
    ensures c.collection != old(c.collection) ==> Reload(c.disk.files) == [c.collection[0].Saved()]
    ensures SoundFrom(c.disk.history, |old(c.disk.history)|, old(LogFiles(c.disk.files)))
    ensures Compacted(c.disk.history, |old(c.disk.history)|, old(Reload(c.disk.files)), old(c.collection), c.collection)
  {
    hide ListedNames, Reload, LoadTable, StrictlySorted, MemoryOf, ReadEntryAt, EncodeMetadata, LogFiles, Storable;
    hide CrashView, GoodNames, Flatten, IndexFits, SavedAs;
    ghost var before, tables, start := c.collection, Reload(c.disk.files), |c.disk.history|;
    var merged := MergeData(c, name, faults.0, faults.1, faults.2);
    if merged.Err? {
      return;
    }
    ghost var middle := |c.disk.history|;
    var ok := c.SwapWith(merged.value, faults.3);
    if ok {
      assert Views([merged.value]) == [merged.value.View()];
      FlattenOne(merged.value.View());
      SavedNames(tables, before);
      assert Swapped(c.disk.history, start, middle, tables, merged.value.Saved());
    } else {
      NotSwapped(c.disk.history, start, middle, tables, merged.value.Saved());
    }
  }

  /**
   `RunCompaction`, whatever fails in it. The collection stands for the same map afterwards; and if the disk had
   all tables and the index of the merged one fits, a crash at any point leaves files from which a restart
   answers every key as before.
   */
  method RunCompaction(c: PersistentStorageCollection, name: Bytes, faults: (bool, bool, bool, bool))
    requires c.Valid() && NoEmptyTable(c.collection)
    requires ShortName(name) && name !in ListedNames(c.disk.files)
    modifies c, c.disk
    ensures c.Valid() && c.Meaning() == old(c.Meaning()) && NoEmptyTable(c.collection)
    ensures |old(c.collection)| <= 5 ==> c.collection == old(c.collection) && c.disk.files == old(c.disk.files)
    ensures c.collection == old(c.collection) || |c.collection| == 1
    ensures 5 < |old(c.collection)| ==>
              (|c.collection| == 1 <==> faults == (false, false, false, false) && Storable(old(c.Meaning())))
    ensures c.collection != old(c.collection) && |old(c.Meaning())| <= MANY_KEYS ==> Indexed(c.collection)
    ensures LogFiles(c.disk.files) == old(LogFiles(c.disk.files)) && old(c.disk.history) <= c.disk.history
    ensures old(c.Reloads())
            && (c.collection == old(c.collection) || Indexed(c.collection)) ==>
              CrashSafe(c.disk.history, |old(c.disk.history)|, old(c.Meaning()))
    ensures c.collection != old(c.collection) ==>
              AllWellFormed(Reload(c.disk.files))
              && (DiskMeaning(c.disk.files) == old(c.Meaning()) <==> Indexed(c.collection))
    ensures SoundFrom(c.disk.history, |old(c.disk.history)|, old(LogFiles(c.disk.files)))
    ensures Compacted(c.disk.history, |old(c.disk.history)|, old(Reload(c.disk.files)), old(c.collection), c.collection)
  {
    hide ListedNames, Reload, LoadTable, StrictlySorted, MemoryOf, ReadEntryAt, EncodeMetadata, LogFiles, Storable;
    hide CrashSafe, CrashView, GoodNames, Flatten, IndexFits, SavedAs, Indexed, Compacted;
    hide DiskMeaning;
    ghost var before, tables, start := c.collection, Reload(c.disk.files), |c.disk.history|;
    if |c.collection| <= 5 {
      NothingCompacted(c.disk.history, tables, before);
    } else {
      MergeAndSwap(c, name, faults);
    }
    if c.collection != before {
      CompactedExactly(c.disk.files, c.collection);
    }
    if tables == before && (c.collection == before || Indexed(c.collection)) {
      CompactionIsCrashSafe(c.disk.history, start, before, c.collection);
    }
  }

  /** The one table left is there for a restart exactly when its index fits in a message. */
  lemma CompactedExactly(files: Files, after: seq<Table>)
    requires |after| == 1 && Reload(files) == [after[0].Saved()] && AllWellFormed(after) && NoEmptyTable(after)
    ensures AllWellFormed(Reload(files))
    ensures DiskMeaning(files) == Flatten(Views(after)) <==> Indexed(after)
  {
    UnindexedIsLost(files, after[0]);
    hide IndexFits, Reload, Flatten, DiskMeaning, Table.View, Table.WellFormed;
    assert Views(after) == [after[0].View()];
    FlattenOne(after[0].View());
  }

  lemma NothingCompacted(history: seq<Files>, tables: seq<Table>, before: seq<Table>)
    ensures Compacted(history, |history|, tables, before, before)
  {
  }

  /** When the disk has all tables and the merged one is saved whole, every state holds the same map. */
  lemma CompactionIsCrashSafe(history: seq<Files>, start: nat, before: seq<Table>, after: seq<Table>)
    requires AllWellFormed(before) && AllWellFormed(after) && Flatten(Views(after)) == Flatten(Views(before))
    requires Compacted(history, start, before, before, after) && (after == before || Indexed(after))
    ensures CrashSafe(history, start, Flatten(Views(before)))
  {
    hide Reload, StrictlySorted, MemoryOf, ReadEntryAt, IndexFits, Flatten, CrashSafe, Swapped;
    if after == before {
      QuietIsCrashSafe(history, start, before);
    } else {
      assert Views(after) == [after[0].View()];
      FlattenOne(after[0].View());
      var middle: nat :| Swapped(history, start, middle, before, after[0]);
      SwapIsCrashSafe(history, start, middle, before, after[0]);
    }
  }

  lemma NotSwapped(history: seq<Files>, start: nat, middle: nat, tables: seq<Table>, merged: Table)
    requires start <= middle && |history| == middle + 1
    requires forall i :: start <= i < middle ==> Reload(history[i]) == tables
    requires forall i :: middle <= i < |history| ==> Reload(history[i]) == CrashView(tables, merged, i - middle)
    ensures StillReloads(history, start, tables)
  {
  }

  lemma QuietIsCrashSafe(history: seq<Files>, start: nat, tables: seq<Table>)
    requires AllWellFormed(tables) && forall i :: start <= i < |history| ==> Reload(history[i]) == tables
    ensures CrashSafe(history, start, Flatten(Views(tables)))
  {
    hide Reload, StrictlySorted, ReadEntryAt;
  }

  lemma SwapIsCrashSafe(history: seq<Files>, start: nat, middle: nat, tables: seq<Table>, merged: Table)
    requires AllWellFormed(tables) && merged.WellFormed() && merged.View() == Flatten(Views(tables))
    requires Swapped(history, start, middle, tables, merged)
    ensures CrashSafe(history, start, Flatten(Views(tables)))
  {
    hide Reload, StrictlySorted, MemoryOf, ReadEntryAt;
    forall i | start <= i < |history|
      ensures AllWellFormed(Reload(history[i])) && DiskMeaning(history[i]) == Flatten(Views(tables))
    {
      if middle <= i {
        CrashViewMeaning(tables, merged, i - middle);
      }
    }
  }
}
