/** Sorted tables on disk: framed entries in a data file, found through a file of offsets. */
module Tables {
  import opened Wrappers
  import opened Kv
  import opened Wire

  datatype StorageEntry = StorageEntry(key: Bytes, value: Option<Bytes>, version: uint64) {
    function Binding(): Value {
      Value(value, version)
    }
  }

  // ---------------------------------------------------------------- order and sorting

  /** Strings are compared byte by byte; a proper prefix comes first. */
  predicate Less(a: Bytes, b: Bytes) {
    b != [] && (a == [] || a[0] < b[0] || (a[0] == b[0] && Less(a[1..], b[1..])))
  }

  /** `a` is a proper prefix of `b`, or smaller in the first byte in which they differ. */
  ghost predicate ComesBefore(a: Bytes, b: Bytes) {
    exists n: nat :: FirstDifference(a, b, n) && (n == |a| || a[n] < b[n])
  }

  ghost predicate FirstDifference(a: Bytes, b: Bytes, n: nat) {
    n <= |a| && n < |b| && a[..n] == b[..n] && (n < |a| ==> a[n] != b[n])
  }

  lemma DifferFromStart(a: Bytes, b: Bytes, n: nat)
    requires FirstDifference(a, b, n) && n > 0
    ensures a != [] && a[0] == b[0]
  {
    assert a[..n][0] == b[..n][0];
  }

  lemma {:induction false} LessExact(a: Bytes, b: Bytes)
    ensures Less(a, b) <==> ComesBefore(a, b)
  {
    if b != [] && a != [] && a[0] == b[0] {
      LessExact(a[1..], b[1..]);
      if ComesBefore(a, b) {
        var n: nat :| FirstDifference(a, b, n) && (n == |a| || a[n] < b[n]);
        assert a[..n][0] == a[0] || n == 0;
        assert a[1..][..n - 1] == a[..n][1..] == b[..n][1..] == b[1..][..n - 1];
        assert FirstDifference(a[1..], b[1..], n - 1);
      }
      if ComesBefore(a[1..], b[1..]) {
        var n: nat :| FirstDifference(a[1..], b[1..], n) && (n == |a[1..]| || a[1..][n] < b[1..][n]);
        assert a[..n + 1] == [a[0]] + a[1..][..n] && b[..n + 1] == [b[0]] + b[1..][..n];
        assert FirstDifference(a, b, n + 1);
      }
    } else if b != [] {
      assert a[..0] == b[..0];
      assert FirstDifference(a, b, 0);
      if ComesBefore(a, b) {
        var n: nat :| FirstDifference(a, b, n) && (n == |a| || a[n] < b[n]);
        if n > 0 {
          DifferFromStart(a, b, n);
        }
      }
    }
  }

  lemma {:induction false} LessTrichotomy(a: Bytes, b: Bytes)
    ensures Less(a, b) || a == b || Less(b, a)
    ensures !(Less(a, b) && Less(b, a)) && !(Less(a, b) && a == b)
  {
    if a != [] && b != [] {
      LessTrichotomy(a[1..], b[1..]);
      assert a == [a[0]] + a[1..] && b == [b[0]] + b[1..];
    }
  }

  lemma {:induction false} LessTransitive(a: Bytes, b: Bytes, c: Bytes)
    requires Less(a, b) && Less(b, c)
    ensures Less(a, c)
  {
    if a != [] && a[0] == b[0] == c[0] {
      LessTransitive(a[1..], b[1..], c[1..]);
    }
  }

  ghost predicate DistinctKeys(es: seq<StorageEntry>) {
    forall i, j :: 0 <= i < j < |es| ==> es[i].key != es[j].key
  }

  ghost predicate StrictlySorted(es: seq<StorageEntry>) {
    forall i, j :: 0 <= i < j < |es| ==> Less(es[i].key, es[j].key)
  }

  ghost predicate InByteOrder(es: seq<StorageEntry>) {
    forall i, j :: 0 <= i < j < |es| ==> ComesBefore(es[i].key, es[j].key)
  }

  lemma SortedIsByteOrder(es: seq<StorageEntry>)
    ensures StrictlySorted(es) <==> InByteOrder(es)
  {
    hide Less, ComesBefore;
    forall i, j | 0 <= i < j < |es|
      ensures Less(es[i].key, es[j].key) <==> ComesBefore(es[i].key, es[j].key)
    {
      LessExact(es[i].key, es[j].key);
    }
  }

  function InsertSorted(e: StorageEntry, es: seq<StorageEntry>): seq<StorageEntry> {
    if es == [] || Less(e.key, es[0].key) then [e] + es else [es[0]] + InsertSorted(e, es[1..])
  }

  /** `std::sort` of entries with distinct keys. */
  function Sort(es: seq<StorageEntry>): seq<StorageEntry> {
    if es == [] then [] else InsertSorted(es[0], Sort(es[1..]))
  }

  lemma {:induction false} InsertSortedIsSorted(e: StorageEntry, es: seq<StorageEntry>)
    requires StrictlySorted(es)
    requires forall i :: 0 <= i < |es| ==> es[i].key != e.key
    ensures StrictlySorted(InsertSorted(e, es))
    ensures multiset(InsertSorted(e, es)) == multiset(es) + multiset{e}
    ensures forall x :: x in InsertSorted(e, es) <==> x == e || x in es
  {
    if es == [] {
    } else if Less(e.key, es[0].key) {
      forall j | 0 < j < |es|
        ensures Less(e.key, es[j].key)
      {
        LessTransitive(e.key, es[0].key, es[j].key);
      }
    } else {
      LessTrichotomy(e.key, es[0].key);
      InsertSortedIsSorted(e, es[1..]);
      var rest := InsertSorted(e, es[1..]);
      assert es == [es[0]] + es[1..];
      forall j | 0 <= j < |rest|
        ensures Less(es[0].key, rest[j].key)
      {
        assert rest[j] in rest;
      }
    }
  }

  lemma {:induction false} SortIsSorted(es: seq<StorageEntry>)
    requires DistinctKeys(es)
    ensures StrictlySorted(Sort(es)) && InByteOrder(Sort(es))
    ensures multiset(Sort(es)) == multiset(es)
    ensures forall x :: x in Sort(es) <==> x in es
  {
    if es != [] {
      SortIsSorted(es[1..]);
      assert es == [es[0]] + es[1..];
      forall i | 0 <= i < |Sort(es[1..])|
        ensures Sort(es[1..])[i].key != es[0].key
      {
        assert Sort(es[1..])[i] in es[1..];
      }
      hide InByteOrder;
      InsertSortedIsSorted(es[0], Sort(es[1..]));
    }
    SortedIsByteOrder(Sort(es));
  }

  // ---------------------------------------------------------------- meaning

  /** The map that a list of entries stands for. */
  function MemoryOf(es: seq<StorageEntry>): Memory {
    if es == [] then
      map[]
    else
      MemoryOf(es[..|es| - 1])[es[|es| - 1].key := es[|es| - 1].Binding()]
  }

  lemma {:induction false} MemoryOfKeys(es: seq<StorageEntry>, key: Bytes)
    ensures key in MemoryOf(es) <==> exists i :: 0 <= i < |es| && es[i].key == key
  {
    if es != [] {
      var n := |es| - 1;
      MemoryOfKeys(es[..n], key);
      if key in MemoryOf(es[..n]) {
        var i :| 0 <= i < n && es[..n][i].key == key;
        assert es[i].key == key;
      }
      if exists i :: 0 <= i < n && es[i].key == key {
        var i :| 0 <= i < n && es[i].key == key;
        assert es[..n][i].key == key;
      }
    }
  }

  lemma {:induction false} MemoryOfAt(es: seq<StorageEntry>, i: nat)
    requires DistinctKeys(es) && i < |es|
    ensures es[i].key in MemoryOf(es) && MemoryOf(es)[es[i].key] == es[i].Binding()
  {
    if i < |es| - 1 {
      MemoryOfAt(es[..|es| - 1], i);
    }
  }

  lemma SortedKeysAreDistinct(es: seq<StorageEntry>)
    requires StrictlySorted(es)
    ensures DistinctKeys(es)
  {
    forall i, j | 0 <= i < j < |es|
      ensures es[i].key != es[j].key
    {
      LessTrichotomy(es[i].key, es[j].key);
    }
  }

  /** Lists of distinct keys with the same entries stand for the same map. */
  lemma MemoryOfSameEntries(a: seq<StorageEntry>, b: seq<StorageEntry>)
    requires DistinctKeys(a) && DistinctKeys(b)
    requires forall x :: x in a <==> x in b
    ensures MemoryOf(a) == MemoryOf(b)
  {
    forall key
      ensures key in MemoryOf(a) <==> key in MemoryOf(b)
      ensures key in MemoryOf(a) && key in MemoryOf(b) ==> MemoryOf(a)[key] == MemoryOf(b)[key]
    {
      MemoryOfSubset(a, b, key);
      MemoryOfSubset(b, a, key);
    }
  }

  lemma MemoryOfSubset(a: seq<StorageEntry>, b: seq<StorageEntry>, key: Bytes)
    requires DistinctKeys(a) && DistinctKeys(b)
    requires forall x :: x in a ==> x in b
    ensures key in MemoryOf(a) ==> key in MemoryOf(b) && MemoryOf(a)[key] == MemoryOf(b)[key]
  {
    MemoryOfKeys(a, key);
    if key in MemoryOf(a) {
      var i :| 0 <= i < |a| && a[i].key == key;
      assert a[i] in b;
      var j :| 0 <= j < |b| && b[j] == a[i];
      MemoryOfAt(a, i);
      MemoryOfAt(b, j);
    }
  }

  // ---------------------------------------------------------------- files

  function EntryFields(e: StorageEntry): seq<Field> {
    [Blob(1, e.key)] + (if e.value.Some? then [Blob(2, e.value.value)] else []) + [Number(3, e.version)]
  }

  predicate Fits(e: StorageEntry) {
    |EncodeFields(EntryFields(e))| < MAX_SIZE
  }

  function EncodeEntry(e: StorageEntry): Bytes {
    EncodeFrame(EncodeFields(EntryFields(e)))
  }

  predicate HasBlob(fs: seq<Field>, num: nat) {
    fs != [] && ((fs[0].Blob? && fs[0].num == num) || HasBlob(fs[1..], num))
  }

  lemma {:induction false} HasBlobExact(fs: seq<Field>, num: nat)
    ensures HasBlob(fs, num) <==> exists i :: 0 <= i < |fs| && fs[i].Blob? && fs[i].num == num
  {
    if fs != [] {
      HasBlobExact(fs[1..], num);
      if i :| 0 <= i < |fs| && fs[i].Blob? && fs[i].num == num {
        assert i > 0 ==> fs[1..][i - 1] == fs[i];
      }
    }
  }

  /** A `persistent.Entry` message; a missing value is a tombstone. */
  function EntryOf(fs: seq<Field>): StorageEntry {
    StorageEntry(GetBlob(fs, 1, []), if HasBlob(fs, 2) then Some(GetBlob(fs, 2, [])) else None, GetNumber(fs, 3, 0))
  }

  /** `ReadEntryAt`: seeks and parses one entry. */
  function ReadEntryAt(data: Bytes, offset: nat): Result<StorageEntry> {
    if offset > |data| then Err else
    match ReadFrame(data[offset..])
    case Eof => Err
    case Bad => Err
    case Good(body, _) =>
      match ParseFields(body)
      case None => Err
      case Some(fs) => Ok(EntryOf(fs))
  }

  function EncodeEntries(es: seq<StorageEntry>): Bytes {
    if es == [] then [] else EncodeEntries(es[..|es| - 1]) + EncodeEntry(es[|es| - 1])
  }

  /** Where the i-th frame starts. */
  function OffsetOf(es: seq<StorageEntry>, i: nat): nat
    requires i <= |es|
  {
    |EncodeEntries(es[..i])|
  }

  function Offsets(es: seq<StorageEntry>): seq<nat> {
    seq(|es|, i requires 0 <= i < |es| => OffsetOf(es, i))
  }

  lemma EntryFieldsRoundTrip(e: StorageEntry)
    requires Fits(e)
    ensures ParseFields(EncodeFields(EntryFields(e))) == Some(EntryFields(e))
    ensures EntryOf(EntryFields(e)) == e
  {
    var fs := EntryFields(e);
    forall i | 0 <= i < |fs|
      ensures ValidField(fs[i])
    {
      if fs[i].Blob? {
        FieldsLength(fs, i);
      }
    }
    FieldsRoundTrip(fs);
    EntryOfFields(e);
  }

  lemma EntryOfFields(e: StorageEntry)
    ensures EntryOf(EntryFields(e)) == e
  {
    var fs := EntryFields(e);
    if e.value.Some? {
      assert fs[..2] == [Blob(1, e.key), Blob(2, e.value.value)] && fs[..2][..1] == [Blob(1, e.key)];
      assert GetBlob(fs, 1, []) == GetBlob(fs[..2], 1, []) == GetBlob(fs[..2][..1], 1, []);
      assert fs[1..] == [Blob(2, e.value.value), Number(3, e.version)] && HasBlob(fs[1..], 2);
      assert GetBlob(fs, 2, []) == GetBlob(fs[..2], 2, []) == e.value.value;
    } else {
      assert fs[..1] == [Blob(1, e.key)];
      assert fs[1..] == [Number(3, e.version)] && fs[1..][1..] == [];
      assert !HasBlob(fs[1..], 2);
      assert GetBlob(fs, 1, []) == GetBlob(fs[..1], 1, []);
    }
  }

  /** The very bytes of an entry with short strings and a small version; a tombstone has no field 2. */
  lemma EntryBytes(e: StorageEntry)
    requires |e.key| + (if e.value.Some? then |e.value.value| else 0) < 100 && e.version < 128
    ensures EncodeEntry(e) ==
            match e.value
            case Some(value) =>
              [|e.key| + |value| + 6] + ([10, |e.key|] + e.key + ([18, |value|] + value) + [24, e.version])
            case None => [|e.key| + 4] + ([10, |e.key|] + e.key + [24, e.version])
  {
    var fs := EntryFields(e);
    if e.value.Some? {
      assert fs == [Blob(1, e.key), Blob(2, e.value.value), Number(3, e.version)];
      ThreeShort(Blob(1, e.key), Blob(2, e.value.value), Number(3, e.version));
    } else {
      assert fs == [Blob(1, e.key), Number(3, e.version)];
      TwoShort(Blob(1, e.key), Number(3, e.version));
    }
    hide EncodeFields, EntryFields;
    assert EncodeVarint(|EncodeFields(fs)|) == [|EncodeFields(fs)|];
  }

  lemma ReadEncodedEntry(before: Bytes, e: StorageEntry, after: Bytes)
    requires Fits(e)
    ensures ReadEntryAt(before + EncodeEntry(e) + after, |before|) == Ok(e)
  {
    hide EntryOf, ReadFrame, EncodeFrame;
    ConcatIsAssociative(before, EncodeEntry(e), after);
    DropFirst(before, EncodeEntry(e) + after);
    FrameRoundTrip(EncodeFields(EntryFields(e)), after);
    EntryFieldsRoundTrip(e);
  }

  lemma {:induction false} EncodeEntriesSplit(es: seq<StorageEntry>, i: nat) returns (after: Bytes)
    requires i < |es|
    ensures EncodeEntries(es) == EncodeEntries(es[..i]) + EncodeEntry(es[i]) + after
  {
    hide EncodeEntry;
    var n := |es| - 1;
    if i == n {
      after := [];
    } else {
      var more := EncodeEntriesSplit(es[..n], i);
      assert es[..n][..i] == es[..i];
      after := more + EncodeEntry(es[n]);
      ConcatIsAssociative(EncodeEntries(es[..i]) + EncodeEntry(es[i]), more, EncodeEntry(es[n]));
    }
  }

  /** The i-th offset leads to the i-th entry, tombstones included. */
  lemma ReadAtOffset(es: seq<StorageEntry>, i: nat)
    requires i < |es| && Fits(es[i])
    ensures ReadEntryAt(EncodeEntries(es), OffsetOf(es, i)) == Ok(es[i])
  {
    hide ReadEntryAt, EncodeEntry;
    var after := EncodeEntriesSplit(es, i);
    ReadEncodedEntry(EncodeEntries(es[..i]), es[i], after);
  }

  lemma OffsetsIncrease(es: seq<StorageEntry>, i: nat)
    requires i < |es|
    ensures OffsetOf(es, i) < OffsetOf(es, i + 1)
  {
    assert es[..i + 1][..i] == es[..i];
  }

  // ---------------------------------------------------------------- the index file

  const MAX_FILE := 0x8000_0000_0000_0000

  function IndexFields(index: seq<nat>): seq<Field> {
    [Number(1, |index|)] + seq(|index|, i requires 0 <= i < |index| => Number(2, index[i]))
  }

  /** The numbers of every field `num`, in order. */
  function Numbers(fs: seq<Field>, num: nat): seq<nat> {
    if fs == [] then
      []
    else
      Numbers(fs[..|fs| - 1], num)
      + (if fs[|fs| - 1].Number? && fs[|fs| - 1].num == num then [fs[|fs| - 1].n] else [])
  }

  function EncodeIndex(index: seq<nat>): Bytes {
    EncodeFields(IndexFields(index))
  }

  function DecodeIndex(bs: Bytes): Option<seq<nat>> {
    match ParseFields(bs)
    case None => None
    case Some(fs) => Some(Numbers(fs, 2))
  }

  lemma {:induction false} NumbersOfIndex(index: seq<nat>)
    ensures Numbers(IndexFields(index), 2) == index
  {
    // the count in front is field 1, so only the offsets after it are collected
    var fs := IndexFields(index);
    var k := 0;
    while k < |index|
      invariant k <= |index|
      invariant Numbers(fs[..k + 1], 2) == index[..k]
    {
      assert fs[..k + 2][..k + 1] == fs[..k + 1];
      assert index[..k + 1] == index[..k] + [index[k]];
      k := k + 1;
    }
    assert fs[..k + 1] == fs;
  }

  lemma IndexRoundTrip(index: seq<nat>)
    requires |index| < MAX_FILE && forall i :: 0 <= i < |index| ==> index[i] < MAX_FILE
    ensures DecodeIndex(EncodeIndex(index)) == Some(index)
  {
    FieldsRoundTrip(IndexFields(index));
    NumbersOfIndex(index);
  }

  lemma {:induction false} NoOtherNumbers(fs: seq<Field>, num: nat)
    requires forall i :: 0 <= i < |fs| ==> fs[i].num != num
    ensures Numbers(fs, num) == []
  {
    if fs != [] {
      NoOtherNumbers(fs[..|fs| - 1], num);
    }
  }

  lemma {:induction false} NumbersTogether(a: seq<Field>, b: seq<Field>, num: nat)
    ensures Numbers(a + b, num) == Numbers(a, num) + Numbers(b, num)
  {
    if b == [] {
      assert a + b == a;
    } else {
      var n := |b| - 1;
      NumbersTogether(a, b[..n], num);
      assert (a + b)[..|a + b| - 1] == a + b[..n];
    }
  }

  /** A reader of the message finds `map_size`, field 1, once and equal to the number of offsets, all in field 2. */
  lemma IndexMessage(index: seq<nat>)
    requires |index| < MAX_FILE && forall i :: 0 <= i < |index| ==> index[i] < MAX_FILE
    ensures ParseFields(EncodeIndex(index)).Some?
    ensures var fs := ParseFields(EncodeIndex(index)).value;
            |fs| == 1 + |index| && Numbers(fs, 1) == [|index|] && Numbers(fs, 2) == index
  {
    var fs := IndexFields(index);
    FieldsRoundTrip(fs);
    NumbersOfIndex(index);
    NumbersTogether([fs[0]], fs[1..], 1);
    NoOtherNumbers(fs[1..], 1);
    assert [fs[0]] + fs[1..] == fs && [fs[0]][..0] == [];
  }

  /** Protocol Buffers refuses to write a message of 2 GB or more. */
  predicate IndexFits(index: seq<nat>) {
    |EncodeIndex(index)| < MAX_SIZE
  }

  /** What the index file holds: a refusal leaves it empty, and the result of the write is ignored. */
  function IndexFile(index: seq<nat>): Bytes {
    if IndexFits(index) then EncodeIndex(index) else []
  }

  /** The offsets that are loaded are the ones that were written exactly when there are none or they fit. */
  lemma IndexFileExact(index: seq<nat>)
    requires |index| < MAX_FILE && forall i :: 0 <= i < |index| ==> index[i] < MAX_FILE
    ensures DecodeIndex(IndexFile(index)) == Some(index) <==> index == [] || IndexFits(index)
    ensures DecodeIndex(IndexFile(index)) == Some(if IndexFits(index) then index else [])
  {
    IndexRoundTrip(index);
    hide EncodeIndex;
    assert DecodeIndex([]) == Some([]);
  }

  lemma {:induction false} FieldsAtLeast(fs: seq<Field>, least: nat)
    requires forall i :: 0 <= i < |fs| ==> least <= |EncodeField(fs[i])|
    ensures least * |fs| <= |EncodeFields(fs)|
  {
    hide EncodeField;
    if fs != [] {
      FieldsAtLeast(fs[1..], least);
    }
  }

  lemma {:induction false} FieldsAtMost(fs: seq<Field>, most: nat)
    requires forall i :: 0 <= i < |fs| ==> |EncodeField(fs[i])| <= most
    ensures |EncodeFields(fs)| <= most * |fs|
  {
    hide EncodeField;
    if fs != [] {
      FieldsAtMost(fs[1..], most);
    }
  }

  const MANY_KEYS := 200_000_000

  /** A table of up to 200 million entries has an index that fits; one of 2^30 entries or more has not. */
  lemma IndexSize(index: seq<nat>)
    requires forall i :: 0 <= i < |index| ==> index[i] < MAX_FILE
    ensures |index| <= MANY_KEYS ==> IndexFits(index)
    ensures 0x4000_0000 <= |index| ==> !IndexFits(index)
  {
    var fs := IndexFields(index);
    ManyFields(fs);
    if |index| <= MANY_KEYS {
      forall i | 0 <= i < |fs|
        ensures |EncodeField(fs[i])| <= 10
      {
        OffsetSize(if i == 0 then 1 else 2, if i == 0 then |index| else index[i - 1]);
      }
      hide EncodeField, EncodeFields;
      FieldsAtMost(fs, 10);
    }
  }

  lemma OffsetSize(num: nat, n: nat)
    requires 1 <= num < 15 && n < MAX_FILE
    ensures |EncodeField(Number(num, n))| <= 10
  {
    assert Power128(9) == MAX_FILE by {
      assert Power128(3) == 0x20_0000;
      assert Power128(6) == 0x400_0000_0000;
    }
    VarintLength(n, 9);
    assert |EncodeVarint(num * 8)| == 1;
  }

  lemma ManyFields(fs: seq<Field>)
    requires forall i :: 0 <= i < |fs| ==> fs[i].Number?
    ensures 2 * |fs| <= |EncodeFields(fs)|
  {
    forall i | 0 <= i < |fs|
      ensures 2 <= |EncodeField(fs[i])|
    {
      assert EncodeVarint(fs[i].num * 8) != [] && EncodeVarint(fs[i].n) != [];
    }
    FieldsAtLeast(fs, 2);
  }

  // ---------------------------------------------------------------- tables

  /** An open table: its file name, the bytes behind its descriptor, and the offsets held in memory. */
  datatype Table = Table(name: Bytes, data: Bytes, index: seq<nat>) {

    function Read(i: nat): Result<StorageEntry>
      requires i < |index|
    {
      ReadEntryAt(data, index[i])
    }

    ghost predicate Readable() {
      forall i :: 0 <= i < |index| ==> Read(i).Ok?
    }

    function Entry(i: nat): StorageEntry
      requires i < |index| && Read(i).Ok?
    {
      Read(i).value
    }

    ghost function Entries(): (es: seq<StorageEntry>)
      requires Readable()
      ensures |es| == |index| && forall i :: 0 <= i < |es| ==> es[i] == Entry(i)
    {
      seq(|index|, i requires 0 <= i < |index| => Entry(i))
    }

    /** What a reload of the table's two files gives: all its offsets, or none when the index did not fit. */
    function Saved(): Table {
      if IndexFits(index) then this else this.(index := [])
    }

    ghost predicate WellFormed() {
      Readable() && StrictlySorted(Entries())
    }

    /** The map that the table stands for. */
    ghost function View(): Memory
      requires WellFormed()
    {
      MemoryOf(Entries())
    }

    /** `PersistentStorage::Get`: `std::lower_bound` over the offsets, then one comparison. */
    method Get(key: Bytes) returns (r: Result<StorageEntry>)
      requires WellFormed()
      ensures r.Ok? <==> key in View()
      ensures r.Ok? ==> r.value == StorageEntry(key, View()[key].value, View()[key].version)
    {
      hide ReadEntryAt, MemoryOf, Less;
      ghost var es := Entries();
      var first, len := 0, |index|;
      while len > 0
        invariant 0 <= first && 0 <= len && first + len <= |index|
        invariant forall i :: 0 <= i < first ==> Less(es[i].key, key)
        invariant forall i :: first + len <= i < |es| ==> !Less(es[i].key, key)
      {
        var half := len / 2;
        var middle := first + half;
        if Less(Entry(middle).key, key) {
          SmallerBefore(es, middle, key);
          first, len := middle + 1, len - half - 1;
        } else {
          LargerAfter(es, middle, key);
          len := half;
        }
      }
      SearchEnds(es, first, key);
      if first < |index| && Entry(first).key == key {
        return Ok(Entry(first));
      }
      return Err;
    }
  }

  /** Where the search ends is the only place where the key can be. */
  lemma SearchEnds(es: seq<StorageEntry>, first: nat, key: Bytes)
    requires StrictlySorted(es) && first <= |es|
    requires forall i :: 0 <= i < first ==> Less(es[i].key, key)
    requires forall i :: first <= i < |es| ==> !Less(es[i].key, key)
    ensures key in MemoryOf(es) <==> first < |es| && es[first].key == key
    ensures key in MemoryOf(es) ==> es[first] == StorageEntry(key, MemoryOf(es)[key].value, MemoryOf(es)[key].version)
  {
    MemoryOfKeys(es, key);
    SortedKeysAreDistinct(es);
    if first < |es| && es[first].key == key {
      MemoryOfAt(es, first);
    }
    forall i | 0 <= i < |es| && i != first
      ensures es[i].key != key
    {
      LessTrichotomy(es[i].key, key);
      if first < i {
        assert Less(es[first].key, es[i].key);
      }
    }
  }

  lemma SmallerBefore(es: seq<StorageEntry>, m: nat, key: Bytes)
    requires StrictlySorted(es) && m < |es| && Less(es[m].key, key)
    ensures forall i :: 0 <= i <= m ==> Less(es[i].key, key)
  {
    forall i | 0 <= i < m
      ensures Less(es[i].key, key)
    {
      LessTransitive(es[i].key, es[m].key, key);
    }
  }

  lemma LargerAfter(es: seq<StorageEntry>, m: nat, key: Bytes)
    requires StrictlySorted(es) && m < |es| && !Less(es[m].key, key)
    ensures forall i :: m <= i < |es| ==> !Less(es[i].key, key)
  {
    forall i | m < i < |es|
      ensures !Less(es[i].key, key)
    {
      if Less(es[i].key, key) {
        SmallerBefore(es, i, key);
      }
    }
  }

  /** A new table together with the bytes of its index file. */
  datatype Built = Built(table: Table, indexFile: Bytes)

  ghost predicate Buildable(es: seq<StorageEntry>) {
    && (forall i :: 0 <= i < |es| ==> Fits(es[i]))
    && |EncodeEntries(es)| < MAX_FILE
  }

  /** The sizes: each entry below 2 GB, for Protocol Buffers, and the data file below 2^63 bytes, for an offset. */
  lemma BuildableExact(entries: seq<StorageEntry>)
    requires DistinctKeys(entries)
    ensures Buildable(Sort(entries)) <==>
            && (forall e :: e in entries ==> |EncodeFields(EntryFields(e))| < 0x8000_0000)
            && |EncodeEntries(Sort(entries))| < 0x8000_0000_0000_0000
  {
    SortIsSorted(entries);
    hide Sort, EncodeEntries, EncodeFields, EntryFields, DistinctKeys, InByteOrder, StrictlySorted;
    assert forall i :: 0 <= i < |Sort(entries)| ==> Sort(entries)[i] in Sort(entries);
  }

  /** The entries fit in a table, in whatever order they are collected. */
  ghost predicate Storable(memory: Memory) {
    forall es :: DistinctKeys(es) && MemoryOf(es) == memory ==> Buildable(Sort(es))
  }

  lemma NoMembers(a: seq<StorageEntry>)
    ensures (forall x :: x !in a) <==> a == []
  {
    assert a != [] ==> a[0] in a;
  }

  /** Two strictly sorted lists of the same entries are the same list. */
  lemma {:induction false} SortedIsUnique(a: seq<StorageEntry>, b: seq<StorageEntry>)
    requires StrictlySorted(a) && StrictlySorted(b) && forall x :: x in a <==> x in b
    ensures a == b
  {
    if a == [] {
      NoMembers(b);
    } else if b == [] {
      NoMembers(a);
    } else {
      FirstIsLeast(a, b);
      FirstIsLeast(b, a);
      LessTrichotomy(a[0].key, b[0].key);
      assert a[0] == b[0];
      WithoutFirst(a);
      WithoutFirst(b);
      SortedIsUnique(a[1..], b[1..]);
      assert a == [a[0]] + a[1..] && b == [b[0]] + b[1..];
    }
  }

  lemma FirstIsLeast(a: seq<StorageEntry>, b: seq<StorageEntry>)
    requires StrictlySorted(a) && a != [] && b != [] && b[0] in a
    ensures b[0] == a[0] || Less(a[0].key, b[0].key)
  {
  }

  lemma WithoutFirst(a: seq<StorageEntry>)
    requires StrictlySorted(a) && a != []
    ensures StrictlySorted(a[1..]) && forall x :: x in a[1..] <==> x in a && x != a[0]
  {
    assert a == [a[0]] + a[1..];
    forall i | 0 < i < |a|
      ensures a[i] != a[0]
    {
      LessTrichotomy(a[0].key, a[i].key);
    }
  }

  lemma SortOfSameMemory(a: seq<StorageEntry>, b: seq<StorageEntry>)
    requires DistinctKeys(a) && DistinctKeys(b) && MemoryOf(a) == MemoryOf(b)
    ensures Sort(a) == Sort(b)
  {
    SameMemorySameEntries(a, b);
    SameMemorySameEntries(b, a);
    SortIsSorted(a);
    SortIsSorted(b);
    hide Sort, StrictlySorted, MemoryOf, InByteOrder, DistinctKeys;
    SortedIsUnique(Sort(a), Sort(b));
  }

  lemma SameMemorySameEntries(a: seq<StorageEntry>, b: seq<StorageEntry>)
    requires DistinctKeys(a) && DistinctKeys(b) && MemoryOf(a) == MemoryOf(b)
    ensures forall x :: x in a ==> x in b
  {
    forall x | x in a
      ensures x in b
    {
      var i :| 0 <= i < |a| && a[i] == x;
      MemoryOfAt(a, i);
      MemoryOfKeys(b, x.key);
      var j :| 0 <= j < |b| && b[j].key == x.key;
      MemoryOfAt(b, j);
      assert b[j] == x;
    }
  }

  /** Whether entries can become a table depends on their map alone, not on the order they are collected in. */
  lemma StorableExact(memory: Memory, es: seq<StorageEntry>)
    requires DistinctKeys(es) && MemoryOf(es) == memory
    ensures Storable(memory) <==> Buildable(Sort(es))
  {
    hide Buildable, Sort, MemoryOf, DistinctKeys;
    forall other | DistinctKeys(other) && MemoryOf(other) == memory
      ensures Sort(other) == Sort(es)
    {
      SortOfSameMemory(other, es);
    }
  }

  ghost function TableOf(name: Bytes, es: seq<StorageEntry>): Table {
    Table(name, EncodeEntries(es), Offsets(es))
  }

  /**
   `NewPersistentStorage`, apart from creating the two files. It fails when an entry is too large for a
   message or the data file for an offset.
   */
  method NewPersistentStorage(name: Bytes, entries: seq<StorageEntry>) returns (r: Result<Built>)
    requires DistinctKeys(entries)
    ensures r.Ok? <==> Buildable(Sort(entries))
    ensures r.Ok? ==> r.value.table == TableOf(name, Sort(entries))
    ensures r.Ok? ==> r.value.indexFile == IndexFile(r.value.table.index)
  {
    hide EncodeEntry, Fits, EncodeIndex, IndexFile;
    var data := Sort(entries);
    var f: Bytes := [];
    var index: seq<nat> := [];
    var i := 0;
    while i < |data|
      invariant i <= |data|
      invariant f == EncodeEntries(data[..i]) && |f| < MAX_FILE
      invariant |index| == i && forall j :: 0 <= j < i ==> index[j] == OffsetOf(data, j)
      invariant forall j :: 0 <= j < i ==> Fits(data[j])
    {
      index := index + [|f|];
      var grown := f + EncodeEntry(data[i]);
      assert data[..i + 1][..i] == data[..i];
      if !Fits(data[i]) || MAX_FILE <= |grown| {
        EncodeEntriesGrow(data, i + 1);
        return Err;
      }
      f := grown;
      i := i + 1;
    }
    assert data[..i] == data;
    assert index == Offsets(data);
    return Ok(Built(Table(name, f, index), IndexFile(index)));
  }

  lemma {:induction false} EncodeEntriesGrow(es: seq<StorageEntry>, i: nat)
    requires i <= |es|
    ensures |EncodeEntries(es[..i])| <= |EncodeEntries(es)|
    ensures i <= |EncodeEntries(es[..i])|
  {
    hide EncodeEntry;
    if i < |es| {
      EncodeEntriesGrow(es[..|es| - 1], i);
      assert es[..|es| - 1][..i] == es[..i];
    } else {
      assert es[..i] == es;
      EncodeEntriesLength(es);
    }
  }

  lemma {:induction false} EncodeEntriesLength(es: seq<StorageEntry>)
    ensures |es| <= |EncodeEntries(es)|
  {
    if es != [] {
      EncodeEntriesLength(es[..|es| - 1]);
    }
  }

  /**
   The table built from entries with distinct keys: its offsets strictly increase, the i-th leads to the
   i-th entry in key order, and the table stands for exactly the given entries.
   */
  lemma TableIsFaithful(name: Bytes, entries: seq<StorageEntry>)
    requires DistinctKeys(entries) && Buildable(Sort(entries))
    ensures var t := TableOf(name, Sort(entries));
            && t.WellFormed() && t.Entries() == Sort(entries) && InByteOrder(t.Entries())
            && t.View() == MemoryOf(entries)
            && (forall i, j :: 0 <= i < j < |t.index| ==> t.index[i] < t.index[j])
  {
    hide ReadEntryAt, EncodeIndex, DecodeIndex, IndexFile, IndexFits;
    var es := Sort(entries);
    var t := TableOf(name, es);
    SortIsSorted(entries);
    forall i | 0 <= i < |es|
      ensures t.Read(i) == Ok(es[i])
    {
      ReadAtOffset(es, i);
    }
    assert t.Entries() == es;
    SortedKeysAreDistinct(es);
    MemoryOfSameEntries(es, entries);
    OffsetsSorted(es);
  }

  /**
   The index file of the table: a reload gives all offsets when the index fits in a message, which it does up to
   200 million keys, and otherwise none.
   */
  lemma TableIsSaved(name: Bytes, entries: seq<StorageEntry>)
    requires DistinctKeys(entries) && Buildable(Sort(entries))
    ensures var t := TableOf(name, Sort(entries));
            && DecodeIndex(IndexFile(t.index)) == Some(t.Saved().index)
            && |t.index| == |MemoryOf(entries)| && (|t.index| <= MANY_KEYS ==> IndexFits(t.index))
  {
    hide EncodeIndex, DecodeIndex, IndexFile, IndexFits, Sort, MemoryOf, EncodeEntries, EncodeEntry;
    var es := Sort(entries);
    EncodeEntriesLength(es);
    OffsetsSorted(es);
    var t := TableOf(name, es);
    assert forall i :: 0 <= i < |t.index| ==> t.index[i] == OffsetOf(es, i);
    IndexFileExact(t.index);
    IndexSize(t.index);
    MemoryOfSize(entries);
    SameLength(entries);
  }

  /** What the rest of the program needs of a new table. */
  lemma NewTable(name: Bytes, entries: seq<StorageEntry>)
    requires DistinctKeys(entries) && Buildable(Sort(entries))
    ensures var t := TableOf(name, Sort(entries));
            t.WellFormed() && t.View() == MemoryOf(entries) && (|t.View()| <= MANY_KEYS ==> IndexFits(t.index))
  {
    TableIsFaithful(name, entries);
    TableIsSaved(name, entries);
    hide IndexFits, Sort, MemoryOf, TableOf, Table.View, Table.WellFormed, Table.Entries, Buildable, IndexFile;
  }

  lemma SameLength(es: seq<StorageEntry>)
    requires DistinctKeys(es)
    ensures |Sort(es)| == |es|
  {
    SortIsSorted(es);
    assert |multiset(Sort(es))| == |multiset(es)|;
  }

  lemma {:induction false} MemoryOfSize(es: seq<StorageEntry>)
    requires DistinctKeys(es)
    ensures |MemoryOf(es)| == |es|
  {
    if es != [] {
      var n := |es| - 1;
      var before := MemoryOf(es[..n]);
      MemoryOfSize(es[..n]);
      MemoryOfKeys(es[..n], es[n].key);
      assert es[n].key !in before;
      assert MemoryOf(es).Keys == before.Keys + {es[n].key};
      assert |MemoryOf(es)| == |MemoryOf(es).Keys| && |before| == |before.Keys|;
    }
  }

  lemma OffsetsSorted(es: seq<StorageEntry>)
    ensures forall i, j :: 0 <= i < j < |es| ==> OffsetOf(es, i) < OffsetOf(es, j)
    ensures forall i :: 0 <= i < |es| ==> OffsetOf(es, i) <= |EncodeEntries(es)|
  {
    forall i, j | 0 <= i < j < |es|
      ensures OffsetOf(es, i) < OffsetOf(es, j)
    {
      OffsetsIncrease(es, i);
      EncodeEntriesGrow(es[..j], i + 1);
      assert es[..j][..i + 1] == es[..i + 1];
    }
    forall i | 0 <= i < |es|
      ensures OffsetOf(es, i) <= |EncodeEntries(es)|
    {
      EncodeEntriesGrow(es, i);
    }
  }
}
