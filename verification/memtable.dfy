/** The memory table: maps with tombstones, and the double buffer that is swapped under traffic. */
module Memtable {
  import opened Wrappers
  import opened Kv
  import opened Tables

  /**
   The double buffer as a value. Buffers are known by number, because two of the three references may be
   the same buffer; a buffer that is no longer referenced keeps its last contents here.
   */
  datatype Buffers = Buffers(buf: map<nat, Memory>, first: nat, second: nat, writer: nat, next: nat) {

    ghost predicate Valid() {
      && first in buf && second in buf
      && (writer == first || writer == second)
      && (forall id :: id in buf ==> id < next)
      && (writer != first ==> buf[first] == map[])
    }

    /** What a reader that sees everything finds: the first buffer over the second. */
    function Contents(): Memory
      requires first in buf && second in buf
    {
      buf[second] + buf[first]
    }

    function Write(op: Operation): Buffers
      requires writer in buf
    {
      this.(buf := buf[writer := ApplyOne(buf[writer], op)])
    }

    /** Step 1 of a swap: writes go to the first buffer from here on. */
    function SwitchWriter(): Buffers {
      this.(writer := first)
    }

    /** Step 4: the second reference now leads to the first buffer; the collected one is dropped. */
    function Exchange(): Buffers {
      this.(second := first)
    }

    /** Step 5: the first reference leads to a new, empty buffer. */
    function Renew(): Buffers {
      this.(buf := buf[next := map[]], first := next, next := next + 1)
    }
  }

  /** An engine that has just started, with its memory table in the second buffer. */
  function InitialBuffers(recovered: Memory): Buffers {
    Buffers(map[0 := map[], 1 := recovered], 0, 1, 1, 2)
  }

  /** It answers from the recovered table, and its writer goes on with it. */
  lemma InitialContents(recovered: Memory)
    ensures var b := InitialBuffers(recovered); b.Valid() && b.Contents() == recovered == b.buf[b.writer]
  {
  }

  // ---------------------------------------------------------------- the classes

  class MapStorage {
    ghost const id: nat
    var contents: Memory

    constructor (ghost id: nat, contents: Memory)
      ensures this.id == id && this.contents == contents
    {
      this.id, this.contents := id, contents;
    }

    method Get(key: Bytes) returns (r: Result<Value>)
      ensures r.Ok? <==> key in contents
      ensures r.Ok? ==> r.value == contents[key]
    {
      if key !in contents {
        return Err;
      }
      return Ok(contents[key]);
    }

    method Insert(key: Bytes, value: Bytes, version: uint64)
      modifies this
      ensures contents == old(contents)[key := Value(Some(value), version)]
    {
      contents := contents[key := Value(Some(value), version)];
    }

    /** A removal leaves a tombstone, so that the key is not looked up in older tables. */
    method Remove(key: Bytes, version: uint64)
      modifies this
      ensures contents == old(contents)[key := Value(None, version)]
    {
      contents := contents[key := Value(None, version)];
    }
  }

  /** `Apply`: replays operations into a storage. */
  method Replay(ops: seq<Operation>, storage: MapStorage)
    modifies storage
    ensures storage.contents == Apply(old(storage.contents), ops)
  {
    var i := 0;
    while i < |ops|
      invariant i <= |ops|
      invariant storage.contents == Apply(old(storage.contents), ops[..i])
    {
      assert ops[..i + 1][..i] == ops[..i];
      match ops[i] {
        case Insert(key, value, version) => storage.Insert(key, value, version);
        case Remove(key, version) => storage.Remove(key, version);
      }
      i := i + 1;
    }
    assert ops[..i] == ops;
  }

  /** `ToEntries`: one entry for each key, in no particular order. */
  method ToEntries(m: Memory) returns (es: seq<StorageEntry>)
    ensures DistinctKeys(es) && MemoryOf(es) == m
  {
    es := [];
    var keys := m.Keys;
    while keys != {}
      invariant keys <= m.Keys && DistinctKeys(es)
      invariant forall i :: 0 <= i < |es| ==> es[i].key !in keys
      invariant MemoryOf(es) == m - keys
    {
      var key :| key in keys;
      var e := StorageEntry(key, m[key].value, m[key].version);
      assert (es + [e])[..|es|] == es;
      assert m - (keys - {key}) == (m - keys)[key := e.Binding()];
      es, keys := es + [e], keys - {key};
    }
    assert m - {} == m;
  }

  class SwappableMemoryStorage {
    var readerFirst: MapStorage
    var readerSecond: MapStorage
    var writer: MapStorage

    /** The same state as a value. */
    ghost var view: Buffers

    ghost predicate Valid()
      reads this, readerFirst, readerSecond, writer
    {
      && view.Valid()
      && view.first == readerFirst.id && view.second == readerSecond.id && view.writer == writer.id
      && (writer == readerFirst || writer == readerSecond)
      && (readerFirst.id == readerSecond.id ==> readerFirst == readerSecond)
      && view.buf[view.first] == readerFirst.contents
      && view.buf[view.second] == readerSecond.contents
    }

    /** Starts from a recovered memory table, or from an empty one. */
    constructor (recovered: Memory)
      ensures Valid() && view == InitialBuffers(recovered)
      ensures fresh(readerFirst) && fresh(readerSecond) && fresh(writer)
    {
      readerFirst := new MapStorage(0, map[]);
      readerSecond := new MapStorage(1, recovered);
      writer := readerSecond;
      view := InitialBuffers(recovered);
    }

    method Get(key: Bytes) returns (r: Result<Value>)
      requires Valid()
      ensures r.Ok? <==> key in view.Contents()
      ensures r.Ok? ==> r.value == view.Contents()[key]
    {
      r := readerFirst.Get(key);
      if r.Ok? {
        return;
      }
      r := readerSecond.Get(key);
    }

    method Insert(key: Bytes, value: Bytes, version: uint64)
      requires Valid()
      modifies writer, this`view
      ensures Valid() && view == old(view).Write(Operation.Insert(key, value, version))
      ensures view.Contents() == old(view.Contents())[key := Value(Some(value), version)]
    {
      writer.Insert(key, value, version);
      view := view.Write(Operation.Insert(key, value, version));
    }

    method Remove(key: Bytes, version: uint64)
      requires Valid()
      modifies writer, this`view
      ensures Valid() && view == old(view).Write(Operation.Remove(key, version))
      ensures view.Contents() == old(view.Contents())[key := Value(None, version)]
    {
      writer.Remove(key, version);
      view := view.Write(Operation.Remove(key, version));
    }

    method Size() returns (n: nat)
      requires Valid()
      ensures n == |view.buf[view.writer]|
    {
      n := |writer.contents|;
    }

    /** `Collect`, Steps 1 to 3. */
    method Collect() returns (entries: seq<StorageEntry>)
      requires Valid()
      modifies this`writer, this`view
      ensures Valid() && view == old(view).SwitchWriter()
      ensures DistinctKeys(entries) && MemoryOf(entries) == view.buf[view.second]
    {
      writer := readerFirst;
      view := view.SwitchWriter();
      entries := ToEntries(readerSecond.contents);
    }

    /** `RemoveCollected`, Steps 4 and 5. */
    method RemoveCollected()
      requires Valid() && writer == readerFirst
      modifies this`readerFirst, this`readerSecond, this`view
      ensures Valid() && view == old(view).Exchange().Renew()
      ensures readerSecond == old(readerFirst) && fresh(readerFirst) && writer == readerSecond
    {
      readerSecond := readerFirst;
      view := view.Exchange();
      readerFirst := new MapStorage(view.next, map[]);
      view := view.Renew();
    }
  }
}
