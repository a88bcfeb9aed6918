/** The k-way merge that turns all tables into one. */
module Compaction {
  import opened Wrappers
  import opened Kv
  import opened Wire
  import opened Tables

  /** An iterator into table number `table`, standing at entry `pos`. */
  datatype Cursor = Cursor(table: nat, pos: nat)

  ghost predicate AllWellFormed(tables: seq<Table>) {
    forall i :: 0 <= i < |tables| ==> tables[i].WellFormed()
  }

  /** The maps that the tables stand for, oldest first. */
  ghost function Views(tables: seq<Table>): (views: seq<Memory>)
    requires AllWellFormed(tables)
    ensures |views| == |tables| && forall i :: 0 <= i < |views| ==> views[i] == tables[i].View()
  {
    seq(|tables|, i requires 0 <= i < |tables| => tables[i].View())
  }

  ghost predicate InRange(es: seq<seq<StorageEntry>>, c: Cursor) {
    c.table < |es| && c.pos < |es[c.table]|
  }

  /** The comparator of the queue: `a` yields to `b` when its key is larger or its table older. */
  predicate Yields(aKey: Bytes, aTable: nat, bKey: Bytes, bTable: nat) {
    if aKey == bKey then aTable < bTable else Less(bKey, aKey)
  }

  lemma YieldsTotal(aKey: Bytes, aTable: nat, bKey: Bytes, bTable: nat)
    requires aTable != bTable
    ensures Yields(aKey, aTable, bKey, bTable) <==> !Yields(bKey, bTable, aKey, aTable)
  {
    LessTrichotomy(aKey, bKey);
  }

  lemma YieldsTransitive(aKey: Bytes, a: nat, bKey: Bytes, b: nat, cKey: Bytes, c: nat)
    requires Yields(aKey, a, bKey, b) && Yields(bKey, b, cKey, c)
    ensures Yields(aKey, a, cKey, c)
  {
    LessTrichotomy(aKey, cKey);
    if aKey != bKey && bKey != cKey {
      LessTransitive(cKey, bKey, aKey);
    }
  }

  /** `pos[t]` entries of table t have been taken; every unfinished table has its cursor in the queue. */
  ghost predicate Queued(es: seq<seq<StorageEntry>>, pos: seq<nat>, queue: seq<Cursor>) {
    && |pos| == |es|
    && (forall t :: 0 <= t < |es| ==> pos[t] <= |es[t]|)
    && (forall i :: 0 <= i < |queue| ==> InRange(es, queue[i]) && queue[i].pos == pos[queue[i].table])
    && (forall i, j :: 0 <= i < j < |queue| ==> queue[i].table != queue[j].table)
    && (forall t :: 0 <= t < |es| && pos[t] < |es[t]| ==> Cursor(t, pos[t]) in queue)
  }

  ghost function KeyAt(es: seq<seq<StorageEntry>>, c: Cursor): Bytes
    requires InRange(es, c)
  {
    es[c.table][c.pos].key
  }

  ghost predicate IsTop(es: seq<seq<StorageEntry>>, queue: seq<Cursor>, top: nat)
    requires forall i :: 0 <= i < |queue| ==> InRange(es, queue[i])
  {
    && top < |queue|
    && forall i :: 0 <= i < |queue| && i != top ==>
         Yields(KeyAt(es, queue[i]), queue[i].table, KeyAt(es, queue[top]), queue[top].table)
  }

  ghost predicate HasKey(data: seq<StorageEntry>, key: Bytes) {
    exists i :: 0 <= i < |data| && data[i].key == key
  }

  /** What the loop has built: sorted, covering all entries taken, each with its newest binding. */
  ghost predicate Merged(es: seq<seq<StorageEntry>>, whole: Memory, pos: seq<nat>, data: seq<StorageEntry>)
    requires |pos| == |es| && forall t :: 0 <= t < |es| ==> pos[t] <= |es[t]|
  {
    && StrictlySorted(data)
    && (forall t, p :: 0 <= t < |es| && 0 <= p < pos[t] ==> HasKey(data, es[t][p].key))
    && (forall i :: 0 <= i < |data| ==> data[i].key in whole && whole[data[i].key] == data[i].Binding())
    && (data != [] ==> forall t :: 0 <= t < |es| && pos[t] < |es[t]| ==>
          !Less(es[t][pos[t]].key, data[|data| - 1].key))
  }

  ghost function EntriesOf(tables: seq<Table>): (es: seq<seq<StorageEntry>>)
    requires AllWellFormed(tables)
    ensures |es| == |tables|
    ensures forall t :: 0 <= t < |es| ==> es[t] == tables[t].Entries()
  {
    seq(|tables|, t requires 0 <= t < |tables| => tables[t].Entries())
  }

  /** The newest table with a key decides. */
  lemma {:induction false} NewestDecides(views: seq<Memory>, i: nat, key: Bytes)
    requires i < |views| && key in views[i]
    requires forall j :: i < j < |views| ==> key !in views[j]
    ensures key in Flatten(views) && Flatten(views)[key] == views[i][key]
  {
    if i < |views| - 1 {
      NewestDecides(views[..|views| - 1], i, key);
    }
  }

  lemma TopStep(es: seq<seq<StorageEntry>>, queue: seq<Cursor>, i: nat, top: nat)
    requires forall j :: 0 <= j < |queue| ==> InRange(es, queue[j])
    requires forall j, k :: 0 <= j < k < |queue| ==> queue[j].table != queue[k].table
    requires i < |queue| && IsTop(es, queue[..i], top)
    ensures var a, b := queue[top], queue[i];
            IsTop(es, queue[..i + 1], if Yields(KeyAt(es, a), a.table, KeyAt(es, b), b.table) then i else top)
  {
    var a, b := queue[top], queue[i];
    YieldsTotal(KeyAt(es, a), a.table, KeyAt(es, b), b.table);
    if Yields(KeyAt(es, a), a.table, KeyAt(es, b), b.table) {
      forall j | 0 <= j < i && j != top
        ensures Yields(KeyAt(es, queue[j]), queue[j].table, KeyAt(es, b), b.table)
      {
        assert queue[..i][j] == queue[j];
        YieldsTransitive(KeyAt(es, queue[j]), queue[j].table, KeyAt(es, a), a.table, KeyAt(es, b), b.table);
      }
    }
  }

  /** `queue.top()` of a queue that is a bag of cursors. */
  method Top(tables: seq<Table>, queue: seq<Cursor>) returns (top: nat)
    requires AllWellFormed(tables) && queue != []
    requires forall i :: 0 <= i < |queue| ==> InRange(EntriesOf(tables), queue[i])
    requires forall i, j :: 0 <= i < j < |queue| ==> queue[i].table != queue[j].table
    ensures top < |queue| && IsTop(EntriesOf(tables), queue, top)
  {
    hide Yields, ReadEntryAt, StrictlySorted;
    ghost var es := EntriesOf(tables);
    top := 0;
    var i := 1;
    while i < |queue|
      invariant 0 < i <= |queue| && IsTop(es, queue[..i], top)
    {
      TopStep(es, queue, i, top);
      var a, b := queue[top], queue[i];
      var aKey, bKey := tables[a.table].Entry(a.pos).key, tables[b.table].Entry(b.pos).key;
      if Yields(aKey, a.table, bKey, b.table) {
        top := i;
      }
      i := i + 1;
    }
    assert queue[..i] == queue;
  }

  /** No newer table holds a key that is at the top and has not been put out yet. */
  lemma TopIsNewest(es: seq<seq<StorageEntry>>, whole: Memory, pos: seq<nat>, queue: seq<Cursor>, top: nat,
                    data: seq<StorageEntry>, j: nat, q: nat)
    requires Queued(es, pos, queue) && IsTop(es, queue, top) && Merged(es, whole, pos, data)
    requires forall t :: 0 <= t < |es| ==> StrictlySorted(es[t])
    requires queue[top].table < j < |es| && q < |es[j]|
    requires data != [] ==> Less(data[|data| - 1].key, KeyAt(es, queue[top]))
    ensures es[j][q].key != KeyAt(es, queue[top])
  {
    var key := KeyAt(es, queue[top]);
    if es[j][q].key == key {
      if q < pos[j] {
        var i :| 0 <= i < |data| && data[i].key == key;
        LessTrichotomy(data[i].key, data[|data| - 1].key);
        LessTrichotomy(data[|data| - 1].key, key);
      } else {
        var i :| 0 <= i < |queue| && queue[i] == Cursor(j, pos[j]);
        LessTrichotomy(es[j][pos[j]].key, key);
      }
    }
  }

  lemma SmallestRemains(es: seq<seq<StorageEntry>>, pos: seq<nat>, queue: seq<Cursor>, top: nat, t: nat)
    requires Queued(es, pos, queue) && IsTop(es, queue, top)
    requires forall t :: 0 <= t < |es| ==> StrictlySorted(es[t])
    requires t < |es| && pos[t] < |es[t]|
    ensures !Less(es[t][pos[t]].key, KeyAt(es, queue[top]))
  {
    var i :| 0 <= i < |queue| && queue[i] == Cursor(t, pos[t]);
    LessTrichotomy(es[t][pos[t]].key, KeyAt(es, queue[top]));
  }

  /** The entry at the top goes out unless its key was put out last. */
  function Grown(data: seq<StorageEntry>, value: StorageEntry): seq<StorageEntry> {
    if data == [] || data[|data| - 1].key != value.key then data + [value] else data
  }

  lemma TakenAreCovered(es: seq<seq<StorageEntry>>, whole: Memory, pos: seq<nat>, data: seq<StorageEntry>, c: Cursor)
    requires |pos| == |es| && (forall t :: 0 <= t < |es| ==> pos[t] <= |es[t]|)
    requires Merged(es, whole, pos, data) && InRange(es, c) && c.pos == pos[c.table]
    ensures var next := pos[c.table := c.pos + 1];
            forall t, p :: 0 <= t < |es| && 0 <= p < next[t] ==> HasKey(Grown(data, es[c.table][c.pos]), es[t][p].key)
  {
    var grown := Grown(data, es[c.table][c.pos]);
    forall t, p | 0 <= t < |es| && 0 <= p < pos[c.table := c.pos + 1][t]
      ensures HasKey(grown, es[t][p].key)
    {
      if p < pos[t] {
        assert HasKey(data, es[t][p].key);
        var i :| 0 <= i < |data| && data[i].key == es[t][p].key;
        assert grown[i].key == es[t][p].key;
      } else {
        assert grown[|grown| - 1].key == es[t][p].key;
      }
    }
  }

  lemma RestIsNotSmaller(es: seq<seq<StorageEntry>>, pos: seq<nat>, queue: seq<Cursor>, top: nat, t: nat)
    requires Queued(es, pos, queue) && IsTop(es, queue, top)
    requires forall t :: 0 <= t < |es| ==> StrictlySorted(es[t])
    requires t < |es| && pos[queue[top].table := queue[top].pos + 1][t] < |es[t]|
    ensures !Less(es[t][pos[queue[top].table := queue[top].pos + 1][t]].key, KeyAt(es, queue[top]))
  {
    if t == queue[top].table {
      LessTrichotomy(es[t][pos[t] + 1].key, KeyAt(es, queue[top]));
    } else {
      SmallestRemains(es, pos, queue, top, t);
    }
  }

  /** One turn of the loop keeps `Merged`. */
  lemma MergeStep(es: seq<seq<StorageEntry>>, views: seq<Memory>, pos: seq<nat>, queue: seq<Cursor>, top: nat,
                  data: seq<StorageEntry>)
    requires Queued(es, pos, queue) && top < |queue| && IsTop(es, queue, top)
    requires Merged(es, Flatten(views), pos, data)
    requires |views| == |es|
    requires forall t :: 0 <= t < |es| ==> StrictlySorted(es[t]) && views[t] == MemoryOf(es[t])
    ensures Merged(es, Flatten(views), pos[queue[top].table := queue[top].pos + 1],
                   Grown(data, es[queue[top].table][queue[top].pos]))
  {
    hide HasKey, StrictlySorted, Less, MemoryOf, Flatten, IsTop;
    var c := queue[top];
    var value := es[c.table][c.pos];
    if Grown(data, value) != data {
      AppendKeepsSorted(es, Flatten(views), pos, data, c);
      NewestBinding(es, views, pos, queue, top, data);
    }
    TakenAreCovered(es, Flatten(views), pos, data, c);
    forall t | 0 <= t < |es| && pos[c.table := c.pos + 1][t] < |es[t]|
      ensures !Less(es[t][pos[c.table := c.pos + 1][t]].key, value.key)
    {
      RestIsNotSmaller(es, pos, queue, top, t);
    }
  }

  lemma AppendKeepsSorted(es: seq<seq<StorageEntry>>, whole: Memory, pos: seq<nat>, data: seq<StorageEntry>, c: Cursor)
    requires |pos| == |es| && (forall t :: 0 <= t < |es| ==> pos[t] <= |es[t]|)
    requires Merged(es, whole, pos, data) && InRange(es, c) && c.pos == pos[c.table]
    requires data != [] ==> data[|data| - 1].key != KeyAt(es, c)
    ensures StrictlySorted(data + [es[c.table][c.pos]])
    ensures data != [] ==> Less(data[|data| - 1].key, KeyAt(es, c))
  {
    if data != [] {
      var last := data[|data| - 1].key;
      LessTrichotomy(last, KeyAt(es, c));
      forall i | 0 <= i < |data|
        ensures Less(data[i].key, KeyAt(es, c))
      {
        if i < |data| - 1 {
          LessTransitive(data[i].key, last, KeyAt(es, c));
        }
      }
    }
  }

  lemma NewestBinding(es: seq<seq<StorageEntry>>, views: seq<Memory>, pos: seq<nat>, queue: seq<Cursor>, top: nat,
                      data: seq<StorageEntry>)
    requires Queued(es, pos, queue) && IsTop(es, queue, top) && Merged(es, Flatten(views), pos, data)
    requires |views| == |es|
    requires forall t :: 0 <= t < |es| ==> StrictlySorted(es[t]) && views[t] == MemoryOf(es[t])
    requires data != [] ==> Less(data[|data| - 1].key, KeyAt(es, queue[top]))
    ensures var value := es[queue[top].table][queue[top].pos];
            value.key in Flatten(views) && Flatten(views)[value.key] == value.Binding()
  {
    var c := queue[top];
    var key := KeyAt(es, c);
    forall j | c.table < j < |views|
      ensures key !in views[j]
    {
      MemoryOfKeys(es[j], key);
      if key in views[j] {
        var q :| 0 <= q < |es[j]| && es[j][q].key == key;
        TopIsNewest(es, Flatten(views), pos, queue, top, data, j, q);
      }
    }
    SortedKeysAreDistinct(es[c.table]);
    MemoryOfAt(es[c.table], c.pos);
    NewestDecides(views, c.table, key);
  }

  /** How many entries have not been taken yet. */
  ghost function Left(es: seq<seq<StorageEntry>>, pos: seq<nat>): nat
    requires |pos| == |es| && forall t :: 0 <= t < |es| ==> pos[t] <= |es[t]|
  {
    if es == [] then 0 else |es[0]| - pos[0] + Left(es[1..], pos[1..])
  }

  lemma {:induction false} LeftDecreases(es: seq<seq<StorageEntry>>, pos: seq<nat>, t: nat)
    requires |pos| == |es| && (forall t :: 0 <= t < |es| ==> pos[t] <= |es[t]|)
    requires t < |es| && pos[t] < |es[t]|
    ensures Left(es, pos[t := pos[t] + 1]) == Left(es, pos) - 1
  {
    var next := pos[t := pos[t] + 1];
    if t == 0 {
      assert next[1..] == pos[1..];
    } else {
      assert next[1..] == pos[1..][t - 1 := pos[t] + 1];
      LeftDecreases(es[1..], pos[1..], t - 1);
    }
  }

  lemma MergeStart(es: seq<seq<StorageEntry>>, whole: Memory, pos: seq<nat>, queue: seq<Cursor>)
    requires |queue| == |pos| == |es|
    requires forall t :: 0 <= t < |es| ==> es[t] != [] && pos[t] == 0 && queue[t] == Cursor(t, 0)
    ensures Queued(es, pos, queue) && Merged(es, whole, pos, [])
  {
  }

  /** When every table has been used up, the output stands for all tables together. */
  lemma MergeEnd(es: seq<seq<StorageEntry>>, views: seq<Memory>, pos: seq<nat>, data: seq<StorageEntry>)
    requires |pos| == |es| == |views| && (forall t :: 0 <= t < |es| ==> pos[t] == |es[t]|)
    requires Merged(es, Flatten(views), pos, data)
    requires forall t :: 0 <= t < |es| ==> views[t] == MemoryOf(es[t])
    ensures StrictlySorted(data) && MemoryOf(data) == Flatten(views)
  {
    SortedKeysAreDistinct(data);
    forall key
      ensures key in MemoryOf(data) ==> key in Flatten(views) && Flatten(views)[key] == MemoryOf(data)[key]
      ensures key in Flatten(views) ==> key in MemoryOf(data)
    {
      MemoryOfKeys(data, key);
      if key in MemoryOf(data) {
        var i :| 0 <= i < |data| && data[i].key == key;
        MemoryOfAt(data, i);
      }
      if key in Flatten(views) {
        FlattenKeys(views, key);
        var t :| 0 <= t < |views| && key in views[t];
        MemoryOfKeys(es[t], key);
        var p :| 0 <= p < |es[t]| && es[t][p].key == key;
        assert HasKey(data, es[t][p].key);
      }
    }
  }

  /** The queue after its top has been popped and, unless its table is used up, pushed back one further. */
  ghost predicate Advanced(queue: seq<Cursor>, top: nat, more: bool, next: seq<Cursor>)
    requires top < |queue|
  {
    next == queue[..top] + queue[top + 1..] + if more then [Cursor(queue[top].table, queue[top].pos + 1)] else []
  }

  lemma AdvancedCursors(queue: seq<Cursor>, top: nat, more: bool, next: seq<Cursor>)
    requires top < |queue| && Advanced(queue, top, more, next)
    ensures |next| == |queue| - if more then 0 else 1
    ensures forall i :: 0 <= i < |queue| - 1 ==> next[i] == queue[if i < top then i else i + 1]
    ensures more ==> next[|queue| - 1] == Cursor(queue[top].table, queue[top].pos + 1)
  {
  }

  lemma AdvanceKeepsCover(es: seq<seq<StorageEntry>>, pos: seq<nat>, queue: seq<Cursor>, top: nat,
                          next: seq<Cursor>, t: nat)
    requires Queued(es, pos, queue) && top < |queue| && t < |es|
    requires Advanced(queue, top, queue[top].pos + 1 < |es[queue[top].table]|, next)
    requires var after := pos[queue[top].table := queue[top].pos + 1]; after[t] < |es[t]|
    ensures Cursor(t, pos[queue[top].table := queue[top].pos + 1][t]) in next
  {
    AdvancedCursors(queue, top, queue[top].pos + 1 < |es[queue[top].table]|, next);
    hide Advanced;
    if t == queue[top].table {
      assert next[|queue| - 1] == Cursor(t, queue[top].pos + 1);
    } else {
      var i :| 0 <= i < |queue| && queue[i] == Cursor(t, pos[t]);
      assert next[if i < top then i else i - 1] == queue[i];
    }
  }

  lemma AdvanceQueue(es: seq<seq<StorageEntry>>, pos: seq<nat>, queue: seq<Cursor>, top: nat, next: seq<Cursor>)
    requires Queued(es, pos, queue) && top < |queue|
    requires Advanced(queue, top, queue[top].pos + 1 < |es[queue[top].table]|, next)
    ensures Queued(es, pos[queue[top].table := queue[top].pos + 1], next)
  {
    var c := queue[top];
    var after := pos[c.table := c.pos + 1];
    forall t | 0 <= t < |es| && after[t] < |es[t]|
      ensures Cursor(t, after[t]) in next
    {
      AdvanceKeepsCover(es, pos, queue, top, next, t);
    }
    AdvancedCursors(queue, top, c.pos + 1 < |es[c.table]|, next);
    hide Advanced;
    forall i | 0 <= i < |next|
      ensures InRange(es, next[i]) && next[i].pos == after[next[i].table]
    {
      if i < |queue| - 1 {
        assert queue[if i < top then i else i + 1].table != c.table;
      }
    }
    assert forall i, j :: 0 <= i < j < |next| ==> next[i].table != next[j].table;
  }

  lemma QueuedGives(es: seq<seq<StorageEntry>>, pos: seq<nat>, queue: seq<Cursor>)
    requires Queued(es, pos, queue)
    ensures |pos| == |es| && forall t :: 0 <= t < |es| ==> pos[t] <= |es[t]|
    ensures forall i :: 0 <= i < |queue| ==> InRange(es, queue[i]) && queue[i].pos == pos[queue[i].table]
    ensures forall i, j :: 0 <= i < j < |queue| ==> queue[i].table != queue[j].table
    ensures queue == [] ==> forall t :: 0 <= t < |es| ==> pos[t] == |es[t]|
  {
    forall t | 0 <= t < |es| && queue == []
      ensures pos[t] == |es[t]|
    {
      assert Cursor(t, pos[t]) !in queue;
    }
  }

  /** The merge loop of `MergeData`. */
  method MergeEntries(tables: seq<Table>) returns (data: seq<StorageEntry>)
    requires tables != [] && AllWellFormed(tables)
    requires forall i :: 0 <= i < |tables| ==> tables[i].index != []
    ensures StrictlySorted(data) && InByteOrder(data)
    ensures MemoryOf(data) == Flatten(Views(tables))
  {
    hide Merged, IsTop, Yields, ReadEntryAt, StrictlySorted, MemoryOf, Flatten, Queued, Left, InByteOrder;
    ghost var es, views := EntriesOf(tables), Views(tables);
    var queue := seq(|tables|, i requires 0 <= i < |tables| => Cursor(i, 0));
    ghost var pos: seq<nat> := seq(|tables|, i => 0);
    data := [];
    MergeStart(es, Flatten(views), pos, queue);
    QueuedGives(es, pos, queue);
    while queue != []
      invariant Queued(es, pos, queue) && |pos| == |es| && forall t :: 0 <= t < |es| ==> pos[t] <= |es[t]|
      invariant Merged(es, Flatten(views), pos, data)
      decreases Left(es, pos)
    {
      QueuedGives(es, pos, queue);
      var top := Top(tables, queue);
      var c := queue[top];
      var value := tables[c.table].Entry(c.pos);
      MergeStep(es, views, pos, queue, top, data);
      data := Grown(data, value);
      ghost var before := queue;
      queue := queue[..top] + queue[top + 1..];
      if c.pos + 1 != |tables[c.table].index| {
        queue := queue + [Cursor(c.table, c.pos + 1)];
      }
      AdvanceQueue(es, pos, before, top, queue);
      LeftDecreases(es, pos, c.table);
      pos := pos[c.table := c.pos + 1];
    }
    QueuedGives(es, pos, queue);
    MergeEnd(es, views, pos, data);
    SortedIsByteOrder(data);
  }
}
