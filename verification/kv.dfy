/** Keys, values, logged operations, and the one map that every part of the engine stands for. */
module Kv {
  import opened Wrappers

  type byte = x: int | 0 <= x < 256
  type Bytes = seq<byte>
  type uint64 = x: int | 0 <= x < 0x1_0000_0000_0000_0000

  /** What a key is bound to: a string, or a tombstone when `value` is absent. */
  datatype Value = Value(value: Option<Bytes>, version: uint64)

  /** A table of bindings: the memory table, or the meaning of one table on disk. */
  type Memory = map<Bytes, Value>

  /** One logged write. */
  datatype Operation =
    | Insert(key: Bytes, value: Bytes, version: uint64)
    | Remove(key: Bytes, version: uint64)
  {
    /** The binding that the operation leaves behind; a removal leaves a tombstone. */
    function Binding(): Value {
      match this
      case Insert(_, v, version) => Value(Some(v), version)
      case Remove(_, version) => Value(None, version)
    }
  }

  function Lookup(m: Memory, key: Bytes): Option<Value> {
    if key in m then Some(m[key]) else None
  }

  /** `insert_or_assign` on one key. */
  function ApplyOne(m: Memory, op: Operation): Memory {
    m[op.key := op.Binding()]
  }

  /** Replays a log into a memory table, oldest operation first. */
  function Apply(m: Memory, ops: seq<Operation>): Memory {
    if ops == [] then m else ApplyOne(Apply(m, ops[..|ops| - 1]), ops[|ops| - 1])
  }

  /** What a log does to an empty memory table. */
  function Effect(ops: seq<Operation>): Memory {
    Apply(map[], ops)
  }

  /** All the operations of several logs, in order. */
  function Concat(logs: seq<seq<Operation>>): seq<Operation> {
    if logs == [] then [] else Concat(logs[..|logs| - 1]) + logs[|logs| - 1]
  }

  /** The map that a list of tables stands for: a later table hides an earlier one. */
  function Flatten(tables: seq<Memory>): Memory {
    if tables == [] then map[] else Flatten(tables[..|tables| - 1]) + tables[|tables| - 1]
  }

  lemma ConcatIsAssociative<T>(a: seq<T>, b: seq<T>, c: seq<T>)
    ensures a + b + c == a + (b + c)
  {
  }

  lemma TakeOfConcat<T>(a: seq<T>, b: seq<T>, n: nat)
    requires |a| <= n <= |a| + |b|
    ensures (a + b)[..n] == a + b[..n - |a|]
  {
  }

  lemma TakeInFirst<T>(a: seq<T>, b: seq<T>, n: nat)
    requires n <= |a|
    ensures (a + b)[..n] == a[..n]
  {
  }

  lemma DropFirst<T>(a: seq<T>, b: seq<T>)
    ensures (a + b)[|a|..] == b
  {
  }

  lemma AppendNothing<T>(a: seq<T>, b: seq<T>)
    ensures a + b == a <==> b == []
  {
    if a + b == a {
      assert |a + b| == |a| + |b|;
    }
  }

  lemma ApplySnoc(m: Memory, ops: seq<Operation>, op: Operation)
    ensures Apply(m, ops + [op]) == ApplyOne(Apply(m, ops), op)
  {
    assert (ops + [op])[..|ops|] == ops;
  }

  /**
   What one more operation changes: an insertion binds its key to its value and version, a removal to a tombstone
   with its version, and every other key stays as it was.
   */
  lemma LastOperationDecides(m: Memory, ops: seq<Operation>, op: Operation)
    ensures Apply(m, ops + [op]) ==
            Apply(m, ops)[op.key := Value(if op.Insert? then Some(op.value) else None, op.version)]
    ensures Apply(m, []) == m
  {
    ApplySnoc(m, ops, op);
  }

  /** Replaying into a table is putting the log's own effect over it. */
  lemma {:induction false} ApplyIsUnion(m: Memory, ops: seq<Operation>)
    ensures Apply(m, ops) == m + Effect(ops)
  {
    if ops == [] {
      assert m + map[] == m;
    } else {
      ApplyIsUnion(m, ops[..|ops| - 1]);
    }
  }

  /** Replaying only adds keys, for a removal leaves a tombstone. */
  lemma ApplyGrows(m: Memory, ops: seq<Operation>)
    ensures |m| <= |Apply(m, ops)|
  {
    ApplyIsUnion(m, ops);
    MoreKeys(m, Apply(m, ops));
  }

  lemma MoreKeys(a: Memory, b: Memory)
    requires a.Keys <= b.Keys
    ensures |a| <= |b|
  {
    assert b.Keys == a.Keys + (b.Keys - a.Keys);
    assert |a| == |a.Keys| && |b| == |b.Keys|;
  }

  lemma {:induction false} ApplyConcat(m: Memory, a: seq<Operation>, b: seq<Operation>)
    ensures Apply(m, a + b) == Apply(Apply(m, a), b)
  {
    if b == [] {
      assert a + b == a;
    } else {
      var c := b[..|b| - 1];
      assert (a + b)[..|a + b| - 1] == a + c;
      ApplyConcat(m, a, c);
    }
  }

  lemma EffectConcat(a: seq<Operation>, b: seq<Operation>)
    ensures Effect(a + b) == Effect(a) + Effect(b)
  {
    ApplyConcat(map[], a, b);
    ApplyIsUnion(Effect(a), b);
  }

  lemma ConcatSnoc(logs: seq<seq<Operation>>, log: seq<Operation>)
    ensures Concat(logs + [log]) == Concat(logs) + log
  {
    assert (logs + [log])[..|logs|] == logs;
  }

  lemma FlattenOne(t: Memory)
    ensures Flatten([t]) == t
  {
    assert [t][..0] == [];
  }

  lemma FlattenSnoc(tables: seq<Memory>, t: Memory)
    ensures Flatten(tables + [t]) == Flatten(tables) + t
  {
    assert (tables + [t])[..|tables|] == tables;
  }

  lemma {:induction false} FlattenConcat(a: seq<Memory>, b: seq<Memory>)
    ensures Flatten(a + b) == Flatten(a) + Flatten(b)
  {
    if b == [] {
      assert a + b == a;
    } else {
      var c := b[..|b| - 1];
      assert (a + b)[..|a + b| - 1] == a + c;
      FlattenConcat(a, c);
    }
  }

  /** A key is bound in the flattened map exactly when some table binds it. */
  lemma {:induction false} FlattenKeys(tables: seq<Memory>, key: Bytes)
    ensures key in Flatten(tables) <==> exists i :: 0 <= i < |tables| && key in tables[i]
  {
    if tables != [] {
      var n := |tables| - 1;
      FlattenKeys(tables[..n], key);
      if key in Flatten(tables[..n]) {
        var i :| 0 <= i < n && key in tables[..n][i];
        assert key in tables[i];
      }
      if exists i :: 0 <= i < n && key in tables[i] {
        var i :| 0 <= i < n && key in tables[i];
        assert key in tables[..n][i];
      }
    }
  }
}
