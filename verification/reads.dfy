/**
 A `Get` that runs beside everything else: it loads the first reference, looks into that buffer, loads the
 second, looks into that, and only then asks the tables. Writes, swaps and compactions run in between.
 */
module Reads {
  import opened Wrappers
  import opened Kv
  import opened Memtable
  import opened Recovery
  import opened Engine

  /** How far a read has come; `held` is the buffer whose reference it has loaded. */
  datatype Stage =
    | LoadedFirst(held: nat)
    | MissedFirst
    | LoadedSecond(held: nat)
    | MissedSecond
    | Done(result: Option<Value>)

  datatype Reader = Reader(key: Bytes, stage: Stage)

  /** `reader_first_.load()` and `Add()` in one step. */
  function Begin(s: State, key: Bytes): Reader {
    Reader(key, LoadedFirst(s.mem.first))
  }

  /** The next step of the read. A buffer that is held is still there even if nothing refers to it. */
  function Advance(s: State, r: Reader): Reader
    requires r.stage.LoadedFirst? || r.stage.LoadedSecond? ==> r.stage.held in s.mem.buf
  {
    match r.stage
    case LoadedFirst(held) =>
      r.(stage := if r.key in s.mem.buf[held] then Done(Some(s.mem.buf[held][r.key])) else MissedFirst)
    case MissedFirst => r.(stage := LoadedSecond(s.mem.second))
    case LoadedSecond(held) =>
      r.(stage := if r.key in s.mem.buf[held] then Done(Some(s.mem.buf[held][r.key])) else MissedSecond)
    case MissedSecond => r.(stage := Done(Lookup(Flatten(s.tables), r.key)))
    case Done(_) => r
  }

  /** What happens next: a step of the engine, or one of the read. */
  datatype Event = Engine(step: Step) | Read

  ghost predicate Holds(s: State, r: Reader) {
    r.stage.LoadedFirst? || r.stage.LoadedSecond? ==> r.stage.held in s.mem.buf
  }

  /** The events can happen in this order. A restart ends every read, so none is among them. */
  ghost predicate CanHappen(s: State, r: Reader, events: seq<Event>)
    decreases |events|
  {
    events == [] ||
    match events[0]
    case Engine(step) => !step.Restart? && Enabled(s, step) && CanHappen(Do(s, step), r, events[1..])
    case Read => Holds(s, r) && CanHappen(s, Advance(s, r), events[1..])
  }

  ghost function Happen(s: State, r: Reader, events: seq<Event>): (State, Reader)
    requires CanHappen(s, r, events)
    decreases |events|
  {
    if events == [] then (s, r) else
    match events[0]
    case Engine(step) => Happen(Do(s, step), r, events[1..])
    case Read => Happen(s, Advance(s, r), events[1..])
  }

  // ---------------------------------------------------------------- the invariant of a read

  /** What the read would find if it skipped the first buffer; `base` is what the tables stand for. */
  function Below(base: Memory, b: Buffers): Memory
    requires b.second in b.buf
  {
    base + b.buf[b.second]
  }

  /**
   `seen` are the values that the logical map has had for the key since the read began. Whatever the read
   can still return is one of them.
   */
  ghost predicate HonestIn(base: Memory, b: Buffers, r: Reader, seen: set<Option<Value>>)
    requires b.Valid()
  {
    && Lookup(base + b.Contents(), r.key) in seen
    && match r.stage
       case LoadedFirst(held) =>
         && held in b.buf
         && (if r.key in b.buf[held] then Some(b.buf[held][r.key]) in seen else Lookup(Below(base, b), r.key) in seen)
       case MissedFirst => Lookup(Below(base, b), r.key) in seen
       case LoadedSecond(held) =>
         && held in b.buf
         && Lookup(Below(base, b), r.key) in seen
         && (if r.key in b.buf[held] then Some(b.buf[held][r.key]) in seen else Lookup(base, r.key) in seen)
       case MissedSecond => Lookup(Below(base, b), r.key) in seen && Lookup(base, r.key) in seen
       case Done(result) => result in seen
  }

  ghost predicate Honest(s: State, r: Reader, seen: set<Option<Value>>)
    requires s.mem.Valid()
  {
    HonestIn(Flatten(s.tables), s.mem, r, seen)
  }

  lemma BeginIsHonest(s: State, key: Bytes)
    requires s.mem.Valid()
    ensures Honest(s, Begin(s, key), {Lookup(s.Logical(), key)})
  {
    hide Flatten;
  }

  lemma AdvanceIsHonest(s: State, r: Reader, seen: set<Option<Value>>)
    requires s.mem.Valid() && Honest(s, r, seen)
    ensures Holds(s, r) && Honest(s, Advance(s, r), seen)
  {
    hide Flatten;
  }

  /** The value of the key after a step. */
  function Now(base: Memory, b: Buffers, key: Bytes): Option<Value>
    requires b.first in b.buf && b.second in b.buf
  {
    Lookup(base + b.Contents(), key)
  }

  lemma WriteIsHonest(base: Memory, b: Buffers, op: Operation, r: Reader, seen: set<Option<Value>>)
    requires b.Valid() && HonestIn(base, b, r, seen)
    ensures b.Write(op).Valid() && HonestIn(base, b.Write(op), r, seen + {Now(base, b.Write(op), r.key)})
  {
    WriteContents(b, op);
  }

  /** The copy of the second buffer becomes a table while the buffer is still there. */
  lemma PushIsHonest(base: Memory, b: Buffers, r: Reader, seen: set<Option<Value>>)
    requires b.Valid() && HonestIn(base, b, r, seen)
    ensures HonestIn(base + b.buf[b.second], b, r, seen)
  {
  }

  /** The second buffer is dropped once a table holds it. */
  lemma ExchangeIsHonest(base: Memory, b: Buffers, r: Reader, seen: set<Option<Value>>)
    requires b.Valid() && b.writer == b.first && HonestIn(base + b.buf[b.second], b, r, seen)
    ensures b.Exchange().Valid() && HonestIn(base + b.buf[b.second], b.Exchange(), r, seen)
  {
  }

  lemma RenewIsHonest(base: Memory, b: Buffers, r: Reader, seen: set<Option<Value>>)
    requires b.Valid() && b.first == b.second && HonestIn(base, b, r, seen)
    ensures b.Renew().Valid() && HonestIn(base, b.Renew(), r, seen)
  {
  }

  /** A step leaves tables and buffers alone, or does one of the five things above. */
  lemma StepShape(s: State, step: Step)
    requires Structure(s) && Enabled(s, step) && !step.Restart?
    ensures var t := Do(s, step);
            match step
            case Write(op) => t.tables == s.tables && t.mem == s.mem.Write(op)
            case Push => Flatten(t.tables) == Flatten(s.tables) + s.mem.buf[s.mem.second] && t.mem == s.mem
            case Exchange =>
              && t.tables == s.tables && t.mem == s.mem.Exchange() && s.mem.writer == s.mem.first
              && Flatten(s.tables) == Flatten(s.tables[..|s.tables| - 1]) + s.mem.buf[s.mem.second]
            case Renew => t.tables == s.tables && t.mem == s.mem.Renew() && s.mem.first == s.mem.second
            case Replace => Flatten(t.tables) == Flatten(s.tables) && t.mem == s.mem
            case SwitchWriter => t.tables == s.tables && t.mem == s.mem.SwitchWriter()
            case _ => t.tables == s.tables && t.mem == s.mem
  {
    if step.Push? {
      FlattenSnoc(s.tables, s.phase.data);
    } else if step.Replace? {
      FlattenOne(s.phase.whole);
    }
  }

  lemma StepIsHonest(s: State, step: Step, r: Reader, seen: set<Option<Value>>)
    requires Inv(s) && Enabled(s, step) && !step.Restart? && Honest(s, r, seen)
    ensures Do(s, step).mem.Valid()
    ensures Honest(Do(s, step), r, seen + {Lookup(Do(s, step).Logical(), r.key)})
  {
    InvGives(s);
    hide Flatten, Do, Enabled, Structure, LogsCover, HonestIn, Buffers.Write, Buffers.Exchange, Buffers.Renew, Lookup;
    StepShape(s, step);
    var base, t := Flatten(s.tables), Do(s, step);
    match step {
      case Write(op) => WriteIsHonest(base, s.mem, op, r, seen);
      case Push => PushIsHonest(base, s.mem, r, seen);
      case Exchange => ExchangeIsHonest(Flatten(s.tables[..|s.tables| - 1]), s.mem, r, seen);
      case Renew => RenewIsHonest(base, s.mem, r, seen);
      case SwitchWriter => SwitchIsHonest(base, s.mem, r, seen);
      case _ =>
    }
    HonestGrows(t, r, seen, seen + {Lookup(t.Logical(), r.key)});
  }

  lemma SwitchIsHonest(base: Memory, b: Buffers, r: Reader, seen: set<Option<Value>>)
    requires b.Valid() && HonestIn(base, b, r, seen)
    ensures b.SwitchWriter().Valid() && HonestIn(base, b.SwitchWriter(), r, seen)
  {
  }

  // ---------------------------------------------------------------- whole interleavings

  /** The engine after the first `n` events. */
  ghost function StateAfter(s: State, r: Reader, events: seq<Event>, n: nat): State
    requires CanHappen(s, r, events) && n <= |events|
    decreases n
  {
    if n == 0 then s else
    match events[0]
    case Engine(step) => StateAfter(Do(s, step), r, events[1..], n - 1)
    case Read => StateAfter(s, Advance(s, r), events[1..], n - 1)
  }

  /** The value is one that the logical map had for the key at some moment of the interleaving, or earlier. */
  ghost predicate HadValue(s: State, r: Reader, events: seq<Event>, seen: set<Option<Value>>, v: Option<Value>)
    requires CanHappen(s, r, events)
  {
    v in seen ||
    exists n :: 0 <= n <= |events| && StateAfter(s, r, events, n).mem.Valid()
                && v == Lookup(StateAfter(s, r, events, n).Logical(), r.key)
  }

  lemma HappenUnfolds(s: State, r: Reader, events: seq<Event>, t: State, q: Reader)
    requires CanHappen(s, r, events) && events != []
    requires match events[0]
             case Engine(step) => !step.Restart? && Enabled(s, step) && t == Do(s, step) && q == r
             case Read => Holds(s, r) && t == s && q == Advance(s, r)
    ensures CanHappen(t, q, events[1..]) && Happen(s, r, events) == Happen(t, q, events[1..])
    ensures forall n :: 0 <= n < |events| ==> StateAfter(s, r, events, n + 1) == StateAfter(t, q, events[1..], n)
  {
    hide Enabled, Do, Advance;
  }

  lemma AdvanceKeepsKey(s: State, r: Reader)
    requires Holds(s, r)
    ensures Advance(s, r).key == r.key
  {
    hide Flatten;
  }

  lemma HadValueLater(s: State, r: Reader, events: seq<Event>, seen: set<Option<Value>>, t: State, q: Reader,
                      v: Option<Value>)
    requires CanHappen(s, r, events) && events != [] && CanHappen(t, q, events[1..]) && q.key == r.key
    requires forall n :: 0 <= n < |events| ==> StateAfter(s, r, events, n + 1) == StateAfter(t, q, events[1..], n)
    requires t.mem.Valid()
    requires HadValue(t, q, events[1..], seen + {Lookup(t.Logical(), r.key)}, v)
    ensures HadValue(s, r, events, seen, v)
  {
    hide Enabled, Do, Advance, CanHappen, Flatten;
    if v !in seen {
      var n := if v == Lookup(t.Logical(), r.key) then 0 else
        var n :| 0 <= n <= |events[1..]| && StateAfter(t, q, events[1..], n).mem.Valid()
                 && v == Lookup(StateAfter(t, q, events[1..], n).Logical(), r.key);
        n;
      assert StateAfter(t, q, events[1..], 0) == t;
      assert StateAfter(s, r, events, n + 1) == StateAfter(t, q, events[1..], n);
    }
  }

  lemma {:induction false} ReadIsHonest(s: State, r: Reader, events: seq<Event>, seen: set<Option<Value>>)
    requires Inv(s) && s.mem.Valid() && Honest(s, r, seen) && CanHappen(s, r, events)
    ensures var (t, q) := Happen(s, r, events);
            && Inv(t) && q.key == r.key && Holds(t, q)
            && (q.stage.Done? ==> HadValue(s, r, events, seen, q.stage.result))
    decreases |events|
  {
    if events == [] {
      hide Inv, Flatten;
    } else {
      var e := events[0];
      var t := if e.Engine? then Do(s, e.step) else s;
      var q := if e.Engine? then r else Advance(s, r);
      HappenUnfolds(s, r, events, t, q);
      if e.Engine? {
        StepIsHonest(s, e.step, r, seen);
        StepKeepsInv(s, e.step);
      } else {
        AdvanceIsHonest(s, r, seen);
        AdvanceKeepsKey(s, r);
      }
      var more := seen + {Lookup(t.Logical(), r.key)};
      HonestGrows(t, q, seen, more);
      hide *;
      ReadIsHonest(t, q, events[1..], more);
      var (u, p) := Happen(t, q, events[1..]);
      if p.stage.Done? {
        HadValueLater(s, r, events, seen, t, q, p.stage.result);
      }
    }
  }

  lemma HonestGrows(s: State, r: Reader, seen: set<Option<Value>>, more: set<Option<Value>>)
    requires s.mem.Valid() && seen <= more
    ensures Honest(s, r, seen) ==> Honest(s, r, more)
  {
    hide Flatten;
  }

  /**
   Reads are linearizable. However the steps of a `Get` fall among writes, any number of swaps, failed swaps
   and compactions, it returns the value, tombstone or absence that the logical map had for its key at some
   moment between its first and its last step.
   */
  lemma GetIsLinearizable(s: State, key: Bytes, events: seq<Event>)
    requires Inv(s) && CanHappen(s, Begin(s, key), events)
    requires Happen(s, Begin(s, key), events).1.stage.Done?
    ensures exists n :: 0 <= n <= |events| && StateAfter(s, Begin(s, key), events, n).mem.Valid()
              && Happen(s, Begin(s, key), events).1.stage.result
                 == Lookup(StateAfter(s, Begin(s, key), events, n).Logical(), key)
  {
    InvGives(s);
    var r, now := Begin(s, key), Lookup(s.Logical(), key);
    BeginIsHonest(s, key);
    ReadIsHonest(s, r, events, {now});
    var v := Happen(s, r, events).1.stage.result;
    assert r.key == key && StateAfter(s, r, events, 0) == s;
    hide *;
    assert HadValue(s, r, events, {now}, v);
    HadValueGives(s, r, events, now, v);
  }

  lemma HadValueGives(s: State, r: Reader, events: seq<Event>, now: Option<Value>, v: Option<Value>)
    requires CanHappen(s, r, events) && HadValue(s, r, events, {now}, v)
    requires s.mem.Valid() && now == Lookup(s.Logical(), r.key) && StateAfter(s, r, events, 0) == s
    ensures exists n :: 0 <= n <= |events| && StateAfter(s, r, events, n).mem.Valid()
              && v == Lookup(StateAfter(s, r, events, n).Logical(), r.key)
  {
    hide Enabled, Do, Advance, CanHappen, Flatten, StateAfter;
    if v == now {
      assert v == Lookup(StateAfter(s, r, events, 0).Logical(), r.key);
    }
  }

  // ---------------------------------------------------------------- every read ends

  /** How many of the events are steps of the read. */
  function ReadSteps(events: seq<Event>): nat {
    if events == [] then 0 else (if events[0].Read? then 1 else 0) + ReadSteps(events[1..])
  }

  /** How many steps a read has left at most. */
  function StepsLeft(stage: Stage): nat {
    match stage
    case LoadedFirst(_) => 4
    case MissedFirst => 3
    case LoadedSecond(_) => 2
    case MissedSecond => 1
    case Done(_) => 0
  }

  lemma AdvanceComesCloser(s: State, r: Reader)
    requires Holds(s, r)
    ensures StepsLeft(Advance(s, r).stage) < StepsLeft(r.stage) || (r.stage.Done? && Advance(s, r) == r)
  {
    hide Flatten;
  }

  lemma {:induction false} ReadEnds(s: State, r: Reader, events: seq<Event>)
    requires CanHappen(s, r, events) && StepsLeft(r.stage) <= ReadSteps(events)
    ensures Happen(s, r, events).1.stage.Done?
    decreases |events|
  {
    hide Enabled, Do, Advance, Flatten;
    if events != [] {
      match events[0] {
        case Engine(step) => ReadEnds(Do(s, step), r, events[1..]);
        case Read =>
          AdvanceComesCloser(s, r);
          ReadEnds(s, Advance(s, r), events[1..]);
      }
    }
  }

  /** A read is never stuck, whatever has happened meanwhile, and after four steps of its own it has its answer. */
  lemma GetAnswers(s: State, key: Bytes, events: seq<Event>)
    requires Inv(s) && CanHappen(s, Begin(s, key), events)
    ensures CanHappen(s, Begin(s, key), events + [Read])
    ensures 4 <= ReadSteps(events) ==> Happen(s, Begin(s, key), events).1.stage.Done?
  {
    InvGives(s);
    BeginIsHonest(s, key);
    ReadIsHonest(s, Begin(s, key), events, {Lookup(s.Logical(), key)});
    hide Inv, Flatten, Honest, Advance, Holds;
    OneMoreRead(s, Begin(s, key), events);
    if 4 <= ReadSteps(events) {
      ReadEnds(s, Begin(s, key), events);
    }
  }

  lemma {:induction false} OneMoreRead(s: State, r: Reader, events: seq<Event>)
    requires CanHappen(s, r, events) && Holds(Happen(s, r, events).0, Happen(s, r, events).1)
    ensures CanHappen(s, r, events + [Read])
    decreases |events|
  {
    hide Enabled, Do, Advance;
    if events == [] {
      assert [Read][1..] == [];
    } else {
      assert (events + [Read])[1..] == events[1..] + [Read];
      match events[0] {
        case Engine(step) => OneMoreRead(Do(s, step), r, events[1..]);
        case Read => OneMoreRead(s, Advance(s, r), events[1..]);
      }
    }
  }

  /** Undisturbed, a read answers from the one map. */
  lemma UndisturbedGet(s: State, key: Bytes)
    requires s.mem.Valid()
    ensures var four := [Read, Read, Read, Read];
            && CanHappen(s, Begin(s, key), four)
            && Happen(s, Begin(s, key), four) == (s, Reader(key, Done(Lookup(s.Logical(), key))))
  {
    var r0 := Begin(s, key);
    var r1 := Advance(s, r0);
    var r2 := Advance(s, r1);
    var r3 := Advance(s, r2);
    var r4 := Advance(s, r3);
    hide Flatten;
    assert r4 == Reader(key, Done(Lookup(s.Logical(), key)));
    hide Advance, Begin;
    assert [Read][1..] == [] && [Read, Read][1..] == [Read] && [Read, Read, Read][1..] == [Read, Read];
    assert [Read, Read, Read, Read][1..] == [Read, Read, Read];
    assert CanHappen(s, r3, [Read]) && Happen(s, r3, [Read]) == (s, r4);
    assert CanHappen(s, r2, [Read, Read]) && Happen(s, r2, [Read, Read]) == (s, r4);
    assert CanHappen(s, r1, [Read, Read, Read]) && Happen(s, r1, [Read, Read, Read]) == (s, r4);
  }
}
