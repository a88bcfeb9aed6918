/**
 Reference counts on the buffers. Operations take a count, use the buffer and give the count back, each in
 its own step; the swap waits for a count of zero before it frees anything. Loading a reference and taking
 its count is one step.
 */
module Reclaim {
  import opened Kv
  import Memtable

  /** A counter object and the buffer that it guards. */
  datatype Counter = Counter(buffer: nat, count: nat)

  /** An operation in flight and the counter it holds. */
  datatype Operating = Reading(counter: nat) | Writing(counter: nat)

  /** Where the swap is. `last` is the counter being waited for; `data` is the copy of Step 3. */
  datatype Phase =
    | Idle
    | Switched(last: nat)
    | Frozen
    | Copied(data: Memory)
    | Exchanged(last: nat, data: Memory)
    | Freed

  /**
   `owners` are the live `OwningReferenceCounter` objects, `writers` the live `ReferenceCounter` objects and
   `buffers` the live maps. The references name counters.
   */
  datatype State = State(owners: map<nat, Counter>, writers: map<nat, Counter>, buffers: map<nat, Memory>,
                         first: nat, second: nat, writer: nat, ops: map<nat, Operating>, phase: Phase, next: nat)

  datatype Step =
    | BeginRead(op: nat, fromFirst: bool)
    | EndRead(op: nat)
    | BeginWrite(op: nat)
    | UseWrite(op: nat, operation: Operation)
    | EndWrite(op: nat)
    | SwitchWriter
    | FreeWriter
    | Copy
    | GiveUp
    | Exchange
    | FreeBuffer
    | Renew

  function Init(): State {
    State(map[0 := Counter(0, 0), 1 := Counter(1, 0)], map[2 := Counter(1, 0)], map[0 := map[], 1 := map[]],
          0, 1, 2, map[], Idle, 3)
  }

  predicate Enabled(s: State, step: Step) {
    match step
    case BeginRead(op, fromFirst) => op !in s.ops && (if fromFirst then s.first else s.second) in s.owners
    case EndRead(op) => op in s.ops && s.ops[op].Reading? && s.ops[op].counter in s.owners
                        && s.owners[s.ops[op].counter].count > 0
    case BeginWrite(op) => op !in s.ops && s.writer in s.writers
    case UseWrite(op, operation) => op in s.ops && s.ops[op].Writing? && s.ops[op].counter in s.writers
                                    && s.writers[s.ops[op].counter].buffer in s.buffers
    case EndWrite(op) => op in s.ops && s.ops[op].Writing? && s.ops[op].counter in s.writers
                         && s.writers[s.ops[op].counter].count > 0
    case SwitchWriter => s.phase.Idle? && s.first in s.owners
    case FreeWriter => s.phase.Switched? && s.phase.last in s.writers && s.writers[s.phase.last].count == 0
    case Copy => s.phase.Frozen? && s.second in s.owners && s.owners[s.second].buffer in s.buffers
    case GiveUp => s.phase.Copied?
    case Exchange => s.phase.Copied?
    case FreeBuffer => s.phase.Exchanged? && s.phase.last in s.owners && s.owners[s.phase.last].count == 0
    case Renew => s.phase.Freed?
  }

  function Add(counters: map<nat, Counter>, c: nat): map<nat, Counter>
    requires c in counters
  {
    counters[c := counters[c].(count := counters[c].count + 1)]
  }

  function Remove(counters: map<nat, Counter>, c: nat): map<nat, Counter>
    requires c in counters && counters[c].count > 0
  {
    counters[c := counters[c].(count := counters[c].count - 1)]
  }

  function Do(s: State, step: Step): State
    requires Enabled(s, step)
  {
    match step
    case BeginRead(op, fromFirst) =>
      var c := if fromFirst then s.first else s.second;
      s.(owners := Add(s.owners, c), ops := s.ops[op := Reading(c)])
    case EndRead(op) => s.(owners := Remove(s.owners, s.ops[op].counter), ops := s.ops - {op})
    case BeginWrite(op) => s.(writers := Add(s.writers, s.writer), ops := s.ops[op := Writing(s.writer)])
    case UseWrite(op, operation) =>
      var b := s.writers[s.ops[op].counter].buffer;
      s.(buffers := s.buffers[b := ApplyOne(s.buffers[b], operation)])
    case EndWrite(op) => s.(writers := Remove(s.writers, s.ops[op].counter), ops := s.ops - {op})
    case SwitchWriter =>
      s.(writers := s.writers[s.next := Counter(s.owners[s.first].buffer, 0)], writer := s.next,
         phase := Switched(s.writer), next := s.next + 1)
    case FreeWriter => s.(writers := s.writers - {s.phase.last}, phase := Frozen)
    case Copy => s.(phase := Copied(s.buffers[s.owners[s.second].buffer]))
    case GiveUp => s.(phase := Idle)
    case Exchange => s.(second := s.first, phase := Exchanged(s.second, s.phase.data))
    case FreeBuffer =>
      s.(owners := s.owners - {s.phase.last}, buffers := s.buffers - {s.owners[s.phase.last].buffer}, phase := Freed)
    case Renew =>
      s.(owners := s.owners[s.next := Counter(s.next, 0)], buffers := s.buffers[s.next := map[]], first := s.next,
         phase := Idle, next := s.next + 1)
  }

  // ---------------------------------------------------------------- the invariant

  /** The operations that hold a counter. */
  function Holders(ops: map<nat, Operating>, o: Operating): set<nat> {
    set op | op in ops && ops[op] == o
  }

  /** Every count is the number of operations in flight that hold it. */
  ghost predicate CountsAreExact(s: State) {
    && (forall c :: c in s.owners ==> s.owners[c].count == |Holders(s.ops, Reading(c))|)
    && (forall c :: c in s.writers ==> s.writers[c].count == |Holders(s.ops, Writing(c))|)
  }

  /** What an operation in flight holds is alive, counter and map. */
  ghost predicate NothingHeldIsFree(s: State) {
    forall op :: op in s.ops ==>
      match s.ops[op]
      case Reading(c) => c in s.owners && s.owners[c].buffer in s.buffers
      case Writing(c) => c in s.writers && s.writers[c].buffer in s.buffers
  }

  ghost predicate Objects(s: State) {
    && s.first in s.owners && s.second in s.owners && s.writer in s.writers
    && (forall c :: c in s.owners ==> c < s.next && s.owners[c].buffer in s.buffers)
    && (forall c :: c in s.writers ==> c < s.next && s.writers[c].buffer in s.buffers)
    && (forall b :: b in s.buffers ==> b < s.next)
    && (forall c, d :: c in s.owners && d in s.owners && c != d ==> s.owners[c].buffer != s.owners[d].buffer)
  }

  /** Which counters exist, and which buffer may still be written, at each point of a swap. */
  ghost predicate PhaseFits(s: State)
    requires Objects(s)
  {
    var firstBuffer, secondBuffer := s.owners[s.first].buffer, s.owners[s.second].buffer;
    var written := s.writers[s.writer].buffer;
    match s.phase
    case Idle =>
      && s.owners.Keys == {s.first, s.second} && s.writers.Keys == {s.writer} && s.first != s.second
      && (written == firstBuffer || written == secondBuffer)
    case Switched(last) =>
      && s.owners.Keys == {s.first, s.second} && s.writers.Keys == {s.writer, last} && s.first != s.second
      && last != s.writer && written == firstBuffer
    case Frozen =>
      && s.owners.Keys == {s.first, s.second} && s.writers.Keys == {s.writer} && s.first != s.second
      && written == firstBuffer
    case Copied(data) =>
      && s.owners.Keys == {s.first, s.second} && s.writers.Keys == {s.writer} && s.first != s.second
      && written == firstBuffer && s.buffers[secondBuffer] == data
    case Exchanged(last, data) =>
      && s.owners.Keys == {s.first, last} && s.writers.Keys == {s.writer} && s.first == s.second
      && last != s.first && written == firstBuffer && s.buffers[s.owners[last].buffer] == data
    case Freed =>
      && s.owners.Keys == {s.first} && s.writers.Keys == {s.writer} && s.first == s.second
      && written == firstBuffer
  }

  ghost predicate Shape(s: State) {
    NothingHeldIsFree(s) && Objects(s) && PhaseFits(s)
  }

  ghost predicate Inv(s: State) {
    CountsAreExact(s) && Shape(s)
  }

  lemma InitSatisfiesInv()
    ensures Inv(Init())
  {
    var s := Init();
    assert Holders(s.ops, Reading(0)) == {} && Holders(s.ops, Reading(1)) == {} && Holders(s.ops, Writing(2)) == {};
  }

  // ---------------------------------------------------------------- operations

  lemma BeginCounts(ops: map<nat, Operating>, op: nat, o: Operating)
    requires op !in ops
    ensures |Holders(ops[op := o], o)| == |Holders(ops, o)| + 1
    ensures forall p :: p != o ==> Holders(ops[op := o], p) == Holders(ops, p)
  {
    assert Holders(ops[op := o], o) == Holders(ops, o) + {op};
  }

  lemma EndCounts(ops: map<nat, Operating>, op: nat)
    requires op in ops
    ensures |Holders(ops - {op}, ops[op])| == |Holders(ops, ops[op])| - 1
    ensures forall p :: p != ops[op] ==> Holders(ops - {op}, p) == Holders(ops, p)
  {
    assert Holders(ops, ops[op]) == Holders(ops - {op}, ops[op]) + {op};
  }

  lemma BeginReadKeepsShape(s: State, step: Step)
    requires Shape(s) && Enabled(s, step) && step.BeginRead?
    ensures Shape(Do(s, step))
  {
  }

  lemma EndReadKeepsShape(s: State, step: Step)
    requires Shape(s) && Enabled(s, step) && step.EndRead?
    ensures Shape(Do(s, step))
  {
  }

  lemma WriteKeepsShape(s: State, step: Step)
    requires Shape(s) && Enabled(s, step) && (step.BeginWrite? || step.EndWrite?)
    ensures Shape(Do(s, step))
  {
  }

  /** A write in flight can reach the buffer that is being collected only before Step 2 has ended. */
  lemma UseKeepsShape(s: State, step: Step)
    requires Shape(s) && Enabled(s, step) && step.UseWrite?
    ensures Shape(Do(s, step))
  {
  }

  lemma SwitchKeepsShape(s: State)
    requires Shape(s) && Enabled(s, SwitchWriter)
    ensures Shape(Do(s, SwitchWriter))
  {
  }

  lemma CopyKeepsShape(s: State, step: Step)
    requires Shape(s) && Enabled(s, step) && (step.Copy? || step.GiveUp? || step.Exchange?)
    ensures Shape(Do(s, step))
  {
  }

  lemma RenewKeepsShape(s: State)
    requires Shape(s) && Enabled(s, Renew)
    ensures Shape(Do(s, Renew))
  {
  }

  lemma FreeWriterKeepsObjects(s: State)
    requires Objects(s) && PhaseFits(s) && Enabled(s, FreeWriter)
    ensures Objects(Do(s, FreeWriter)) && PhaseFits(Do(s, FreeWriter))
    ensures Do(s, FreeWriter).ops == s.ops && Do(s, FreeWriter).owners == s.owners
    ensures Do(s, FreeWriter).writers == s.writers - {s.phase.last}
  {
    var t := Do(s, FreeWriter);
    assert t.writers.Keys == {s.writer};
    assert t.writers[s.writer] == s.writers[s.writer];
  }

  lemma FreeingCutsNothing(s: State, t: State)
    requires NothingHeldIsFree(s) && Objects(t) && t.ops == s.ops
    requires forall op :: op in s.ops && s.ops[op].Reading? ==> s.ops[op].counter in t.owners
    requires forall op :: op in s.ops && s.ops[op].Writing? ==> s.ops[op].counter in t.writers
    ensures NothingHeldIsFree(t)
  {
  }

  /** Freeing waits for the count to be zero, so nothing in flight is cut off. */
  lemma FreeWriterKeepsShape(s: State)
    requires Inv(s) && Enabled(s, FreeWriter)
    ensures Shape(Do(s, FreeWriter))
  {
    hide Holders, Objects, PhaseFits, Do;
    FreeWriterKeepsObjects(s);
    forall op | op in s.ops && s.ops[op].Writing?
      ensures s.ops[op].counter in s.writers - {s.phase.last}
    {
      NoHolder(s.ops, Writing(s.phase.last), op);
    }
    hide CountsAreExact, Enabled;
    FreeingCutsNothing(s, Do(s, FreeWriter));
  }

  lemma FreeBufferKeepsObjects(s: State)
    requires Objects(s) && PhaseFits(s) && Enabled(s, FreeBuffer)
    ensures Objects(Do(s, FreeBuffer)) && PhaseFits(Do(s, FreeBuffer))
    ensures Do(s, FreeBuffer).ops == s.ops && Do(s, FreeBuffer).writers == s.writers
    ensures Do(s, FreeBuffer).owners == s.owners - {s.phase.last}
  {
    var t := Do(s, FreeBuffer);
    assert t.owners.Keys == {s.first};
    assert t.owners[s.first] == s.owners[s.first] && t.owners[s.first].buffer in t.buffers;
  }

  lemma FreeBufferKeepsShape(s: State)
    requires Inv(s) && Enabled(s, FreeBuffer)
    ensures Shape(Do(s, FreeBuffer))
  {
    hide Holders, Objects, PhaseFits, Do;
    FreeBufferKeepsObjects(s);
    forall op | op in s.ops && s.ops[op].Reading?
      ensures s.ops[op].counter in s.owners - {s.phase.last}
    {
      NoHolder(s.ops, Reading(s.phase.last), op);
    }
    hide CountsAreExact, Enabled;
    FreeingCutsNothing(s, Do(s, FreeBuffer));
  }

  lemma StepKeepsShape(s: State, step: Step)
    requires Inv(s) && Enabled(s, step)
    ensures Shape(Do(s, step))
  {
    assert Shape(s);
    hide *;
    match step {
      case BeginRead(_, _) => BeginReadKeepsShape(s, step);
      case EndRead(_) => EndReadKeepsShape(s, step);
      case BeginWrite(_) => WriteKeepsShape(s, step);
      case EndWrite(_) => WriteKeepsShape(s, step);
      case UseWrite(_, _) => UseKeepsShape(s, step);
      case SwitchWriter => SwitchKeepsShape(s);
      case FreeWriter => FreeWriterKeepsShape(s);
      case FreeBuffer => FreeBufferKeepsShape(s);
      case Renew => RenewKeepsShape(s);
      case _ => CopyKeepsShape(s, step);
    }
  }

  lemma BeginKeepsCounts(s: State, step: Step)
    requires CountsAreExact(s) && Enabled(s, step) && (step.BeginRead? || step.BeginWrite?)
    ensures CountsAreExact(Do(s, step))
  {
    BeginCounts(s.ops, step.op,
                if step.BeginRead? then Reading(if step.fromFirst then s.first else s.second) else Writing(s.writer));
    hide Holders;
  }

  lemma EndKeepsCounts(s: State, step: Step)
    requires CountsAreExact(s) && Enabled(s, step) && (step.EndRead? || step.EndWrite?)
    ensures CountsAreExact(Do(s, step))
  {
    EndCounts(s.ops, step.op);
    hide Holders;
  }

  lemma SwapKeepsCounts(s: State, step: Step)
    requires Inv(s) && Enabled(s, step)
    requires !step.BeginRead? && !step.BeginWrite? && !step.EndRead? && !step.EndWrite?
    ensures CountsAreExact(Do(s, step))
  {
    FreshHasNoHolder(s, Writing(s.next));
    FreshHasNoHolder(s, Reading(s.next));
    hide Holders, PhaseFits, NothingHeldIsFree;
  }

  lemma StepKeepsInv(s: State, step: Step)
    requires Inv(s) && Enabled(s, step)
    ensures Inv(Do(s, step))
  {
    StepKeepsShape(s, step);
    assert CountsAreExact(s);
    hide Do, Enabled, CountsAreExact, Shape;
    if step.BeginRead? || step.BeginWrite? {
      BeginKeepsCounts(s, step);
    } else if step.EndRead? || step.EndWrite? {
      EndKeepsCounts(s, step);
    } else {
      SwapKeepsCounts(s, step);
    }
  }

  lemma FreshHasNoHolder(s: State, o: Operating)
    requires NothingHeldIsFree(s)
    requires if o.Reading? then o.counter !in s.owners else o.counter !in s.writers
    ensures Holders(s.ops, o) == {}
  {
  }

  lemma NoHolder(ops: map<nat, Operating>, o: Operating, op: nat)
    requires |Holders(ops, o)| == 0
    ensures op in ops ==> ops[op] != o
  {
    assert Holders(ops, o) == {};
    assert op in Holders(ops, o) <==> op in ops && ops[op] == o;
  }

  // ---------------------------------------------------------------- whole runs

  ghost predicate CanRun(s: State, steps: seq<Step>)
    decreases |steps|
  {
    steps == [] || (Enabled(s, steps[0]) && CanRun(Do(s, steps[0]), steps[1..]))
  }

  ghost function Exec(s: State, steps: seq<Step>): State
    requires CanRun(s, steps)
    decreases |steps|
  {
    if steps == [] then s else Exec(Do(s, steps[0]), steps[1..])
  }

  lemma {:induction false} RunKeepsInv(s: State, steps: seq<Step>)
    requires Inv(s) && CanRun(s, steps)
    ensures Inv(Exec(s, steps))
    decreases |steps|
  {
    hide Inv, Do, Enabled;
    if steps != [] {
      StepKeepsInv(s, steps[0]);
      RunKeepsInv(Do(s, steps[0]), steps[1..]);
    }
  }

  /** The buffer that a swap is collecting: from the end of Step 2 until it is freed. */
  function Collecting(s: State): (b: nat)
    requires s.second in s.owners && (s.phase.Exchanged? ==> s.phase.last in s.owners)
  {
    if s.phase.Exchanged? then s.owners[s.phase.last].buffer else s.owners[s.second].buffer
  }

  /** The counter of that buffer and the buffer are alive. */
  predicate HasCollecting(s: State) {
    && s.second in s.owners && (s.phase.Exchanged? ==> s.phase.last in s.owners)
    && Collecting(s) in s.buffers
  }

  predicate IsFrozen(s: State) {
    s.phase.Frozen? || s.phase.Copied? || s.phase.Exchanged?
  }

  /**
   From the end of Step 2 on no operation in flight can write the collected buffer, so no step changes it
   before it is freed, and the copy of Step 3 stays equal to it.
   */
  lemma CollectedIsFrozen(s: State, step: Step)
    requires Inv(s) && Enabled(s, step) && IsFrozen(s)
    ensures HasCollecting(s)
    ensures forall op :: op in s.ops && s.ops[op].Writing? ==>
              s.ops[op].counter in s.writers && s.writers[s.ops[op].counter].buffer != Collecting(s)
    ensures var t := Do(s, step);
            IsFrozen(t) ==>
              HasCollecting(t) && Collecting(t) == Collecting(s) && t.buffers[Collecting(t)] == s.buffers[Collecting(s)]
    ensures var t := Do(s, step);
            t.phase.Copied? || t.phase.Exchanged? ==> HasCollecting(t) && t.phase.data == t.buffers[Collecting(t)]
  {
    StepKeepsShape(s, step);
    if IsFrozen(Do(s, step)) {
      StepKeepsFrozen(s, step);
    }
    hide Do, Enabled, CountsAreExact, Objects, PhaseFits, NothingHeldIsFree, Collecting, HasCollecting, Holders;
    WritersAreElsewhere(s);
    if Do(s, step).phase.Copied? || Do(s, step).phase.Exchanged? {
      CopyIsBuffer(Do(s, step));
    }
  }

  lemma WritersAreElsewhere(s: State)
    requires Shape(s) && IsFrozen(s)
    ensures HasCollecting(s)
    ensures forall op :: op in s.ops && s.ops[op].Writing? ==>
              s.ops[op].counter in s.writers && s.writers[s.ops[op].counter].buffer != Collecting(s)
  {
  }

  lemma CopyIsBuffer(t: State)
    requires Shape(t) && (t.phase.Copied? || t.phase.Exchanged?)
    ensures HasCollecting(t) && t.phase.data == t.buffers[Collecting(t)]
  {
  }

  lemma StepKeepsFrozen(s: State, step: Step)
    requires Shape(s) && Enabled(s, step) && IsFrozen(s) && IsFrozen(Do(s, step))
    ensures var t := Do(s, step);
            && HasCollecting(s) && HasCollecting(t)
            && Collecting(t) == Collecting(s) && t.buffers[Collecting(t)] == s.buffers[Collecting(s)]
  {
  }

  /** A freed map was held by nobody, read or write, when it was freed. */
  lemma FreedWasUnused(s: State)
    requires Inv(s) && Enabled(s, FreeBuffer)
    ensures forall op :: op in s.ops ==>
              match s.ops[op]
              case Reading(c) => c in s.owners && s.owners[c].buffer != Collecting(s)
              case Writing(c) => c in s.writers && s.writers[c].buffer != Collecting(s)
  {
    forall op | op in s.ops
      ensures s.ops[op] != Reading(s.phase.last)
    {
      NoHolder(s.ops, Reading(s.phase.last), op);
    }
    hide Holders;
  }

  /**
   In every interleaving of operations and swaps, every count equals the operations in flight that hold it; what
   they hold, counter and map, has not been freed; and from the end of Step 2 until it is freed, no operation in
   flight can write the collected map, which the copy of Step 3 still equals.
   */
  lemma ReclamationIsSafe(steps: seq<Step>)
    requires CanRun(Init(), steps)
    ensures var t := Exec(Init(), steps);
            && (forall c :: c in t.owners ==> t.owners[c].count == |Holders(t.ops, Reading(c))|)
            && (forall c :: c in t.writers ==> t.writers[c].count == |Holders(t.ops, Writing(c))|)
            && (forall op :: op in t.ops && t.ops[op].Reading? ==>
                  t.ops[op].counter in t.owners && t.owners[t.ops[op].counter].buffer in t.buffers)
            && (forall op :: op in t.ops && t.ops[op].Writing? ==>
                  t.ops[op].counter in t.writers && t.writers[t.ops[op].counter].buffer in t.buffers)
    ensures var t := Exec(Init(), steps);
            IsFrozen(t) ==>
              && HasCollecting(t)
              && (forall op :: op in t.ops && t.ops[op].Writing? && t.ops[op].counter in t.writers ==>
                    t.writers[t.ops[op].counter].buffer != Collecting(t))
              && (!t.phase.Frozen? ==> t.phase.data == t.buffers[Collecting(t)])
  {
    InitSatisfiesInv();
    RunKeepsInv(Init(), steps);
    hide CanRun, Exec, Do, Enabled, Objects, PhaseFits, Holders, Collecting, HasCollecting;
    var t := Exec(Init(), steps);
    if IsFrozen(t) {
      WritersAreElsewhere(t);
      if !t.phase.Frozen? {
        CopyIsBuffer(t);
      }
    }
  }

  // ---------------------------------------------------------------- every wait ends

  /** A new operation holds the buffer that its reference leads to, and no other count changes. */
  lemma BeginHolds(s: State, op: nat, fromFirst: bool)
    requires Inv(s) && op !in s.ops
    ensures Enabled(s, BeginRead(op, fromFirst)) && Enabled(s, BeginWrite(op))
    ensures var t, c := Do(s, BeginRead(op, fromFirst)), if fromFirst then s.first else s.second;
            && t.ops == s.ops[op := Reading(c)] && t.owners[c].count == s.owners[c].count + 1
            && (forall d :: d in s.owners && d != c ==> d in t.owners && t.owners[d] == s.owners[d])
            && t.writers == s.writers && t.buffers == s.buffers && t.phase == s.phase
    ensures var t := Do(s, BeginWrite(op));
            && t.ops == s.ops[op := Writing(s.writer)] && t.writers[s.writer].count == s.writers[s.writer].count + 1
            && (forall d :: d in s.writers && d != s.writer ==> d in t.writers && t.writers[d] == s.writers[d])
            && t.owners == s.owners && t.buffers == s.buffers && t.phase == s.phase
  {
    hide CountsAreExact, NothingHeldIsFree, PhaseFits;
  }

  /** An operation in flight can always end, and giving its count back is all that ending does. */
  lemma OperationsCanEnd(s: State, op: nat)
    requires Inv(s) && op in s.ops
    ensures var end := if s.ops[op].Reading? then EndRead(op) else EndWrite(op);
            && Enabled(s, end) && Do(s, end).ops == s.ops - {op}
            && Do(s, end).buffers == s.buffers && Do(s, end).phase == s.phase
            && Do(s, end).first == s.first && Do(s, end).second == s.second && Do(s, end).writer == s.writer
  {
    var o := s.ops[op];
    assert op in Holders(s.ops, o);
    assert |Holders(s.ops, o)| > 0;
  }

  /** The swap goes on from a wait exactly when no operation in flight holds what it waits for. */
  lemma WaitExact(s: State)
    requires Inv(s)
    ensures s.phase.Switched? ==>
              (Enabled(s, FreeWriter) <==> forall op :: op in s.ops ==> s.ops[op] != Writing(s.phase.last))
    ensures s.phase.Exchanged? ==>
              (Enabled(s, FreeBuffer) <==> forall op :: op in s.ops ==> s.ops[op] != Reading(s.phase.last))
  {
    if s.phase.Switched? {
      HoldersExact(s.ops, Writing(s.phase.last));
    } else if s.phase.Exchanged? {
      HoldersExact(s.ops, Reading(s.phase.last));
    }
    hide Holders;
  }

  lemma HoldersExact(ops: map<nat, Operating>, o: Operating)
    ensures |Holders(ops, o)| == 0 <==> forall op :: op in ops ==> ops[op] != o
  {
    if op :| op in ops && ops[op] == o {
      assert op in Holders(ops, o);
      assert |Holders(ops, o)| > 0;
    } else {
      assert Holders(ops, o) == {};
    }
  }

  /** While the swap waits, no new operation comes to hold what it waits for. */
  lemma WaitShrinks(s: State, step: Step, op: nat)
    requires Inv(s) && Enabled(s, step) && Do(s, step).phase == s.phase
    requires s.phase.Switched? || s.phase.Exchanged?
    requires op in Do(s, step).ops
    requires Do(s, step).ops[op] ==
             if s.phase.Switched? then Writing(s.phase.last) else Reading(s.phase.last)
    ensures op in s.ops && s.ops[op] == Do(s, step).ops[op]
  {
    hide CountsAreExact;
  }

  lemma Then(a: State, steps: seq<Step>, s: State, step: Step)
    requires CanRun(a, steps) && Exec(a, steps) == s && Enabled(s, step)
    ensures CanRun(a, steps + [step]) && Exec(a, steps + [step]) == Do(s, step)
    decreases |steps|
  {
    hide Enabled, Do;
    if steps == [] {
      assert [step][1..] == [];
      assert CanRun(Do(a, step), []);
    } else {
      assert (steps + [step])[1..] == steps[1..] + [step];
      Then(Do(a, steps[0]), steps[1..], s, step);
    }
  }

  /** The operations in flight can all end, one after the other, and leave the buffers and the swap as they are. */
  lemma {:induction false} AllCanEnd(s: State) returns (steps: seq<Step>, t: State)
    requires Inv(s)
    ensures forall i :: 0 <= i < |steps| ==> steps[i].EndRead? || steps[i].EndWrite?
    ensures CanRun(s, steps) && t == Exec(s, steps) && Inv(t)
    ensures t.ops == map[] && t.buffers == s.buffers && t.phase == s.phase
    ensures t.first == s.first && t.second == s.second && t.writer == s.writer
    decreases s.ops.Keys
  {
    hide Inv, Enabled, Do;
    if s.ops == map[] {
      steps, t := [], s;
    } else {
      var op :| op in s.ops;
      var end := if s.ops[op].Reading? then EndRead(op) else EndWrite(op);
      OperationsCanEnd(s, op);
      StepKeepsInv(s, end);
      var rest;
      rest, t := AllCanEnd(Do(s, end));
      steps := [end] + rest;
      assert steps[1..] == rest;
    }
  }

  /** With nothing in flight the next statement of the swap can be carried out. */
  lemma SwapCanGoOn(s: State) returns (step: Step)
    requires Inv(s) && s.ops == map[]
    ensures Enabled(s, step) && step == match s.phase
                                        case Idle => SwitchWriter
                                        case Switched(_) => FreeWriter
                                        case Frozen => Copy
                                        case Copied(_) => Exchange
                                        case Exchanged(_, _) => FreeBuffer
                                        case Freed => Renew
  {
    WaitExact(s);
    step := match s.phase
            case Idle => SwitchWriter
            case Switched(_) => FreeWriter
            case Frozen => Copy
            case Copied(_) => Exchange
            case Exchanged(_, _) => FreeBuffer
            case Freed => Renew;
    hide CountsAreExact;
  }

  /**
   No swap waits for ever: from any state, the operations in flight can end, and then the swap's next statement is
   possible.
   */
  lemma SwapIsNeverStuck(s: State) returns (steps: seq<Step>, next: Step)
    requires Inv(s)
    ensures forall i :: 0 <= i < |steps| ==> steps[i].EndRead? || steps[i].EndWrite?
    ensures CanRun(s, steps + [next]) && !next.EndRead? && !next.EndWrite?
    ensures Exec(s, steps + [next]).phase != s.phase
  {
    hide Inv, CanRun, Exec;
    var t;
    steps, t := AllCanEnd(s);
    next := SwapCanGoOn(t);
    Then(s, steps, t, next);
  }

  // ---------------------------------------------------------------- the double buffer without counts

  /** The counted buffers are this double buffer: same contents, and the same references lead to the same buffer. */
  ghost predicate Represents(s: State, b: Memtable.Buffers)
    requires Objects(s)
  {
    var first, second, written := s.owners[s.first].buffer, s.owners[s.second].buffer, s.writers[s.writer].buffer;
    && b.Valid()
    && s.buffers[first] == b.buf[b.first] && s.buffers[second] == b.buf[b.second]
    && (first == second <==> b.first == b.second)
    && (written == first <==> b.writer == b.first) && (written == second <==> b.writer == b.second)
  }

  /** What a step is to the double buffer. */
  function BufferStep(b: Memtable.Buffers, step: Step): Memtable.Buffers
    requires b.writer in b.buf
  {
    match step
    case UseWrite(_, operation) => b.Write(operation)
    case SwitchWriter => b.SwitchWriter()
    case Exchange => b.Exchange()
    case Renew => b.Renew()
    case _ => b
  }

  /**
   Counting changes nothing else: each step is a step of the plain double buffer, or leaves it alone. A write that
   began before the writer was switched is not among them; it still goes to the buffer that is about to be collected.
   */
  lemma StepRefinesBuffers(s: State, step: Step, b: Memtable.Buffers)
    requires Inv(s) && Enabled(s, step) && Represents(s, b)
    requires step.UseWrite? ==> s.ops[step.op] == Writing(s.writer)
    ensures Inv(Do(s, step)) && Represents(Do(s, step), BufferStep(b, step))
  {
    StepKeepsInv(s, step);
    hide CountsAreExact, NothingHeldIsFree;
    match step {
      case UseWrite(_, _) => WriteRefines(s, step, b);
      case SwitchWriter => SwapRefines(s, step, b);
      case Exchange => SwapRefines(s, step, b);
      case FreeBuffer => SwapRefines(s, step, b);
      case Renew => RenewRefines(s, b);
      case _ => CountsRefine(s, step, b);
    }
  }

  lemma WriteRefines(s: State, step: Step, b: Memtable.Buffers)
    requires Shape(s) && Enabled(s, step) && Shape(Do(s, step)) && Represents(s, b)
    requires step.UseWrite? && s.ops[step.op] == Writing(s.writer)
    ensures Represents(Do(s, step), BufferStep(b, step))
  {
    hide CountsAreExact, NothingHeldIsFree;
  }

  lemma SwapRefines(s: State, step: Step, b: Memtable.Buffers)
    requires Shape(s) && Enabled(s, step) && Shape(Do(s, step)) && Represents(s, b)
    requires step.SwitchWriter? || step.Exchange? || step.FreeBuffer?
    ensures Represents(Do(s, step), BufferStep(b, step))
  {
    hide CountsAreExact, NothingHeldIsFree;
  }

  lemma RenewRefines(s: State, b: Memtable.Buffers)
    requires Shape(s) && Enabled(s, Renew) && Shape(Do(s, Renew)) && Represents(s, b)
    ensures Represents(Do(s, Renew), BufferStep(b, Renew))
  {
    hide CountsAreExact, NothingHeldIsFree;
  }

  lemma CountsRefine(s: State, step: Step, b: Memtable.Buffers)
    requires Shape(s) && Enabled(s, step) && Shape(Do(s, step)) && Represents(s, b)
    requires !step.UseWrite? && !step.SwitchWriter? && !step.Exchange? && !step.FreeBuffer? && !step.Renew?
    ensures Represents(Do(s, step), b)
  {
    hide CountsAreExact, NothingHeldIsFree;
  }
}
