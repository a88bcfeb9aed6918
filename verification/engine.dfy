/**
 The storage engine as a state machine: the memory buffers and the table list in memory, and on disk the
 tables a restart would load and the logs. One step for each statement of a swap to persistent storage,
 interleaved with requests, failures and restarts.
 */
module Engine {
  import opened Wrappers
  import opened Kv
  import opened Memtable
  import opened Recovery

  /** A swap starts when the writable buffer has this many keys. */
  const SWAP_SIZE := 5
  /** Tables are merged when there are more than this many. */
  const MERGE_COUNT := 5

  /** Where the one background job is. */
  datatype Phase =
    | Idle
    | LogSwapped
    | WriterSwitched
    | Collected(data: Memory)
    | Built(data: Memory)
    | Listed(data: Memory)
    | Pushed
    | Exchanged
    | Renewed
    | LogRemoved
    | Merged(whole: Memory)
    | Renamed(whole: Memory)
    | Deleting

  /**
   `tables` is the collection in memory and `listed` what `ReadCollection` would load, both oldest first.
   `oldLogs` are the log files that are no longer written, oldest first; `log` is the current one.
   `tainted` records that a log has been removed while an older one was still there, which happens after a
   swap attempt has failed.
   */
  datatype State = State(mem: Buffers, tables: seq<Memory>, listed: seq<Memory>,
                         oldLogs: seq<seq<Operation>>, log: seq<Operation>, phase: Phase, tainted: bool) {

    function Logs(): seq<seq<Operation>> {
      oldLogs + [log]
    }

    /** The map that the engine answers from. */
    function Logical(): Memory
      requires mem.first in mem.buf && mem.second in mem.buf
    {
      Flatten(tables) + mem.Contents()
    }

    /** The map that the files hold. */
    function Durable(): Memory {
      DurableMap(listed, Logs())
    }

    /** `StorageSystem::Get`: the value and the version it reports, which is 0 for a value in memory. */
    function Get(key: Bytes): Option<(Bytes, uint64)>
      requires mem.first in mem.buf && mem.second in mem.buf
    {
      if key in mem.Contents() then
        var v := mem.Contents()[key].value;
        if v.Some? then Some((v.value, 0)) else None
      else if key in Flatten(tables) then
        var v := Flatten(tables)[key];
        if v.value.Some? then Some((v.value.value, v.version)) else None
      else
        None
    }

    /** A write is left out when the key is bound to a value reported as newer. */
    predicate Guarded(op: Operation)
      requires mem.first in mem.buf && mem.second in mem.buf
    {
      var current := Get(op.key);
      current.Some? && op.version < current.value.1
    }
  }

  datatype Step =
    | Write(op: Operation)
    | Drop(op: Operation)
    | FailWrite(op: Operation)
    | SwapLog
    | SwitchWriter
    | Copy
    | Build
    | List
    | Push
    | Exchange
    | Renew
    | RemoveLog
    | KeepLog
    | Merge
    | Rename
    | Replace
    | DeleteOldest
    | Finish
    | GiveUp
    | Restart(visit: seq<nat>, threshold: nat)

  /** The empty engine of a first start. */
  function Init(): State {
    State(InitialBuffers(map[]), [], [], [], [], Idle, false)
  }

  ghost predicate Enabled(s: State, step: Step) {
    s.mem.Valid() &&
    match step
    case Write(op) => !s.Guarded(op)
    case FailWrite(op) => !s.Guarded(op)
    case Drop(op) => s.Guarded(op)
    case SwapLog => s.phase.Idle? && SWAP_SIZE <= |s.mem.buf[s.mem.writer]|
    case SwitchWriter => s.phase.LogSwapped?
    case Copy => s.phase.WriterSwitched?
    case Build => s.phase.Collected?
    case List => s.phase.Built?
    case Push => s.phase.Listed?
    case Exchange => s.phase.Pushed?
    case Renew => s.phase.Exchanged?
    case RemoveLog => s.phase.Renewed? && s.oldLogs != []
    // an error while a log file is removed is ignored
    case KeepLog => s.phase.Renewed?
    case Merge => s.phase.LogRemoved? && MERGE_COUNT < |s.tables|
    case Rename => s.phase.Merged?
    case Replace => s.phase.Renamed?
    case DeleteOldest => s.phase.Deleting? && 1 < |s.listed|
    case Finish => (s.phase.LogRemoved? && |s.tables| <= MERGE_COUNT) || (s.phase.Deleting? && |s.listed| == 1)
    // a file of the new table or a metadata file cannot be written
    case GiveUp => s.phase.Collected? || s.phase.Built? || s.phase.Merged?
                   || (s.phase.LogRemoved? && MERGE_COUNT < |s.tables|)
    // a crash anywhere, then recovery; every log file must hold an operation
    case Restart(visit, threshold) =>
      SafeOrder(s.Logs(), visit, threshold) && forall i :: 0 <= i < |s.Logs()| ==> s.Logs()[i] != []
  }

  function Recovered(s: State, visited: seq<seq<Operation>>, threshold: nat): State {
    var small := LastSmall(visited, threshold);
    var log := if small.Some? then small.value else [];
    var tables := s.listed + Effects(Larges(visited, threshold));
    State(InitialBuffers(Effect(log)), tables, tables, [], log, Idle, s.tainted)
  }

  ghost function Do(s: State, step: Step): State
    requires Enabled(s, step)
  {
    match step
    case Write(op) => s.(log := s.log + [op], mem := s.mem.Write(op))
    case FailWrite(op) => s
    case Drop(op) => s
    case SwapLog => s.(oldLogs := s.oldLogs + [s.log], log := [], phase := LogSwapped)
    case SwitchWriter => s.(mem := s.mem.SwitchWriter(), phase := WriterSwitched)
    case Copy => s.(phase := Collected(s.mem.buf[s.mem.second]))
    case Build => s.(phase := Built(s.phase.data))
    case List => s.(listed := s.listed + [s.phase.data], phase := Listed(s.phase.data))
    case Push => s.(tables := s.tables + [s.phase.data], phase := Pushed)
    case Exchange => s.(mem := s.mem.Exchange(), phase := Exchanged)
    case Renew => s.(mem := s.mem.Renew(), phase := Renewed)
    case RemoveLog =>
      s.(oldLogs := s.oldLogs[..|s.oldLogs| - 1], tainted := s.tainted || 1 < |s.oldLogs|, phase := LogRemoved)
    case KeepLog => s.(phase := LogRemoved)
    case Merge => s.(phase := Merged(Flatten(s.tables)))
    case Rename => s.(listed := s.listed + [s.phase.whole], phase := Renamed(s.phase.whole))
    case Replace => s.(tables := [s.phase.whole], phase := Deleting)
    case DeleteOldest => s.(listed := s.listed[1..])
    case Finish => s.(phase := Idle)
    case GiveUp => s.(phase := Idle)
    case Restart(visit, threshold) => Recovered(s, Visited(s.Logs(), visit), threshold)
  }

  // ---------------------------------------------------------------- the invariant

  /** The writer and the two readers at each point of a swap. */
  ghost predicate BuffersInPhase(s: State)
    requires s.mem.Valid()
  {
    match s.phase
    case WriterSwitched => s.mem.writer == s.mem.first != s.mem.second
    case Collected(data) => s.mem.writer == s.mem.first != s.mem.second && data == s.mem.buf[s.mem.second]
    case Built(data) => s.mem.writer == s.mem.first != s.mem.second && data == s.mem.buf[s.mem.second]
    case Listed(data) => s.mem.writer == s.mem.first != s.mem.second && data == s.mem.buf[s.mem.second]
    case Pushed =>
      && s.mem.writer == s.mem.first != s.mem.second
      && s.tables != [] && s.tables[|s.tables| - 1] == s.mem.buf[s.mem.second]
    case Exchanged => s.mem.writer == s.mem.first == s.mem.second
    case Idle => s.mem.first != s.mem.second && (s.oldLogs == [] ==> s.mem.writer == s.mem.second)
    case LogSwapped => s.mem.first != s.mem.second && (|s.oldLogs| == 1 ==> s.mem.writer == s.mem.second)
    case _ => s.mem.writer == s.mem.second != s.mem.first
  }

  /** What a restart would load against what is in memory. */
  ghost predicate ListedInPhase(s: State) {
    match s.phase
    case Listed(data) => s.listed == s.tables + [data]
    case Merged(whole) => s.listed == s.tables != [] && whole == Flatten(s.tables)
    case Renamed(whole) => s.listed == s.tables + [whole] && s.tables != [] && whole == Flatten(s.tables)
    case Deleting =>
      && |s.tables| == 1 && s.listed != [] && s.listed[|s.listed| - 1] == s.tables[0]
      && Flatten(s.listed[..|s.listed| - 1]).Keys <= s.tables[0].Keys
    case _ => s.listed == s.tables
  }

  /** No buffer that is collected, and no table, is ever empty. */
  ghost predicate NothingEmpty(s: State)
    requires s.mem.Valid()
  {
    && (forall i :: 0 <= i < |s.tables| ==> s.tables[i] != map[])
    && (forall i :: 0 <= i < |s.listed| ==> s.listed[i] != map[])
    && (s.mem.writer == s.mem.first != s.mem.second ==> s.mem.buf[s.mem.second] != map[])
    && (s.phase.LogSwapped? ==> s.mem.buf[s.mem.second] != map[])
  }

  /** Between a swap's first statement and its last, the log that it will remove is still there. */
  ghost predicate LogsInPhase(s: State) {
    (s.phase.LogSwapped? || s.phase.WriterSwitched? || s.phase.Collected? || s.phase.Built? || s.phase.Listed?
     || s.phase.Pushed? || s.phase.Exchanged? || s.phase.Renewed?) ==> s.oldLogs != []
  }

  /**
   The files hold what the engine answers; every key in a buffer is still in some log; and when the swap
   under way will remove the only old log, every key that will stay in memory is in the current log.
   */
  ghost predicate LogsCover(s: State)
    requires s.mem.Valid()
  {
    && s.Durable() == s.Logical()
    && s.mem.Contents().Keys <= Effect(Concat(s.Logs())).Keys
    && (|s.oldLogs| == 1 && !s.phase.Idle? && !s.phase.LogRemoved? ==>
          s.mem.buf[s.mem.first].Keys <= Effect(s.log).Keys)
    && (|s.oldLogs| == 1 && (s.phase.Renewed? || s.phase.Exchanged?) ==>
          s.mem.buf[s.mem.second].Keys <= Effect(s.log).Keys)
  }

  ghost predicate Structure(s: State) {
    s.mem.Valid() && BuffersInPhase(s) && ListedInPhase(s) && NothingEmpty(s) && LogsInPhase(s)
  }

  ghost predicate Inv(s: State) {
    Structure(s) && (!s.tainted ==> LogsCover(s))
  }

  // ---------------------------------------------------------------- every step keeps the map

  lemma WriteContents(b: Buffers, op: Operation)
    requires b.Valid()
    ensures b.Write(op).Valid()
    ensures b.Write(op).Contents() == ApplyOne(b.Contents(), op)
  {
  }

  /** A table that repeats what is over it changes nothing. */
  lemma RepeatBelow(base: Memory, data: Memory, top: Memory)
    ensures base + data + (data + top) == base + (data + top)
  {
  }

  /** Replaying logs that name all keys of a table makes the table irrelevant. */
  lemma CoveredTable(base: Memory, data: Memory, replay: Memory)
    requires data.Keys <= replay.Keys
    ensures base + data + replay == base + replay
  {
  }

  lemma WriteChangesOneKey(s: State, op: Operation)
    requires Enabled(s, Write(op))
    ensures Do(s, Write(op)).mem.Valid() && Do(s, Write(op)).Logical() == ApplyOne(s.Logical(), op)
  {
    hide Flatten;
    WriteContents(s.mem, op);
  }

  lemma PushKeepsMap(s: State)
    requires Inv(s) && Enabled(s, Push)
    ensures Do(s, Push).mem.Valid() && Do(s, Push).Logical() == s.Logical()
  {
    hide LogsCover;
    FlattenSnoc(s.tables, s.phase.data);
    RepeatBelow(Flatten(s.tables), s.phase.data, s.mem.buf[s.mem.first]);
  }

  lemma ExchangeKeepsMap(s: State)
    requires Inv(s) && Enabled(s, Exchange)
    ensures Do(s, Exchange).mem.Valid() && Do(s, Exchange).Logical() == s.Logical()
  {
    hide LogsCover;
    var n := |s.tables| - 1;
    var below, data, top := Flatten(s.tables[..n]), s.tables[n], s.mem.buf[s.mem.first];
    assert Flatten(s.tables) == below + data;
    hide Flatten;
    RepeatBelow(below, data, top);
    UnionIsAssociative(below, data, top);
    assert top + top == top;
  }

  lemma RenewKeepsMap(s: State)
    requires Inv(s) && Enabled(s, Renew)
    ensures Do(s, Renew).mem.Valid() && Do(s, Renew).Logical() == s.Logical()
  {
    hide LogsCover, Flatten;
    assert s.mem.Renew().Contents() == s.mem.Contents();
  }

  lemma ReplaceKeepsMap(s: State)
    requires Inv(s) && Enabled(s, Replace)
    ensures Do(s, Replace).mem.Valid() && Do(s, Replace).Logical() == s.Logical()
  {
    hide LogsCover;
    FlattenOne(s.phase.whole);
  }

  lemma RestartKeepsMap(s: State, step: Step)
    requires Inv(s) && !s.tainted && step.Restart? && Enabled(s, step)
    ensures Do(s, step).mem.Valid() && Do(s, step).Logical() == s.Logical()
  {
    hide Flatten, Concat;
    RecoveryRebuilds(s.listed, s.Logs(), step.visit, step.threshold);
    RecoveredAnswers(s, Visited(s.Logs(), step.visit), step.threshold);
  }

  lemma RecoveredAnswers(s: State, visited: seq<seq<Operation>>, threshold: nat)
    ensures Recovered(s, visited, threshold).mem.Valid()
    ensures Recovered(s, visited, threshold).Logical() == RecoveredMap(s.listed, visited, threshold)
  {
    hide Flatten, Larges, LastSmall, Effects;
    assert Effect([]) == map[];
    var small := LastSmall(visited, threshold);
    var memory := Effect(if small.Some? then small.value else []);
    assert InitialBuffers(memory).Contents() == memory;
  }

  /** The steps that touch neither the tables in memory nor the contents of a buffer. */
  lemma QuietStep(s: State, step: Step)
    requires Enabled(s, step)
    requires !step.Write? && !step.Push? && !step.Exchange? && !step.Renew? && !step.Replace? && !step.Restart?
    ensures var t := Do(s, step);
            && t.tables == s.tables && t.mem.buf == s.mem.buf
            && t.mem.first == s.mem.first && t.mem.second == s.mem.second && t.mem.Valid()
            && t.Logical() == s.Logical()
  {
    hide SafeOrder, Flatten, Concat, Effect;
  }

  /**
   No step of a swap, of compaction, of a failed attempt or of a restart changes the map that the engine
   answers from; a write changes exactly its own key.
   */
  lemma StepRefinesMap(s: State, step: Step)
    requires Inv(s) && Enabled(s, step) && (step.Restart? ==> !s.tainted)
    ensures Do(s, step).mem.Valid()
    ensures Do(s, step).Logical() ==
            if step.Write? then ApplyOne(s.Logical(), step.op) else s.Logical()
  {
    hide *;
    match step {
      case Write(op) => WriteChangesOneKey(s, op);
      case Push => PushKeepsMap(s);
      case Exchange => ExchangeKeepsMap(s);
      case Renew => RenewKeepsMap(s);
      case Replace => ReplaceKeepsMap(s);
      case Restart(visit, threshold) => RestartKeepsMap(s, step);
      case _ => QuietStep(s, step);
    }
  }

  // ---------------------------------------------------------------- every step keeps the structure

  lemma WriteKeepsStructure(s: State, op: Operation)
    requires Structure(s) && Enabled(s, Write(op))
    ensures Structure(Do(s, Write(op)))
  {
    hide Flatten;
    WriteContents(s.mem, op);
  }

  lemma SwapKeepsStructure(s: State, step: Step)
    requires Structure(s) && Enabled(s, step)
    requires step.SwapLog? || step.SwitchWriter? || step.Copy? || step.Build?
    ensures Structure(Do(s, step))
  {
    hide Flatten;
  }

  lemma ListKeepsStructure(s: State, step: Step)
    requires Structure(s) && Enabled(s, step)
    requires step.List? || step.Push? || step.Exchange? || step.Renew?
    ensures Structure(Do(s, step))
  {
    hide Flatten;
  }

  lemma MergeKeepsStructure(s: State, step: Step)
    requires Structure(s) && Enabled(s, step)
    requires step.Drop? || step.FailWrite? || step.RemoveLog? || step.KeepLog? || step.Merge? || step.GiveUp?
             || step.Finish?
    ensures Structure(Do(s, step))
  {
    hide Flatten;
  }

  lemma RenameKeepsStructure(s: State)
    requires Structure(s) && Enabled(s, Rename)
    ensures Structure(Do(s, Rename))
  {
    assert Flatten(s.tables).Keys >= s.tables[|s.tables| - 1].Keys;
  }

  lemma ReplaceKeepsStructure(s: State)
    requires Structure(s) && Enabled(s, Replace)
    ensures Structure(Do(s, Replace))
  {
    assert s.listed[..|s.listed| - 1] == s.tables;
    assert Flatten(s.tables).Keys >= s.tables[|s.tables| - 1].Keys;
  }

  /** Dropping the oldest of several tables, the last of which has all their keys, changes nothing. */
  lemma DropOldest(listed: seq<Memory>)
    requires |listed| > 1 && Flatten(listed[..|listed| - 1]).Keys <= listed[|listed| - 1].Keys
    ensures Flatten(listed[1..]) == Flatten(listed)
    ensures Flatten(listed[1..][..|listed| - 2]).Keys <= listed[|listed| - 1].Keys
  {
    var n := |listed| - 1;
    var rest, last := listed[1..n], listed[n];
    assert listed[..n] == [listed[0]] + rest && listed[1..] == rest + [last] && listed[1..][..n - 1] == rest;
    FlattenConcat([listed[0]], rest);
    FlattenSnoc(rest, last);
    var all := Flatten(listed[..n]);
    assert Flatten(listed) == all + last;
    hide Flatten;
    HiddenBelow(Flatten(rest), last);
    HiddenBelow(all, last);
  }

  lemma HiddenBelow(below: Memory, top: Memory)
    requires below.Keys <= top.Keys
    ensures below + top == top
  {
  }

  lemma ListMayChange(s: State, listed: seq<Memory>)
    requires s.mem.Valid() && BuffersInPhase(s) && LogsInPhase(s) && s.phase.Deleting?
    ensures BuffersInPhase(s.(listed := listed)) && LogsInPhase(s.(listed := listed))
  {
  }

  lemma DeleteLists(s: State)
    requires s.mem.Valid() && ListedInPhase(s) && NothingEmpty(s) && s.phase.Deleting? && 1 < |s.listed|
    ensures ListedInPhase(s.(listed := s.listed[1..])) && NothingEmpty(s.(listed := s.listed[1..]))
  {
    DropOldest(s.listed);
    hide Flatten;
    assert s.listed[1..][..|s.listed[1..]| - 1] == s.listed[1..][..|s.listed| - 2];
  }

  lemma DeleteStep(s: State)
    requires Enabled(s, DeleteOldest)
    ensures s.phase.Deleting? && 1 < |s.listed| && Do(s, DeleteOldest) == s.(listed := s.listed[1..])
  {
  }

  lemma DeleteKeepsStructure(s: State)
    requires Structure(s) && Enabled(s, DeleteOldest)
    ensures Structure(Do(s, DeleteOldest))
  {
    hide Flatten, BuffersInPhase, ListedInPhase, NothingEmpty, LogsInPhase, Do, Enabled;
    DeleteStep(s);
    ListMayChange(s, s.listed[1..]);
    DeleteLists(s);
  }

  lemma LargeIsNotEmpty(logs: seq<seq<Operation>>, threshold: nat)
    ensures forall i :: 0 <= i < |Larges(logs, threshold)| ==> Effect(Larges(logs, threshold)[i]) != map[]
  {
    hide Effect;
    if logs != [] {
      LargeIsNotEmpty(logs[..|logs| - 1], threshold);
    }
  }

  lemma RestartKeepsStructure(s: State, step: Step)
    requires Structure(s) && step.Restart? && Enabled(s, step)
    ensures Structure(Do(s, step))
  {
    hide Effect, Flatten, Larges, LastSmall;
    LargeIsNotEmpty(Visited(s.Logs(), step.visit), step.threshold);
  }

  lemma StepKeepsStructure(s: State, step: Step)
    requires Structure(s) && Enabled(s, step)
    ensures Structure(Do(s, step))
  {
    hide *;
    match step {
      case Write(op) => WriteKeepsStructure(s, op);
      case SwapLog => SwapKeepsStructure(s, step);
      case SwitchWriter => SwapKeepsStructure(s, step);
      case Copy => SwapKeepsStructure(s, step);
      case Build => SwapKeepsStructure(s, step);
      case List => ListKeepsStructure(s, step);
      case Push => ListKeepsStructure(s, step);
      case Exchange => ListKeepsStructure(s, step);
      case Renew => ListKeepsStructure(s, step);
      case Rename => RenameKeepsStructure(s);
      case Replace => ReplaceKeepsStructure(s);
      case DeleteOldest => DeleteKeepsStructure(s);
      case Restart(visit, threshold) => RestartKeepsStructure(s, step);
      case _ => MergeKeepsStructure(s, step);
    }
  }

  // ---------------------------------------------------------------- every step keeps the durable map

  lemma WriteIsDurable(s: State, op: Operation)
    requires Structure(s) && LogsCover(s) && Enabled(s, Write(op))
    ensures Do(s, Write(op)).mem.Valid() && LogsCover(Do(s, Write(op)))
  {
    var t := Do(s, Write(op));
    WriteContents(s.mem, op);
    WriteChangesOneKey(s, op);
    ConcatSnoc(s.oldLogs, s.log);
    ConcatSnoc(s.oldLogs, t.log);
    ConcatIsAssociative(Concat(s.oldLogs), s.log, [op]);
    ApplySnoc(map[], Concat(s.Logs()), op);
    ApplySnoc(map[], s.log, op);
    hide Flatten, Effect, Concat;
    WriteDurable(Flatten(s.listed), Effect(Concat(s.Logs())), op);
  }

  lemma WriteDurable(base: Memory, replay: Memory, op: Operation)
    ensures base + ApplyOne(replay, op) == ApplyOne(base + replay, op)
  {
  }

  lemma SwapLogIsDurable(s: State)
    requires Structure(s) && LogsCover(s) && Enabled(s, SwapLog)
    ensures Do(s, SwapLog).mem.Valid() && LogsCover(Do(s, SwapLog))
  {
    ConcatSnoc(s.oldLogs + [s.log], []);
    AppendNothing(Concat(s.Logs()), []);
    hide Flatten, Effect, Concat;
  }

  lemma ListIsDurable(s: State)
    requires Structure(s) && LogsCover(s) && Enabled(s, List)
    ensures Do(s, List).mem.Valid() && LogsCover(Do(s, List))
  {
    FlattenSnoc(s.listed, s.phase.data);
    hide Flatten, Effect, Concat;
    CoveredTable(Flatten(s.listed), s.phase.data, Effect(Concat(s.Logs())));
  }

  /** A step that changes neither the files nor what is in the buffers, and does not go back to a sharper phase. */
  lemma SameCover(s: State, t: State)
    requires s.mem.Valid() && t.mem.Valid() && LogsCover(s)
    requires t.listed == s.listed && t.oldLogs == s.oldLogs && t.log == s.log && t.Logical() == s.Logical()
    requires t.mem.buf == s.mem.buf && t.mem.first == s.mem.first && t.mem.second == s.mem.second
    requires t.phase.Idle? || t.phase.LogRemoved? || (!s.phase.Idle? && !s.phase.LogRemoved?) || 1 < |s.oldLogs|
             || s.oldLogs == [] || t.phase == s.phase
    requires t.phase.Renewed? || t.phase.Exchanged? ==> t.phase == s.phase
    ensures LogsCover(t)
  {
    hide Flatten, Effect, Concat, DurableMap;
  }

  lemma QuietPhase(s: State, step: Step)
    requires Enabled(s, step)
    requires step.SwitchWriter? || step.Copy? || step.Build? || step.GiveUp? || step.Finish?
             || step.Drop? || step.FailWrite? || step.KeepLog?
    ensures var t := Do(s, step);
            && t.listed == s.listed && t.oldLogs == s.oldLogs && t.log == s.log
            && (t.phase.Idle? || t.phase.LogRemoved? || (!s.phase.Idle? && !s.phase.LogRemoved?) || t.phase == s.phase)
            && (t.phase.Renewed? || t.phase.Exchanged? ==> t.phase == s.phase)
  {
    hide SafeOrder, Flatten, Effect;
  }

  lemma QuietIsDurable(s: State, step: Step)
    requires Structure(s) && LogsCover(s) && Enabled(s, step)
    requires step.SwitchWriter? || step.Copy? || step.Build? || step.GiveUp? || step.Finish?
             || step.Drop? || step.FailWrite? || step.KeepLog?
    ensures Do(s, step).mem.Valid() && LogsCover(Do(s, step))
  {
    QuietStep(s, step);
    QuietPhase(s, step);
    hide *;
    SameCover(s, Do(s, step));
  }

  lemma MergeIsDurable(s: State)
    requires Structure(s) && LogsCover(s) && Enabled(s, Merge)
    ensures Do(s, Merge).mem.Valid() && LogsCover(Do(s, Merge))
  {
    hide Flatten, Effect, Concat, DurableMap;
  }

  lemma PushIsDurable(s: State, step: Step)
    requires Structure(s) && LogsCover(s) && Enabled(s, step)
    requires step.Push? || step.Exchange? || step.Renew? || step.Replace?
    requires Do(s, step).mem.Valid() && Do(s, step).Logical() == s.Logical()
    ensures Do(s, step).mem.Valid() && LogsCover(Do(s, step))
  {
    hide Flatten, Effect, Concat;
  }

  lemma RenameIsDurable(s: State)
    requires Structure(s) && LogsCover(s) && Enabled(s, Rename)
    ensures Do(s, Rename).mem.Valid() && LogsCover(Do(s, Rename))
  {
    var t := Do(s, Rename);
    FlattenSnoc(s.listed, s.phase.whole);
    HiddenBelow(Flatten(s.listed), s.phase.whole);
    assert t == s.(listed := s.listed + [s.phase.whole], phase := Renamed(s.phase.whole));
    hide Flatten, Effect, Concat, Do, Enabled, Structure, BuffersInPhase;
  }

  lemma DeletingHides(s: State)
    requires ListedInPhase(s) && s.phase.Deleting? && 1 < |s.listed|
    ensures Flatten(s.listed[1..]) == Flatten(s.listed)
  {
    DropOldest(s.listed);
  }

  lemma DeleteIsDurable(s: State)
    requires Structure(s) && LogsCover(s) && Enabled(s, DeleteOldest)
    ensures Do(s, DeleteOldest).mem.Valid() && LogsCover(Do(s, DeleteOldest))
  {
    hide Flatten, BuffersInPhase, ListedInPhase, NothingEmpty, LogsInPhase, LogsCover, Do, Enabled;
    DeleteStep(s);
    DeletingHides(s);
    ListedOnly(s, s.listed[1..]);
  }

  lemma ListedOnly(s: State, listed: seq<Memory>)
    requires s.mem.Valid() && LogsCover(s) && Flatten(listed) == Flatten(s.listed)
    ensures LogsCover(s.(listed := listed))
  {
    hide Flatten, Effect, Concat;
  }

  /**
   Deleting the old log loses nothing, although writes between the log swap and Step 1 went to the new log
   and the old buffer.
   */
  lemma RemoveLogIsDurable(s: State)
    requires Structure(s) && LogsCover(s) && Enabled(s, RemoveLog) && |s.oldLogs| == 1
    ensures Do(s, RemoveLog).mem.Valid() && LogsCover(Do(s, RemoveLog))
  {
    hide Flatten, Effect, Concat, NothingEmpty, LogsInPhase;
    var removed, t := s.oldLogs[0], s.(oldLogs := [], phase := LogRemoved);
    assert s.mem.writer == s.mem.second != s.mem.first && s.listed == s.tables;
    assert s.oldLogs == [removed] && s.oldLogs[..0] == [];
    assert Do(s, RemoveLog) == t;
    hide Structure, BuffersInPhase, ListedInPhase, Enabled, Do;
    RemovedLog(s, t, removed);
  }

  lemma RemovedLog(s: State, t: State, removed: seq<Operation>)
    requires s.mem.Valid() && LogsCover(s) && s.phase.Renewed? && s.listed == s.tables
    requires s.mem.writer == s.mem.second != s.mem.first
    requires s.oldLogs == [removed] && t == s.(oldLogs := [], phase := LogRemoved)
    ensures LogsCover(t)
  {
    assert s.Logs() == [removed, s.log] && t.Logs() == [s.log];
    ConcatTwo(removed, s.log);
    ConcatTwo(s.log, s.log);
    hide Flatten, Effect, Concat;
    Truncate(Flatten(s.tables), Effect(removed), Effect(s.log), s.mem.buf[s.mem.second]);
    assert s.mem.Contents() == s.mem.buf[s.mem.second] + map[];
  }

  lemma Truncate(base: Memory, removed: Memory, kept: Memory, memory: Memory)
    requires base + (removed + kept) == base + (memory + map[])
    requires memory.Keys <= kept.Keys
    ensures base + kept == base + (memory + map[])
  {
    forall key | key in base + (removed + kept)
      ensures key in base + kept && (base + kept)[key] == (base + (memory + map[]))[key]
    {
      assert (base + (removed + kept))[key] == (base + (memory + map[]))[key];
      if key !in kept {
        assert key !in memory;
      }
    }
  }

  lemma RestartIsDurable(s: State, step: Step)
    requires step.Restart? && Enabled(s, step)
    ensures Do(s, step).mem.Valid() && LogsCover(Do(s, step))
  {
    var visited := Visited(s.Logs(), step.visit);
    var t := Do(s, step);
    assert t.Logs() == [t.log];
    ConcatTwo(t.log, t.log);
    hide Flatten, Larges, LastSmall, Effects, Effect, Concat;
    assert t.mem.Contents() == Effect(t.log) + map[];
    assert Effect(t.log) + map[] == Effect(t.log);
  }

  lemma StepKeepsCover(s: State, step: Step)
    requires Inv(s) && Enabled(s, step) && !Do(s, step).tainted
    ensures !s.tainted && Do(s, step).mem.Valid() && LogsCover(Do(s, step))
  {
    TaintStays(s, step);
    StepRefinesMap(s, step);
    assert Structure(s) && LogsCover(s);
    hide *;
    match step {
      case Write(op) => WriteIsDurable(s, op);
      case SwapLog => SwapLogIsDurable(s);
      case List => ListIsDurable(s);
      case Push => PushIsDurable(s, step);
      case Exchange => PushIsDurable(s, step);
      case Renew => PushIsDurable(s, step);
      case Replace => PushIsDurable(s, step);
      case RemoveLog => RemoveLogIsDurable(s);
      case Merge => MergeIsDurable(s);
      case Rename => RenameIsDurable(s);
      case DeleteOldest => DeleteIsDurable(s);
      case Restart(visit, threshold) => RestartIsDurable(s, step);
      case _ => QuietIsDurable(s, step);
    }
  }

  lemma TaintStays(s: State, step: Step)
    requires Enabled(s, step) && !Do(s, step).tainted
    ensures !s.tainted && (step.RemoveLog? ==> |s.oldLogs| == 1)
  {
    hide Effect, Flatten, SafeOrder, Concat;
  }

  /** The invariant holds at every point of every run. */
  lemma StepKeepsInv(s: State, step: Step)
    requires Inv(s) && Enabled(s, step)
    ensures Inv(Do(s, step))
  {
    StepKeepsStructure(s, step);
    if !Do(s, step).tainted {
      StepKeepsCover(s, step);
    }
  }

  // ---------------------------------------------------------------- runs

  ghost predicate CanRun(s: State, steps: seq<Step>)
    decreases |steps|
  {
    steps == [] || (Enabled(s, steps[0]) && CanRun(Do(s, steps[0]), steps[1..]))
  }

  ghost function Exec(s: State, steps: seq<Step>): State
    requires CanRun(s, steps)
    decreases |steps|
  {
    if steps == [] then s else Exec(Do(s, steps[0]), steps[1..])
  }

  /** The writes of a run that were carried out. */
  function Applied(steps: seq<Step>): seq<Operation> {
    if steps == [] then
      []
    else
      (if steps[0].Write? then [steps[0].op] else []) + Applied(steps[1..])
  }

  lemma InitSatisfiesInv()
    ensures Inv(Init()) && Init().Logical() == map[]
  {
    assert Effect([]) == map[];
    ConcatTwo([], []);
  }

  lemma RunUnfolds(s: State, steps: seq<Step>)
    requires CanRun(s, steps) && steps != []
    ensures Enabled(s, steps[0]) && CanRun(Do(s, steps[0]), steps[1..])
    ensures Exec(s, steps) == Exec(Do(s, steps[0]), steps[1..])
    ensures Applied(steps) == (if steps[0].Write? then [steps[0].op] else []) + Applied(steps[1..])
  {
    hide Enabled, Do;
  }

  lemma RunOfNothing(s: State)
    ensures CanRun(s, []) && Exec(s, []) == s && Applied([]) == []
  {
  }

  lemma {:induction false} RunAppend(s: State, a: seq<Step>, b: seq<Step>)
    requires CanRun(s, a) && CanRun(Exec(s, a), b)
    ensures CanRun(s, a + b) && Exec(s, a + b) == Exec(Exec(s, a), b)
    decreases |a|
  {
    hide Enabled, Do;
    if a == [] {
      assert a + b == b;
    } else {
      assert (a + b)[1..] == a[1..] + b;
      RunAppend(Do(s, a[0]), a[1..], b);
    }
  }

  lemma RunOneMore(s: State, steps: seq<Step>, step: Step)
    requires CanRun(s, steps) && Enabled(Exec(s, steps), step)
    ensures CanRun(s, steps + [step]) && Exec(s, steps + [step]) == Do(Exec(s, steps), step)
  {
    hide Enabled, Do;
    var t := Exec(s, steps);
    assert [step][1..] == [];
    assert CanRun(t, [step]) && Exec(t, [step]) == Do(t, step);
    RunAppend(s, steps, [step]);
  }

  lemma {:induction false} RunKeepsInv(s: State, steps: seq<Step>)
    requires Inv(s) && CanRun(s, steps)
    ensures Inv(Exec(s, steps))
    ensures !Exec(s, steps).tainted ==> !s.tainted
    decreases |steps|
  {
    hide *;
    RunOfNothing(s);
    if steps != [] {
      RunUnfolds(s, steps);
      StepKeepsInv(s, steps[0]);
      RunKeepsInv(Do(s, steps[0]), steps[1..]);
      if !Do(s, steps[0]).tainted {
        TaintStays(s, steps[0]);
      }
    }
  }

  /**
   The engine is one map. After any run of requests, swaps, compactions and failed attempts, with crashes
   and recoveries among them, it answers with exactly the writes that were carried out, in order; and the
   files hold the same map. The run must not have removed a log while an older one was left over from a
   failed attempt, and each recovery must have met the logs in a safe order.
   */
  lemma {:induction false} EngineIsOneMap(s: State, steps: seq<Step>)
    requires Inv(s) && CanRun(s, steps) && !Exec(s, steps).tainted
    ensures Inv(Exec(s, steps))
    ensures Exec(s, steps).mem.Valid() && Exec(s, steps).Logical() == Apply(s.Logical(), Applied(steps))
    ensures Exec(s, steps).Durable() == Exec(s, steps).Logical()
    decreases |steps|
  {
    RunKeepsInv(s, steps);
    InvGives(s);
    hide *;
    if steps == [] {
      RunOfNothing(s);
      ApplyNothing(s.Logical());
    } else {
      RunUnfolds(s, steps);
      StepKeepsInv(s, steps[0]);
      RunKeepsInv(Do(s, steps[0]), steps[1..]);
      TaintStays(s, steps[0]);
      StepRefinesMap(s, steps[0]);
      EngineIsOneMap(Do(s, steps[0]), steps[1..]);
      ApplyFirst(s.Logical(), steps[0], Applied(steps[1..]));
    }
  }

  lemma InvGives(s: State)
    requires Inv(s)
    ensures s.mem.Valid() && (!s.tainted ==> s.Durable() == s.Logical())
  {
    hide Flatten, Effect, Concat;
  }

  lemma ApplyNothing(m: Memory)
    ensures Apply(m, []) == m
  {
  }

  lemma ApplyFirst(m: Memory, step: Step, rest: seq<Operation>)
    ensures Apply(m, (if step.Write? then [step.op] else []) + rest) ==
            Apply(if step.Write? then ApplyOne(m, step.op) else m, rest)
  {
    if step.Write? {
      assert [step.op][..0] == [];
      ApplyConcat(m, [step.op], rest);
    } else {
      assert [] + rest == rest;
    }
  }

  /** In memory, failed attempts and their retries never matter: only a restart reads the logs. */
  lemma {:induction false} LiveMapSurvivesFailures(s: State, steps: seq<Step>)
    requires Inv(s) && CanRun(s, steps) && forall i :: 0 <= i < |steps| ==> !steps[i].Restart?
    ensures Inv(Exec(s, steps))
    ensures Exec(s, steps).mem.Valid() && Exec(s, steps).Logical() == Apply(s.Logical(), Applied(steps))
    decreases |steps|
  {
    InvGives(s);
    hide *;
    if steps == [] {
      RunOfNothing(s);
      ApplyNothing(s.Logical());
    } else {
      assert forall i :: 0 <= i < |steps[1..]| ==> !steps[1..][i].Restart?;
      RunUnfolds(s, steps);
      StepKeepsInv(s, steps[0]);
      StepRefinesMap(s, steps[0]);
      LiveMapSurvivesFailures(Do(s, steps[0]), steps[1..]);
      ApplyFirst(s.Logical(), steps[0], Applied(steps[1..]));
    }
  }

  // ---------------------------------------------------------------- the log and the writable buffer

  /** The writable buffer is the effect of the current log. */
  ghost predicate BufferIsLog(s: State)
    requires s.mem.writer in s.mem.buf
  {
    s.mem.buf[s.mem.writer] == Effect(s.log)
  }

  lemma WriteKeepsBuffer(s: State, op: Operation)
    requires s.mem.Valid() && BufferIsLog(s) && Enabled(s, Write(op))
    ensures var t := Do(s, Write(op)); t.phase == s.phase && t.mem.Valid() && BufferIsLog(t)
  {
    ApplySnoc(map[], s.log, op);
    WriteContents(s.mem, op);
    hide Flatten, Concat, Apply, State.Guarded, State.Get;
  }

  lemma RestartKeepsBuffer(s: State, step: Step)
    requires Enabled(s, step) && step.Restart?
    ensures var t := Do(s, step); t.phase.Idle? && t.mem.Valid() && BufferIsLog(t)
  {
    hide SafeOrder, Flatten, Concat, Effect, Larges, LastSmall, Effects;
  }

  lemma StepKeepsBuffer(s: State, step: Step)
    requires s.mem.Valid() && s.phase.Idle? && BufferIsLog(s) && Enabled(s, step) && !step.SwapLog?
    ensures var t := Do(s, step); t.phase.Idle? && t.mem.Valid() && BufferIsLog(t)
  {
    if step.Write? {
      WriteKeepsBuffer(s, step.op);
    } else if step.Restart? {
      RestartKeepsBuffer(s, step);
    } else {
      hide SafeOrder, Flatten, Effect, State.Guarded;
      assert step.Drop? || step.FailWrite?;
    }
  }

  /**
   From an engine that has just started or recovered, and until the next swap begins, the writable buffer is
   exactly what replaying the current log gives. A swap ends this: a write between its first two statements is in
   the new log and in the buffer that is collected.
   */
  lemma {:induction false} BufferIsLogUntilSwap(s: State, steps: seq<Step>)
    requires s.mem.Valid() && s.phase.Idle? && BufferIsLog(s) && CanRun(s, steps)
    requires forall i :: 0 <= i < |steps| ==> !steps[i].SwapLog?
    ensures var t := Exec(s, steps); t.phase.Idle? && t.mem.Valid() && BufferIsLog(t)
    decreases |steps|
  {
    hide *;
    RunOfNothing(s);
    if steps != [] {
      RunUnfolds(s, steps);
      StepKeepsBuffer(s, steps[0]);
      BufferIsLogUntilSwap(Do(s, steps[0]), steps[1..]);
    }
  }

  lemma StartedBufferIsLog(s: State, visit: seq<nat>, threshold: nat)
    ensures BufferIsLog(Init())
    ensures Enabled(s, Restart(visit, threshold)) ==> BufferIsLog(Do(s, Restart(visit, threshold)))
  {
    assert Effect([]) == map[];
    hide SafeOrder, Effect, Flatten;
  }

  // ---------------------------------------------------------------- a log removed too early

  /** Every key that only the log about to be removed names is held, just so, by the older logs or the tables. */
  ghost predicate RemovalIsCovered(s: State)
    requires s.oldLogs != []
  {
    var n := |s.oldLogs| - 1;
    forall key :: key in Effect(s.oldLogs[n]) && key !in Effect(s.log) ==>
      Lookup(DurableMap(s.listed, s.oldLogs[..n]), key) == Some(Effect(s.oldLogs[n])[key])
  }

  lemma RemovalInMaps(s: State)
    requires s.oldLogs != []
    ensures var n := |s.oldLogs| - 1;
            var base, older, removed := Flatten(s.listed), Effect(Concat(s.oldLogs[..n])), Effect(s.oldLogs[n]);
            && s.Durable() == base + (older + removed + Effect(s.log))
            && s.(oldLogs := s.oldLogs[..n]).Durable() == base + (older + Effect(s.log))
            && DurableMap(s.listed, s.oldLogs[..n]) == base + older
  {
    var n := |s.oldLogs| - 1;
    var older, removed := s.oldLogs[..n], s.oldLogs[n];
    ConcatSnoc(s.oldLogs, s.log);
    ConcatSnoc(older, s.log);
    assert Concat(s.oldLogs) == Concat(older) + removed;
    hide Concat, Effect, Flatten;
    EffectConcat(Concat(older), removed);
    EffectConcat(Concat(older) + removed, s.log);
    EffectConcat(Concat(older), s.log);
  }

  lemma RemovalInDurable(s: State)
    requires s.oldLogs != []
    ensures s.(oldLogs := s.oldLogs[..|s.oldLogs| - 1]).Durable() == s.Durable() <==> RemovalIsCovered(s)
  {
    var n := |s.oldLogs| - 1;
    RemovalInMaps(s);
    RemovalAlgebra(Flatten(s.listed), Effect(Concat(s.oldLogs[..n])), Effect(s.oldLogs[n]), Effect(s.log));
    hide Flatten, Effect, Concat, DurableMap;
  }

  lemma RemovalFiles(s: State)
    requires Enabled(s, RemoveLog)
    ensures s.oldLogs != [] && Do(s, RemoveLog).Durable() == s.(oldLogs := s.oldLogs[..|s.oldLogs| - 1]).Durable()
  {
    hide Flatten, Effect, Concat, DurableMap;
  }

  /** Removing the old log keeps the durable map exactly when the removal is covered. */
  lemma RemoveLogExact(s: State)
    requires Inv(s) && !s.tainted && Enabled(s, RemoveLog)
    ensures Do(s, RemoveLog).mem.Valid() && s.oldLogs != []
    ensures Do(s, RemoveLog).Durable() == Do(s, RemoveLog).Logical() <==> RemovalIsCovered(s)
  {
    hide *;
    RemovalFiles(s);
    InvGives(s);
    StepRefinesMap(s, RemoveLog);
    RemovalInDurable(s);
  }

  lemma RemovalAlgebra(base: Memory, older: Memory, removed: Memory, kept: Memory)
    ensures base + (older + kept) == base + (older + removed + kept)
       <==> forall key :: key in removed && key !in kept ==> Lookup(base + older, key) == Some(removed[key])
  {
    var short, long := base + (older + kept), base + (older + removed + kept);
    if forall key :: key in removed && key !in kept ==> Lookup(base + older, key) == Some(removed[key]) {
      forall key
        ensures key in short <==> key in long
        ensures key in long ==> short[key] == long[key]
      {
        if key in removed && key !in kept {
          assert Lookup(base + older, key) == Some(removed[key]);
        }
      }
    }
    if short == long {
      forall key | key in removed && key !in kept
        ensures Lookup(base + older, key) == Some(removed[key])
      {
        assert Lookup(short, key) == Lookup(long, key);
      }
    }
  }
}
