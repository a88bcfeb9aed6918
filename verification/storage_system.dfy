/** Requests: the version guard, the log before the memory table, the memory table over the tables. */
module StorageSystems {
  import opened Wrappers
  import opened Kv
  import opened Disks
  import opened Tables
  import opened Compaction
  import opened Memtable
  import opened LogWriter
  import opened Collection
  import opened Engine
  import Log

  /** What the three outcomes of a request do to the engine. */
  lemma RequestSteps(s: State, op: Operation)
    requires Inv(s)
    ensures s.mem.Valid()
    ensures s.Guarded(op) <==> s.Get(op.key).Some? && op.version < s.Get(op.key).value.1
    ensures s.Guarded(op) <==> op.key !in s.mem.Contents() && op.key in Flatten(s.tables)
                               && Flatten(s.tables)[op.key].value.Some?
                               && op.version < Flatten(s.tables)[op.key].version
    ensures s.Guarded(op) ==> Enabled(s, Drop(op)) && Do(s, Drop(op)) == s
    ensures !s.Guarded(op) ==> Enabled(s, FailWrite(op)) && Do(s, FailWrite(op)) == s
    ensures !s.Guarded(op) ==>
              && Enabled(s, Write(op)) && Inv(Do(s, Write(op)))
              && Do(s, Write(op)) == s.(log := s.log + [op], mem := s.mem.Write(op))
              && Do(s, Write(op)).Logs() == s.Logs()[..|s.Logs()| - 1] + [s.Logs()[|s.Logs()| - 1] + [op]]
  {
    hide Flatten, LogsCover, BuffersInPhase, ListedInPhase, NothingEmpty, LogsInPhase;
    if !s.Guarded(op) {
      StepKeepsInv(s, Write(op));
    }
  }

  /** Right after it was written, an insertion is what a `Get` of its key answers; after a removal nothing is found. */
  lemma WrittenIsRead(s: State, op: Operation)
    requires Inv(s) && Enabled(s, Write(op))
    ensures Do(s, Write(op)).mem.Valid()
    ensures Do(s, Write(op)).Get(op.key) == if op.Insert? then Some((op.value, 0)) else None
    ensures forall key :: key != op.key ==> Do(s, Write(op)).Get(key) == s.Get(key)
  {
    hide Flatten, LogsCover, BuffersInPhase, ListedInPhase, NothingEmpty, LogsInPhase;
    WriteContents(s.mem, op);
  }

  // ---------------------------------------------------------------- the files of an engine

  /** A restart finds the listed tables of the engine and, in the log files from oldest to newest, its logs. */
  ghost predicate Loads(files: Files, ages: seq<nat>, e: State) {
    && GoodNames(ListedNames(files)) && AllWellFormed(Reload(files)) && Views(Reload(files)) == e.listed
    && IsListing(LogFiles(files), ages) && Decoded(LogFiles(files), ages) == e.Logs()
  }

  /** The files are those of an engine in this state, and no log file has a tail. */
  ghost predicate Shows(files: Files, e: State) {
    Untorn(LogFiles(files)) && exists ages :: Loads(files, ages, e)
  }

  /** Files with the same list, tables and logs are those of the same engines. */
  lemma ShowsSame(files: Files, other: Files, e: State, f: State)
    requires Shows(files, e) && LogFiles(other) == LogFiles(files) && e.Logs() == f.Logs()
    requires GoodNames(ListedNames(other)) && AllWellFormed(Reload(other)) && Views(Reload(other)) == f.listed
    ensures Shows(other, f)
  {
    hide LogFiles, ListedNames, Reload, IsListing, Decoded, Untorn, GoodNames, AllWellFormed, Views, State.Logs;
    var ages :| Loads(files, ages, e);
    assert Loads(other, ages, f);
  }

  // ---------------------------------------------------------------- a crash inside an operation

  /** What a crash cannot have touched: the list and the files of listed tables. */
  predicate Untouched(path: Path, names: seq<Bytes>) {
    path.Metadata? || ((path.Data? || path.Index?) && path.name in names)
  }

  /** The current log ends in a part of one more entry. */
  ghost predicate TornBy(after: map<nat, Bytes>, logs: map<nat, Bytes>, current: nat, op: Operation, cut: nat) {
    && Log.Fits(op) && cut < |Log.EncodeEntry(op)| && current in logs
    && after == logs[current := logs[current] + Log.EncodeEntry(op)[..cut]]
  }

  /**
   A crash inside an operation: the current log may end in a part of one more entry, and the files of tables
   that are not listed, as well as the list that is written beside the old one, may hold anything.
   */
  ghost predicate Interrupted(after: Files, files: Files, current: nat) {
    && (forall p :: Untouched(p, ListedNames(files)) ==>
          (p in after <==> p in files) && (p in files ==> after[p] == files[p]))
    && (LogFiles(after) == LogFiles(files)
        || exists op, cut: nat :: TornBy(LogFiles(after), LogFiles(files), current, op, cut))
  }

  lemma KeptReloads(after: Files, files: Files)
    requires forall p :: Untouched(p, ListedNames(files)) ==>
               (p in after <==> p in files) && (p in files ==> after[p] == files[p])
    ensures ListedNames(after) == ListedNames(files) && Reload(after) == Reload(files)
  {
    assert Untouched(Metadata, ListedNames(files));
    hide DecodeIndex, DecodeMetadata;
    assert ListedNames(after) == ListedNames(files);
    forall i | 0 <= i < |ListedNames(files)|
      ensures LoadTable(after, ListedNames(files)[i]) == LoadTable(files, ListedNames(files)[i])
    {
      assert Untouched(Data(ListedNames(files)[i]), ListedNames(files));
      assert Untouched(Index(ListedNames(files)[i]), ListedNames(files));
    }
    LoadAllSameFiles(after, files, ListedNames(files));
  }

  /** After a crash inside an operation a restart finds what it would have found before that operation. */
  lemma InterruptedLoads(after: Files, files: Files, ages: seq<nat>, e: State, current: nat)
    requires Loads(files, ages, e) && Untorn(LogFiles(files)) && Interrupted(after, files, current)
    ensures Loads(after, ages, e)
  {
    KeptReloads(after, files);
    hide LogFiles, ListedNames, Reload, IsListing, Decoded, Untorn, GoodNames, AllWellFormed, Views, State.Logs;
    hide Untouched, Log.Fits, Log.EncodeEntry;
    if LogFiles(after) != LogFiles(files) {
      var op, cut: nat :| TornBy(LogFiles(after), LogFiles(files), current, op, cut);
      TornAppendIsUnread(LogFiles(files), ages, current, op, cut);
    }
  }

  // ---------------------------------------------------------------- the history of a run

  /** The files are those of the engine after the first `p` steps. */
  ghost predicate ShowsAfter(files: Files, start: State, steps: seq<Step>, p: nat) {
    p <= |steps| && CanRun(start, steps[..p]) && Shows(files, Exec(start, steps[..p]))
  }

  /** The steps whose files a restart can tell from those before. */
  predicate Leaves(step: Step) {
    step.Write? || step.SwapLog? || step.List? || step.RemoveLog? || step.Rename? || step.DeleteOldest?
  }

  /**
   Every state of the disk from number `from` on is that of the engine at a point of the run. The points never go
   back, and none of the steps that change the files is skipped.
   */
  ghost predicate Chronicle(history: seq<Files>, from: nat, start: State, steps: seq<Step>, points: seq<nat>) {
    && |history| == from + |points|
    && (forall i :: 0 <= i < |points| ==> ShowsAfter(history[from + i], start, steps, points[i]))
    && (forall i, j :: 0 <= i < j < |points| ==> points[i] <= points[j])
    && (forall w :: 0 <= w < |steps| && Leaves(steps[w]) ==> w + 1 in points)
  }

  ghost predicate Tracked(history: seq<Files>, from: nat, start: State, steps: seq<Step>) {
    exists points :: Chronicle(history, from, start, steps, points)
  }

  lemma ShownInFirst(files: Files, start: State, a: seq<Step>, b: seq<Step>, p: nat)
    requires ShowsAfter(files, start, a, p)
    ensures ShowsAfter(files, start, a + b, p)
  {
    hide Shows, CanRun, Exec;
    TakeInFirst(a, b, p);
  }

  lemma ShownInSecond(files: Files, start: State, a: seq<Step>, b: seq<Step>, p: nat)
    requires CanRun(start, a) && ShowsAfter(files, Exec(start, a), b, p)
    ensures ShowsAfter(files, start, a + b, |a| + p)
  {
    hide Shows, CanRun, Exec;
    RunAppend(start, a, b[..p]);
    TakeOfConcat(a, b, |a| + p);
  }

  /** The states of one run, and those of the run that goes on from its end. */
  lemma TrackedTogether(first: seq<Files>, all: seq<Files>, from: nat, start: State, a: seq<Step>, b: seq<Step>)
    requires first <= all && CanRun(start, a)
    requires Tracked(first, from, start, a) && Tracked(all, |first|, Exec(start, a), b)
    ensures Tracked(all, from, start, a + b)
  {
    hide ShowsAfter, CanRun, Exec;
    var early :| Chronicle(first, from, start, a, early);
    var late :| Chronicle(all, |first|, Exec(start, a), b, late);
    var points := early + seq(|late|, i requires 0 <= i < |late| => |a| + late[i]);
    forall i | 0 <= i < |points|
      ensures ShowsAfter(all[from + i], start, a + b, points[i])
    {
      if i < |early| {
        assert all[from + i] == first[from + i];
        ShownInFirst(all[from + i], start, a, b, points[i]);
      } else {
        var k := i - |early|;
        assert all[from + i] == all[|first| + k];
        ShownInSecond(all[|first| + k], start, a, b, late[k]);
      }
    }
    PointsTogether(a, b, early, late, points);
    PointsBound(first, from, start, a, early);
    assert Chronicle(all, from, start, a + b, points);
  }

  lemma PointsBound(history: seq<Files>, from: nat, start: State, steps: seq<Step>, points: seq<nat>)
    requires Chronicle(history, from, start, steps, points)
    ensures forall i :: 0 <= i < |points| ==> points[i] <= |steps|
  {
    hide Shows, CanRun, Exec;
  }

  lemma PointsTogether(a: seq<Step>, b: seq<Step>, early: seq<nat>, late: seq<nat>, points: seq<nat>)
    requires forall w :: 0 <= w < |a| && Leaves(a[w]) ==> w + 1 in early
    requires forall w :: 0 <= w < |b| && Leaves(b[w]) ==> w + 1 in late
    requires points == early + seq(|late|, i requires 0 <= i < |late| => |a| + late[i])
    ensures forall w :: 0 <= w < |a + b| && Leaves((a + b)[w]) ==> w + 1 in points
  {
    hide Leaves;
    forall w | 0 <= w < |a + b| && Leaves((a + b)[w])
      ensures w + 1 in points
    {
      if w < |a| {
        assert (a + b)[w] == a[w];
        var k :| 0 <= k < |early| && early[k] == w + 1;
        assert points[k] == w + 1;
      } else {
        assert (a + b)[w] == b[w - |a|];
        var k :| 0 <= k < |late| && late[k] == w - |a| + 1;
        assert points[|early| + k] == w + 1;
      }
    }
  }

  /** No step of the run changes what a restart finds. */
  lemma TrackedStill(history: seq<Files>, from: nat, start: State, steps: seq<Step>)
    requires from <= |history| && forall i :: from <= i < |history| ==> Shows(history[i], start)
    requires forall w :: 0 <= w < |steps| ==> !Leaves(steps[w])
    ensures Tracked(history, from, start, steps)
  {
    RunOfNothing(start);
    assert steps[..0] == [];
    hide Shows, CanRun, Exec, Leaves;
    var points := seq(|history| - from, i => 0);
    assert Chronicle(history, from, start, steps, points);
  }

  /** The run leaves one new state of the disk, after its first `p` steps. */
  lemma TrackedOne(before: seq<Files>, all: seq<Files>, start: State, steps: seq<Step>, p: nat)
    requires before <= all && |all| == |before| + 1 && ShowsAfter(all[|before|], start, steps, p)
    requires forall w :: 0 <= w < |steps| && Leaves(steps[w]) ==> w + 1 == p
    ensures Tracked(all, |before|, start, steps)
  {
    hide ShowsAfter, Leaves;
    var points := [p];
    assert points[0] == p;
    assert Chronicle(all, |before|, start, steps, points);
  }

  /** One step that leaves one new state. */
  lemma TrackedStep(before: seq<Files>, files: Files, start: State, step: Step)
    requires Enabled(start, step) && Shows(files, Do(start, step))
    ensures Tracked(before + [files], |before|, start, [step])
  {
    hide Shows, Enabled, Do;
    OneIsRun(start, step);
    assert [step][..1] == [step];
    TrackedOne(before, before + [files], start, [step], 1);
  }

  // ---------------------------------------------------------------- requests

  ghost predicate Requests(steps: seq<Step>) {
    forall i :: 0 <= i < |steps| ==> steps[i].Write? || steps[i].Drop? || steps[i].FailWrite?
  }

  /** Requests change the current log and the writable buffer, and nothing else. */
  lemma {:induction false} RequestsKeep(s: State, steps: seq<Step>)
    requires Requests(steps) && CanRun(s, steps)
    ensures var t := Exec(s, steps);
            && t.tables == s.tables && t.listed == s.listed && t.oldLogs == s.oldLogs && t.phase == s.phase
            && t.mem.first == s.mem.first && t.mem.second == s.mem.second && t.mem.writer == s.mem.writer
            && t.tainted == s.tainted
            && (forall id :: id in s.mem.buf && id != s.mem.writer ==>
                  id in t.mem.buf && t.mem.buf[id] == s.mem.buf[id])
            && (s.mem.writer in s.mem.buf ==>
                  t.mem.writer in t.mem.buf && s.mem.buf[s.mem.writer].Keys <= t.mem.buf[t.mem.writer].Keys)
    decreases |steps|
  {
    if steps == [] {
      RunOfNothing(s);
    } else {
      RunUnfolds(s, steps);
      RequestsKeep(Do(s, steps[0]), steps[1..]);
      hide Flatten, Exec, CanRun;
    }
  }

  lemma OneIsRun(s: State, step: Step)
    requires Enabled(s, step)
    ensures CanRun(s, [step]) && Exec(s, [step]) == Do(s, step)
  {
    hide Enabled, Do;
    RunOfNothing(Do(s, step));
    assert [step][1..] == [];
  }

  class StorageSystem {
    const wal: SwappableWalWriterImpl
    const storage: SwappableMemoryStorage
    const persistent: PersistentStorageCollection

    /** The state of the engine that the objects and their files are in. */
    ghost var engine: State

    /** All that a request or a swap may change. */
    ghost var Repr: set<object>

    ghost predicate Valid()
      reads this, wal, wal.writer, persistent, persistent.disk
      reads storage, storage.readerFirst, storage.readerSecond, storage.writer
    {
      && wal.disk == persistent.disk
      && wal.Valid() && storage.Valid() && persistent.Valid()
      && engine.mem == storage.view
      && engine.tables == engine.listed == Views(persistent.collection)
      && engine.Logs() == wal.logs
      && Inv(engine)
      && this in Repr && wal in Repr && wal.writer in Repr && persistent in Repr && persistent.disk in Repr
      && storage in Repr && storage.readerFirst in Repr && storage.readerSecond in Repr && storage.writer in Repr
    }

    /** A restart would find exactly the tables in memory, and the log files hold nothing but what was logged. */
    ghost predicate Settled()
      reads this, wal, wal.disk, persistent, persistent.disk
    {
      wal.Settled() && persistent.Reloads()
    }

    constructor (wal: SwappableWalWriterImpl, storage: SwappableMemoryStorage,
                 persistent: PersistentStorageCollection, ghost engine: State)
      requires wal.disk == persistent.disk
      requires wal.Valid() && storage.Valid() && persistent.Valid()
      requires engine.mem == storage.view && engine.tables == engine.listed == Views(persistent.collection)
      requires engine.Logs() == wal.logs && Inv(engine)
      ensures Valid() && this.wal == wal && this.storage == storage && this.persistent == persistent
      ensures this.engine == engine
      ensures Repr == {this, wal, wal.writer, persistent, persistent.disk,
                       storage, storage.readerFirst, storage.readerSecond, storage.writer}
    {
      hide ListedNames, Reload, StrictlySorted, LogsHold, LogsCover, LogFiles, Structure, SavedAs;
      this.wal, this.storage, this.persistent, this.engine := wal, storage, persistent, engine;
      Repr := {this, wal, wal.writer, persistent, persistent.disk,
               storage, storage.readerFirst, storage.readerSecond, storage.writer};
    }

    lemma Holds()
      requires Valid()
      ensures Inv(engine) && persistent.disk.Valid() && GoodNames(ListedNames(persistent.disk.files))
      ensures LogsHold(LogFiles(persistent.disk.files), wal.spans, engine.Logs())
      ensures AllWellFormed(persistent.collection) && SavedAs(Reload(persistent.disk.files), persistent.collection)
    {
      hide ListedNames, Reload, LogsHold, LogFiles, Inv, StrictlySorted, ReadEntryAt, SavedAs;
    }

    /** A settled system can be stopped at once: its files are those of its engine. */
    lemma SettledShows()
      requires Valid() && Settled()
      ensures Loads(persistent.disk.files, FileNumbers(wal.spans), engine) && Shows(persistent.disk.files, engine)
    {
      hide ListedNames, Reload, LogsHold, LogFiles, Inv, StrictlySorted, ReadEntryAt, SavedAs, IsListing, Decoded;
      hide Whole, Untorn, FileNumbers;
      LogsAreRead(LogFiles(persistent.disk.files), wal.spans, wal.logs);
    }

    /**
     `Get`. A key in memory is answered from memory, with version 0, and a tombstone there hides the tables;
     the value is always that of the one map.
     */
    method Get(key: Bytes) returns (r: Result<(Bytes, uint64)>)
      requires Valid()
      ensures Inv(engine) && engine.mem.Valid()
      ensures r.Ok? <==> key in engine.Logical() && engine.Logical()[key].value.Some?
      ensures r.Ok? ==> r.value.0 == engine.Logical()[key].value.value
      ensures r.Ok? ==> r.value.1 == if key in engine.mem.Contents() then 0 else engine.Logical()[key].version
      ensures engine.Get(key) == if r.Ok? then Some(r.value) else None
    {
      hide ListedNames, Reload, StrictlySorted, LogsHold, LogsCover, LogFiles;
      var mem := storage.Get(key);
      if mem.Ok? {
        if mem.value.value.Some? {
          return Ok((mem.value.value.value, 0));
        }
        return Err;
      }
      var res := persistent.Get(key);
      if res.Ok? && res.value.value.Some? {
        return Ok((res.value.value.value, res.value.version));
      }
      return Err;
    }

    method BufferSize() returns (n: nat)
      requires Valid()
      ensures engine.mem.Valid() && n == |engine.mem.buf[engine.mem.writer]|
    {
      hide ListedNames, Reload, LogsHold, LogFiles;
      n := storage.Size();
    }

    method Remember(op: Operation)
      requires storage.Valid()
      modifies storage.writer, storage`view
      ensures storage.Valid() && storage.view == old(storage.view).Write(op)
    {
      match op {
        case Insert(key, value, version) => storage.Insert(key, value, version);
        case Remove(key, version) => storage.Remove(key, version);
      }
    }

    /** The log first; memory only if the log has taken the operation. */
    method LogThenRemember(op: Operation) returns (ok: bool)
      requires Valid() && engine.mem.Valid() && !engine.Guarded(op)
      modifies Repr
      ensures Valid() && Repr == old(Repr) && ok == Log.Fits(op)
      ensures persistent.disk.history == old(persistent.disk.history) + if ok then [persistent.disk.files] else []
      ensures engine == if ok then Do(old(engine), Step.Write(op)) else old(engine)
      ensures !ok ==> persistent.disk.files == old(persistent.disk.files) && storage.view == old(storage.view)
      ensures OtherFiles(persistent.disk.files) == old(OtherFiles(persistent.disk.files))
      ensures FileNumbers(wal.spans) == old(FileNumbers(wal.spans))
      ensures old(Settled()) ==> Settled()
      ensures ok && old(persistent.Reloads() && wal.OldSettled()) ==>
                (Settled() <==> old(wal.writer.Length()) <= wal.writer.pos)
    {
      hide ListedNames, Reload, StrictlySorted, LogsHold, LogFiles, OtherFiles, Inv, Enabled, Do, Log.Fits;
      hide GoodNames, Views, State.Get, State.Logical, Flatten, SwappableMemoryStorage.Valid, SavedAs;
      hide Whole, IsListing, Decoded, SwappableWalWriterImpl.Settled, SwappableWalWriterImpl.OldSettled;
      hide WALWriterImpl.Length;
      RequestSteps(engine, op);
      ok := wal.WriteEntry(op);
      LogsAreNotTables(persistent.disk.files, old(persistent.disk.files));
      if ok {
        Remember(op);
        engine := Do(engine, Step.Write(op));
      }
    }

    /**
     `Insert` and `Remove`, which differ only in the operation. It is left out when the key is bound to a
     newer value; otherwise it goes to the log, and then to memory unless the log refuses it.
     */
    method Write(op: Operation) returns (ok: bool, ghost step: Step)
      requires Valid()
      modifies Repr
      ensures Valid() && Repr == old(Repr)
      ensures old(engine).mem.Valid() && Enabled(old(engine), step) && engine == Do(old(engine), step)
      ensures step == if old(engine).Guarded(op) then Drop(op)
                      else if Log.Fits(op) then Step.Write(op) else FailWrite(op)
      ensures ok <==> !step.FailWrite?
      ensures engine.mem.Valid()
      ensures step.Write? ==> engine.Get(op.key) == if op.Insert? then Some((op.value, 0)) else None
      ensures persistent.disk.history ==
              old(persistent.disk.history) + if step.Write? then [persistent.disk.files] else []
      ensures step.Drop? <==> op.key !in old(engine).mem.Contents() && op.key in Flatten(old(engine).tables)
                              && Flatten(old(engine).tables)[op.key].value.Some?
                              && op.version < Flatten(old(engine).tables)[op.key].version
      ensures !step.Write? ==> persistent.disk.files == old(persistent.disk.files) && storage.view == old(storage.view)
      ensures OtherFiles(persistent.disk.files) == old(OtherFiles(persistent.disk.files))
      ensures FileNumbers(wal.spans) == old(FileNumbers(wal.spans))
      ensures old(Settled()) ==> Settled()
      ensures step.Write? && old(persistent.Reloads() && wal.OldSettled()) ==>
                (Settled() <==> old(wal.writer.Length()) <= wal.writer.pos)
    {
      hide StorageSystem.Valid, Inv, Enabled, Do, State.Get, State.Guarded, State.Logical, Log.Fits, OtherFiles;
      hide StorageSystem.Settled, PersistentStorageCollection.Reloads, SwappableWalWriterImpl.OldSettled;
      hide WALWriterImpl.Length;
      var current := Get(op.key);
      RequestSteps(engine, op);
      if current.Ok? && op.version < current.value.1 {
        return true, Drop(op);
      }
      ok := LogThenRemember(op);
      step := if ok then Step.Write(op) else FailWrite(op);
      if ok {
        WrittenIsRead(old(engine), op);
      }
    }

    /** Other requests, one after the other. */
    method Serve(ops: seq<Operation>) returns (ghost steps: seq<Step>)
      requires Valid()
      modifies Repr
      ensures Valid() && Repr == old(Repr)
      ensures Requests(steps) && CanRun(old(engine), steps) && engine == Exec(old(engine), steps)
      ensures old(persistent.disk.history) <= persistent.disk.history
      ensures old(Settled()) ==>
                Settled() && Tracked(persistent.disk.history, |old(persistent.disk.history)|, old(engine), steps)
      ensures |steps| == |ops| && forall i :: 0 <= i < |ops| ==> steps[i].op == ops[i]
      ensures OtherFiles(persistent.disk.files) == old(OtherFiles(persistent.disk.files))
      ensures FileNumbers(wal.spans) == old(FileNumbers(wal.spans))
    {
      hide StorageSystem.Valid, Enabled, Do, OtherFiles, FileNumbers, CanRun, Exec, Flatten, Log.Fits, State.Guarded;
      hide Tracked, Shows, Loads, StorageSystem.Settled, PersistentStorageCollection.Reloads, Whole;
      RunOfNothing(engine);
      TrackedStill(persistent.disk.history, |persistent.disk.history|, engine, []);
      steps := [];
      var i := 0;
      while i < |ops|
        invariant i <= |ops| && Valid() && Repr == old(Repr)
        invariant Requests(steps) && CanRun(old(engine), steps) && engine == Exec(old(engine), steps)
        invariant old(persistent.disk.history) <= persistent.disk.history
        invariant old(Settled()) ==>
                    Settled()
                    && Tracked(persistent.disk.history, |old(persistent.disk.history)|, old(engine), steps)
        invariant |steps| == i && forall j :: 0 <= j < i ==> steps[j].op == ops[j]
        invariant OtherFiles(persistent.disk.files) == old(OtherFiles(persistent.disk.files))
        invariant FileNumbers(wal.spans) == old(FileNumbers(wal.spans))
      {
        ghost var before, history := engine, persistent.disk.history;
        ghost var step;
        var ok;
        ok, step := Write(ops[i]);
        RunOneMore(old(engine), steps, step);
        if old(Settled()) {
          RequestTracked(history, before, step);
          TrackedTogether(history, persistent.disk.history, |old(persistent.disk.history)|, old(engine), steps,
                          [step]);
        }
        steps := steps + [step];
        i := i + 1;
      }
    }

    lemma RequestTracked(history: seq<Files>, before: State, step: Step)
      requires Valid() && Settled() && Enabled(before, step) && engine == Do(before, step)
      requires step.Write? || step.Drop? || step.FailWrite?
      requires persistent.disk.history == history + if step.Write? then [persistent.disk.files] else []
      ensures Tracked(persistent.disk.history, |history|, before, [step])
    {
      hide StorageSystem.Valid, Enabled, Do, Tracked, Shows, Loads, StorageSystem.Settled;
      SettledShows();
      if step.Write? {
        TrackedStep(history, persistent.disk.files, before, step);
      } else {
        TrackedStill(persistent.disk.history, |history|, before, [step]);
      }
    }
  }
}
