/** Crashes during a start, and the engine that a start sets going. */
module Restarts {
  import opened Wrappers
  import opened Kv
  import opened Disks
  import opened Tables
  import opened Compaction
  import opened Memtable
  import opened LogWriter
  import opened Recovery
  import opened Collection
  import opened Versions
  import opened Startup
  import opened StorageSystems
  import Engine
  import Log

  /** The logs that are still there, oldest first. */
  function Remaining(files: map<nat, Bytes>, ages: seq<nat>): seq<seq<Operation>> {
    if ages == [] then
      []
    else
      var last := ages[|ages| - 1];
      Remaining(files, ages[..|ages| - 1]) + if last in files then [Log.DecodeLog(files[last]).ops] else []
  }

  /** `ages` are the log files from the oldest to the newest, and the directory lists them in a safe order. */
  ghost predicate Ordered(found: Found, ages: seq<nat>, visit: seq<nat>)
    requires found.Valid()
  {
    && IsListing(found.logs, ages)
    && SafeOrder(Decoded(found.logs, ages), visit, found.threshold)
    && |visit| == |found.dir| && forall i :: 0 <= i < |visit| ==> visit[i] < |ages| && found.dir[i] == ages[visit[i]]
  }

  lemma OrderedVisit(found: Found, ages: seq<nat>, visit: seq<nat>)
    requires found.Valid() && Ordered(found, ages, visit)
    ensures found.Visited() == Visited(Decoded(found.logs, ages), visit)
  {
    hide Log.DecodeLog, SafeOrder;
  }

  function Oldest(ages: seq<nat>, m: nat): set<nat>
    requires m <= |ages|
  {
    set n | n in ages[..m]
  }

  lemma OldestGrows(ages: seq<nat>, m: nat)
    requires m < |ages|
    ensures Oldest(ages, m + 1) == Oldest(ages, m) + {ages[m]}
  {
    assert ages[..m + 1] == ages[..m] + [ages[m]];
  }

  lemma OldestAre(ages: seq<nat>, m: nat, i: nat)
    requires m <= |ages| && i < |ages| && forall i, j :: 0 <= i < j < |ages| ==> ages[i] != ages[j]
    ensures ages[i] in Oldest(ages, m) <==> i < m
  {
    if i < m {
      assert ages[..m][i] == ages[i];
    }
  }

  lemma NextLarge(logs: seq<seq<Operation>>, visit: seq<nat>, threshold: nat, k: nat)
    requires SafeOrder(logs, visit, threshold) && k < |visit|
    ensures visit[k] < |logs|
    ensures var before := LargeIndices(logs, visit[..k], threshold);
            var after := LargeIndices(logs, visit[..k + 1], threshold);
            if IsLarge(logs[visit[k]], threshold) then |after| == |before| + 1 <= |logs| && visit[k] == |before|
            else after == before && |after| <= |logs|
  {
    FirstLarges(logs, visit, threshold, k + 1);
    assert visit[..k + 1][..k] == visit[..k];
    hide SafeOrder, IsLarge, Larges;
    var before := LargeIndices(logs, visit[..k], threshold);
    if IsLarge(logs[visit[k]], threshold) {
      assert LargeIndices(logs, visit[..k + 1], threshold)[|before|] == visit[k];
    }
  }

  lemma {:induction false} GoneAreOldest(dir: seq<nat>, visited: seq<seq<Operation>>, threshold: nat,
                                          logs: seq<seq<Operation>>, ages: seq<nat>, visit: seq<nat>, k: nat)
    requires SafeOrder(logs, visit, threshold) && |ages| == |logs| && |dir| == |visited| == |visit| && k <= |visit|
    requires forall i :: 0 <= i < |visit| ==>
               visit[i] < |ages| && dir[i] == ages[visit[i]] && visited[i] == logs[visit[i]]
    ensures |LargeIndices(logs, visit[..k], threshold)| <= |ages|
    ensures Gone(dir, visited, threshold, k) == Oldest(ages, |LargeIndices(logs, visit[..k], threshold)|)
  {
    hide IsLarge;
    if k > 0 {
      NextLarge(logs, visit, threshold, k - 1);
      GoneAreOldest(dir, visited, threshold, logs, ages, visit, k - 1);
      hide SafeOrder, LargeIndices, Oldest;
      if IsLarge(logs[visit[k - 1]], threshold) {
        OldestGrows(ages, |LargeIndices(logs, visit[..k - 1], threshold)|);
      }
    }
  }

  lemma FirstGone(found: Found, ages: seq<nat>, visit: seq<nat>, k: nat)
    requires found.Valid() && Ordered(found, ages, visit) && k <= |visit|
    ensures |LargeIndices(Decoded(found.logs, ages), visit[..k], found.threshold)| <= |ages|
    ensures Gone(found.dir, found.Visited(), found.threshold, k) ==
            Oldest(ages, |LargeIndices(Decoded(found.logs, ages), visit[..k], found.threshold)|)
  {
    OrderedVisit(found, ages, visit);
    hide IsLarge, Log.DecodeLog, SafeOrder, IsListing, Gone, Oldest, LargeIndices, Found.Visited;
    GoneAreOldest(found.dir, found.Visited(), found.threshold, Decoded(found.logs, ages), ages, visit, k);
  }

  lemma RemainingStep(files: map<nat, Bytes>, ages: seq<nat>, p: nat)
    requires p < |ages|
    ensures Remaining(files, ages[..p + 1]) ==
            Remaining(files, ages[..p]) + if ages[p] in files then [Log.DecodeLog(files[ages[p]]).ops] else []
  {
    assert ages[..p + 1][..p] == ages[..p];
    hide Log.DecodeLog;
  }

  lemma OneMoreAfter<T>(logs: seq<T>, m: nat, p: nat)
    requires m <= p < |logs|
    ensures logs[m..p + 1] == logs[m..p] + [logs[p]]
  {
  }

  /** Without the `m` oldest logs, the logs that remain among the first `p` are those after them. */
  lemma {:induction false} RemainingAfter(all: map<nat, Bytes>, ages: seq<nat>, logs: seq<seq<Operation>>, m: nat,
                                          p: nat)
    requires IsListing(all, ages) && logs == Decoded(all, ages) && m <= |ages| && p <= |ages|
    ensures Remaining(all - Oldest(ages, m), ages[..p]) == if p <= m then [] else logs[m..p]
  {
    hide Oldest, Log.DecodeLog;
    if p > 0 {
      OldestAre(ages, m, p - 1);
      var x := ages[p - 1];
      assert x in all && logs[p - 1] == Log.DecodeLog(all[x]).ops;
      hide Decoded, IsListing;
      RemainingAfter(all, ages, logs, m, p - 1);
      RemainingStep(all - Oldest(ages, m), ages, p - 1);
      hide Remaining;
      if m < p {
        OneMoreAfter(logs, m, p - 1);
      }
    }
  }

  /** Replaying logs over tables that have already taken in the oldest of them, or one more than is gone. */
  lemma PartlyTaken(tables: seq<Memory>, logs: seq<seq<Operation>>, taken: nat, removed: nat)
    requires removed <= taken <= |logs| && taken <= removed + 1
    ensures DurableMap(tables + Effects(logs[..taken]), logs[removed..]) == DurableMap(tables, logs)
  {
    var early, rest := logs[..removed], logs[removed..];
    assert logs == early + rest;
    var base, a, b := Flatten(tables), Effect(Concat(early)), Effect(Concat(rest));
    ConcatConcat(early, rest);
    EffectConcat(Concat(early), Concat(rest));
    FlattenConcat(tables, Effects(logs[..taken]));
    FlattenEffects(logs[..taken]);
    UnionIsAssociative(base, a, b);
    if taken > removed {
      var middle, later := logs[removed], logs[removed + 1..];
      assert logs[..taken] == early + [middle] && rest == [middle] + later;
      ConcatSnoc(early, middle);
      EffectConcat(Concat(early), middle);
      ConcatConcat([middle], later);
      ConcatTwo(middle, middle);
      EffectConcat(Concat([middle]), Concat(later));
      TakenTwice(base, a, Effect(middle), Effect(Concat(later)));
    }
  }

  lemma TakenTwice(base: Memory, a: Memory, middle: Memory, later: Memory)
    ensures base + (a + middle) + (middle + later) == base + (a + (middle + later))
  {
  }

  lemma TakenAtStage(found: Found, ages: seq<nat>, visit: seq<nat>, added: nat, removed: nat)
    returns (taken: nat, gone: nat)
    requires found.Valid() && Ordered(found, ages, visit)
    requires removed <= added <= |found.dir| && added <= removed + 1
    ensures gone <= taken <= |ages| && taken <= gone + 1
    ensures Larges(found.Visited()[..added], found.threshold) == Decoded(found.logs, ages)[..taken]
    ensures Gone(found.dir, found.Visited(), found.threshold, removed) == Oldest(ages, gone)
  {
    var logs := Decoded(found.logs, ages);
    OrderedVisit(found, ages, visit);
    hide IsLarge, Found.Visited, Log.DecodeLog, Larges, LargeIndices, Gone, Oldest;
    taken := |LargeIndices(logs, visit[..added], found.threshold)|;
    gone := |LargeIndices(logs, visit[..removed], found.threshold)|;
    FirstLarges(logs, visit, found.threshold, added);
    FirstGone(found, ages, visit, removed);
    if removed < added {
      NextLarge(logs, visit, found.threshold, removed);
    }
  }

  lemma StageInLogs(found: Found, ages: seq<nat>, visit: seq<nat>, files: Files, added: nat, removed: nat)
    returns (taken: nat, gone: nat)
    requires found.Valid() && Ordered(found, ages, visit) && AtStage(files, found, added, removed)
    ensures gone <= taken <= |ages| && taken <= gone + 1
    ensures Views(Reload(files)) == found.tables + Effects(Decoded(found.logs, ages)[..taken])
    ensures Remaining(LogFiles(files), ages) == Decoded(found.logs, ages)[gone..]
  {
    hide IsLarge, Found.Visited, Log.DecodeLog, Larges, Gone, Oldest, Effects, Reload, LogFiles, SafeOrder;
    hide Remaining, AllWellFormed, Views;
    taken, gone := TakenAtStage(found, ages, visit, added, removed);
    var logs := Decoded(found.logs, ages);
    RemainingAfter(found.logs, ages, logs, gone, |ages|);
    assert ages[..|ages|] == ages && logs[gone..|ages|] == logs[gone..];
  }

  /**
   A crash at any point of a start loses nothing: the tables it has listed and the logs it has not removed
   hold the same map as before. Its retry, if the logs left are met in a safe order, rebuilds that map.
   */
  lemma StageKeepsMap(found: Found, ages: seq<nat>, visit: seq<nat>, files: Files)
    requires found.Valid() && Ordered(found, ages, visit) && SomeStage(files, found)
    ensures var tables, logs := Views(Reload(files)), Remaining(LogFiles(files), ages);
            && AllWellFormed(Reload(files))
            && DurableMap(tables, logs) == DurableMap(found.tables, Decoded(found.logs, ages))
            && forall again, threshold :: SafeOrder(logs, again, threshold) ==>
                 RecoveredMap(tables, Visited(logs, again), threshold) ==
                           DurableMap(found.tables, Decoded(found.logs, ages))
  {
    var added: nat, removed: nat :| AtStage(files, found, added, removed);
    var taken, gone := StageInLogs(found, ages, visit, files, added, removed);
    PartlyTaken(found.tables, Decoded(found.logs, ages), taken, gone);
    var tables, logs := Views(Reload(files)), Remaining(LogFiles(files), ages);
    hide Ordered, Decoded, Reload, LogFiles, Remaining, Effects, RecoveredMap, DurableMap;
    forall again, threshold | SafeOrder(logs, again, threshold)
      ensures RecoveredMap(tables, Visited(logs, again), threshold) ==
                DurableMap(found.tables, Decoded(found.logs, ages))
    {
      RecoveryRebuilds(tables, logs, again, threshold);
    }
  }

  /** A crash while the files of a table are being written is at the same stage: what they hold does not matter. */
  lemma InterruptedStage(after: Files, files: Files, found: Found)
    requires found.Valid() && SomeStage(files, found) && LogFiles(after) == LogFiles(files)
    requires forall p :: Untouched(p, ListedNames(files)) ==>
               (p in after <==> p in files) && (p in files ==> after[p] == files[p])
    ensures SomeStage(after, found)
  {
    KeptReloads(after, files);
    hide Reload, ListedNames, LogFiles, Untouched, Larges, Effects, Gone, Found.Visited, Found.Valid, Views;
    hide AllWellFormed;
    var added: nat, removed: nat :| AtStage(files, found, added, removed);
    assert AtStage(after, found, added, removed);
  }

  // ---------------------------------------------------------------- the engine after a start

  lemma GoneAtEnd(found: Found, ages: seq<nat>, visit: seq<nat>) returns (m: nat)
    requires found.Valid() && Ordered(found, ages, visit)
    ensures m <= |ages| && Gone(found.dir, found.Visited(), found.threshold, |found.dir|) == Oldest(ages, m)
    ensures if LastSmall(found.Visited(), found.threshold).Some? then m == |ages| - 1 else m == |ages|
  {
    hide IsLarge, Log.DecodeLog, SafeOrder, LargeIndices, Gone, LastSmall, Found.Visited, Oldest;
    var logs := Decoded(found.logs, ages);
    OrderedVisit(found, ages, visit);
    LargeIndicesCount(logs, visit, found.threshold);
    FirstGone(found, ages, visit, |found.dir|);
    KeptIsNewest(logs, visit, found.threshold);
    assert visit[..|found.dir|] == visit;
    m := |LargeIndices(logs, visit, found.threshold)|;
  }

  lemma LeftAfter(all: map<nat, Bytes>, ages: seq<nat>, m: nat)
    requires IsListing(all, ages) && m <= |ages|
    ensures forall n: nat :: n in (all - Oldest(ages, m)).Keys ==> n in ages[m..]
  {
    forall n: nat | n in (all - Oldest(ages, m)).Keys
      ensures n in ages[m..]
    {
      var i :| 0 <= i < |ages| && ages[i] == n;
      OldestAre(ages, m, i);
      assert ages[m..][i - m] == n;
    }
  }

  /** In a safe order the only log file left is the newest, and only if it is small. */
  lemma OneLogIsLeft(found: Found, ages: seq<nat>, visit: seq<nat>)
    requires found.Valid() && Ordered(found, ages, visit)
    ensures var left := found.logs - Gone(found.dir, found.Visited(), found.threshold, |found.dir|);
            if LastSmall(found.Visited(), found.threshold).Some? then
              ages != [] && left.Keys <= {ages[|ages| - 1]}
            else
              left == map[]
  {
    hide IsLarge, Log.DecodeLog, SafeOrder, Decoded, Gone, LastSmall, Found.Visited, Oldest;
    var m := GoneAtEnd(found, ages, visit);
    LeftAfter(found.logs, ages, m);
    hide Ordered, IsListing;
    if m == |ages| {
      assert ages[m..] == [];
    } else {
      assert ages[m..] == [ages[m]];
    }
  }

  /** The log that a recovered engine goes on with. */
  ghost function CurrentLog(found: Found): seq<Operation>
    requires found.Valid()
  {
    var small := LastSmall(found.Visited(), found.threshold);
    if small.Some? then small.value else []
  }

  lemma SingleHolds(files: map<nat, Bytes>, number: nat, end: nat, log: seq<Operation>)
    requires files.Keys == {number} && Log.Holds(files[number], end, log)
    ensures LogsHold(files, [Span(number, end)], [log])
  {
    hide Log.Holds;
    var spans := [Span(number, end)];
    assert spans[0].number == number;
  }

  lemma EmptyHolds()
    ensures Log.Holds([], 0, [])
  {
    Log.DecodeNothing();
    var nothing: Bytes := [];
    assert nothing[..0] == nothing;
  }

  lemma CurrentLogHolds(found: Found, ages: seq<nat>, visit: seq<nat>, newLog: nat, files: map<nat, Bytes>,
                        writer: WALWriterImpl)
    requires found.Valid() && Ordered(found, ages, visit)
    requires var left := found.logs - Gone(found.dir, found.Visited(), found.threshold, |found.dir|);
             if LastSmall(found.Visited(), found.threshold).Some? then
               files == left && Continues(found, |found.dir|, writer)
             else
               files == left[newLog := []] && writer.number == newLog && writer.pos == 0
    ensures LogsHold(files, [Span(writer.number, writer.pos)], [CurrentLog(found)])
    ensures IsListing(files, [writer.number]) && Decoded(files, [writer.number]) == [CurrentLog(found)]
    ensures Untorn(found.logs) ==> Whole(files, [Span(writer.number, writer.pos)])
  {
    hide Gone, LastSmall, Found.Visited, Ordered, Log.DecodeLog, Log.Holds, LogsHold;
    Log.DecodeNothing();
    OneLogIsLeft(found, ages, visit);
    assert found.Visited()[..|found.dir|] == found.Visited();
    if LastSmall(found.Visited(), found.threshold).Some? {
      ContinuedFits(found, writer);
      Log.DecodedHolds(found.logs[writer.number]);
      assert files.Keys == {writer.number};
    } else {
      EmptyHolds();
      assert files.Keys == {newLog};
    }
    SingleHolds(files, writer.number, writer.pos, CurrentLog(found));
  }

  lemma RememberedIsEffect(found: Found)
    requires found.Valid()
    ensures Remembered(found, |found.dir|) == Effect(CurrentLog(found))
  {
    assert found.Visited()[..|found.dir|] == found.Visited();
    hide LastSmall;
    assert Effect([]) == map[];
  }

  /** The state of the engine whose files a start finds. */
  ghost predicate Stopped(before: Engine.State, found: Found, ages: seq<nat>)
    requires found.Valid() && forall i :: 0 <= i < |ages| ==> ages[i] in found.logs
  {
    Engine.Inv(before) && before.listed == found.tables && before.Logs() == Decoded(found.logs, ages)
  }

  lemma RestartState(before: Engine.State, visited: seq<seq<Operation>>, visit: seq<nat>, threshold: nat)
    requires before.mem.Valid() && SafeOrder(before.Logs(), visit, threshold)
    requires visited == Visited(before.Logs(), visit)
    requires forall i :: 0 <= i < |before.Logs()| ==> before.Logs()[i] != []
    ensures var restart := Engine.Restart(visit, threshold);
            var small := LastSmall(visited, threshold);
            var log := if small.Some? then small.value else [];
            var tables := before.listed + Effects(Larges(visited, threshold));
            && Engine.Enabled(before, restart)
            && Engine.Do(before, restart) ==
                 Engine.State(InitialBuffers(Effect(log)), tables, tables, [], log, Engine.Idle, before.tainted)
  {
    hide Larges, LastSmall, Effects, Effect, Visited;
  }

  /** A start meets an empty log exactly when the stopped engine has one. */
  lemma EmptyLogsAreMet(before: Engine.State, found: Found, ages: seq<nat>, visit: seq<nat>)
    requires found.Valid() && Ordered(found, ages, visit) && Stopped(before, found, ages)
    ensures NoneEmpty(found.Visited()) <==> NoneEmpty(before.Logs())
  {
    OrderedVisit(found, ages, visit);
    hide Engine.Inv, Decoded, Found.Visited, IsLarge, OldestFirst, IsListing, Engine.State.Logs, NoneEmpty;
    VisitedEmpty(before.Logs(), visit);
  }

  lemma VisitedEmpty(logs: seq<seq<Operation>>, visit: seq<nat>)
    requires IsDirectoryOrder(visit, |logs|)
    ensures NoneEmpty(Visited(logs, visit)) <==> NoneEmpty(logs)
  {
    if NoneEmpty(Visited(logs, visit)) {
      forall k: nat | k < |logs|
        ensures logs[k] != []
      {
        assert k in visit;
        var i :| 0 <= i < |visit| && visit[i] == k;
        assert Visited(logs, visit)[i] == logs[k];
      }
    }
  }

  /** A start is the restart step of the engine. */
  lemma RestartOf(before: Engine.State, found: Found, ages: seq<nat>, visit: seq<nat>)
    requires found.Valid() && Ordered(found, ages, visit) && Stopped(before, found, ages)
    requires NoneEmpty(before.Logs())
    ensures var restart := Engine.Restart(visit, found.threshold);
            var log := CurrentLog(found);
            var tables := found.tables + Effects(Larges(found.Visited(), found.threshold));
            && Engine.Enabled(before, restart) && Engine.Inv(Engine.Do(before, restart))
            && Engine.Do(before, restart) ==
                 Engine.State(InitialBuffers(Effect(log)), tables, tables, [], log, Engine.Idle, before.tainted)
            && before.mem.Valid() && Engine.Do(before, restart).mem.Valid()
            && (!before.tainted ==> Engine.Do(before, restart).Logical() == before.Logical())
  {
    hide Engine.Inv, Engine.Do, Engine.Enabled, Larges, LastSmall, Effects, Effect, SafeOrder, Found.Visited;
    hide Log.DecodeLog, InitialBuffers;
    var restart := Engine.Restart(visit, found.threshold);
    Engine.InvGives(before);
    OrderedVisit(found, ages, visit);
    hide Visited;
    RestartState(before, found.Visited(), visit, found.threshold);
    Engine.StepKeepsInv(before, restart);
    Engine.InvGives(Engine.Do(before, restart));
    if !before.tainted {
      Engine.StepRefinesMap(before, restart);
    }
  }

  lemma OneSpan(logs: map<nat, Bytes>, span: Span)
    ensures FileNumbers([span]) == [span.number] && Whole(logs, [span][..|[span]| - 1])
  {
  }

  /** A second start, right after the first one, finds what the first one has left. */
  lemma StartedLoads(found: Found, files: Files, tables: seq<Table>, number: nat, e: Engine.State)
    requires found.Valid() && GoodNames(ListedNames(files)) && AllWellFormed(tables) && Views(tables) == e.listed
    requires IsListing(LogFiles(files), [number]) && Decoded(LogFiles(files), [number]) == [CurrentLog(found)]
    requires e.Logs() == [CurrentLog(found)]
    ensures Reload(files) == tables ==> Loads(files, [number], e)
  {
    hide ListedNames, Reload, LogFiles, Views, AllWellFormed, GoodNames, CurrentLog, IsListing, Decoded;
  }

  /** Puts the recovered parts together. */
  method Assemble(ghost found: Found, ghost ages: seq<nat>, ghost visit: seq<nat>, ghost before: Engine.State,
                  newLog: nat,
                  c: PersistentStorageCollection, storage: SwappableMemoryStorage, writer: WALWriterImpl,
                  ghost generator: VersionNumberGenerator)
    returns (system: StorageSystem)
    requires found.Valid() && Ordered(found, ages, visit) && Stopped(before, found, ages)
    requires NoneEmpty(before.Logs())
    requires Initialized(found, newLog, c, storage, writer, generator)
    ensures fresh(system) && system.Valid() && system.persistent == c && fresh(system.wal)
    ensures system.Repr == {system, system.wal, writer, c, c.disk,
                            storage, storage.readerFirst, storage.readerSecond, storage.writer}
    ensures var restart := Engine.Restart(visit, found.threshold);
            Engine.Enabled(before, restart) && system.engine == Engine.Do(before, restart)
    ensures system.wal.OldSettled()
    ensures FewKeys(found) ==>
              Loads(c.disk.files, FileNumbers(system.wal.spans), system.engine)
              && (Untorn(found.logs) ==> system.Settled())
  {
    hide Untorn, Whole, IsListing, Decoded, SavedAs, FewKeys, IndexFits, Loads;
    hide ListedNames, Reload, LogFiles, Gone, Larges, Effects, LastSmall, Concat, StrictlySorted, LogsHold, Views;
    hide Log.DecodeLog, GoodNames, Effect, IsMaxVersion, Found.Visited, InitialBuffers, Ordered, Stopped, CurrentLog;
    hide Engine.Inv, Engine.Do, Engine.Enabled, Continues, Remembered;
    RestartOf(before, found, ages, visit);
    RememberedIsEffect(found);
    CurrentLogHolds(found, ages, visit, newLog, LogFiles(c.disk.files), writer);
    ghost var log := CurrentLog(found);
    var wal := new SwappableWalWriterImpl(writer, [Span(writer.number, writer.pos)], [log]);
    system := new StorageSystem(wal, storage, c, Engine.Do(before, Engine.Restart(visit, found.threshold)));
    StartedLoads(found, c.disk.files, c.collection, writer.number, system.engine);
    OneSpan(LogFiles(c.disk.files), Span(writer.number, writer.pos));
  }

  /**
   A start of the program after a stop or a crash: the engine of the new process is the stopped engine after
   its restart step, so it answers from the same map, and its versions go on above every logged one. With a
   log that is empty there is no such process. Whatever fails, a crash during it leaves files with the same map,
   and the new system could be stopped again at once, unless there are so many keys that an index may be refused.
   */
  method Start(disk: Disk, dir: seq<nat>, threshold: nat, names: seq<Bytes>, newLog: nat, faults: seq<Faults>,
               newLogFault: bool, ghost found: Found, ghost ages: seq<nat>, ghost visit: seq<nat>,
               ghost before: Engine.State)
    returns (outcome: Outcome, system: StorageSystem?, generator: VersionNumberGenerator, ghost looped: nat)
    requires disk.Valid() && GoodNames(ListedNames(disk.files)) && AllWellFormed(Reload(disk.files))
    requires found == Found(Views(Reload(disk.files)), LogFiles(disk.files), dir, threshold) && found.Valid()
    requires Ordered(found, ages, visit) && Stopped(before, found, ages)
    requires |names| == |faults| == |dir| && GoodNames(names) && newLog !in LogFiles(disk.files)
    requires forall i :: 0 <= i < |names| ==> names[i] !in ListedNames(disk.files)
    modifies disk
    ensures old(disk.history) <= disk.history && |old(disk.history)| <= looped <= |disk.history|
    ensures |before.Durable()| <= MANY_KEYS ==>
              forall i :: |old(disk.history)| <= i < looped ==>
                && AllWellFormed(Reload(disk.history[i]))
                && DurableMap(Views(Reload(disk.history[i])), Remaining(LogFiles(disk.history[i]), ages)) ==
                     before.Durable()
    ensures outcome.Ready? <==> system != null
    ensures NothingFails(found, faults, newLogFault) ==>
              outcome == if NoneEmpty(before.Logs()) then Ready else Undefined
    ensures outcome.Undefined? ==> !NoneEmpty(before.Logs())
    ensures system != null ==>
              && system.Valid() && system.persistent.disk == disk && fresh(system.Repr - {disk})
              && Engine.Enabled(before, Engine.Restart(visit, threshold))
              && system.engine == Engine.Do(before, Engine.Restart(visit, threshold))
              && 1 <= generator.current && IsMaxVersion(Concat(found.Visited()), generator.current - 1)
    ensures system != null && !before.tainted ==>
              before.mem.Valid() && system.engine.mem.Valid() && system.engine.Logical() == before.Logical()
    ensures system != null ==> system.wal.OldSettled()
    ensures system != null && |before.Durable()| <= MANY_KEYS ==>
              Loads(disk.files, FileNumbers(system.wal.spans), system.engine)
              && (Untorn(found.logs) ==> system.Settled())
  {
    hide BySize, FewKeys, Loads, Untorn, StorageSystem.Settled, SwappableWalWriterImpl.OldSettled, FileNumbers;
    hide ListedNames, Reload, LogFiles, Storable, SomeStage, Found.Visited, Found.Valid, Effect, Ordered, Stopped;
    hide StorageSystem.Valid, Engine.Do, Engine.Enabled, Engine.Inv, Views, AllWellFormed, GoodNames, Remaining;
    hide DurableMap, IsMaxVersion, Engine.State.Durable, Engine.State.Logical, Initialized, NothingFails, NoneEmpty;
    var c, storage, writer;
    outcome, c, storage, writer, generator, looped :=
      InitializeStorages(disk, dir, threshold, names, newLog, faults, newLogFault, found);
    if |before.Durable()| <= MANY_KEYS {
      FewFound(found, ages, visit, before);
      StagesKeepMap(found, ages, visit, before, disk.history[..looped], |old(disk.history)|);
    }
    EmptyLogsAreMet(before, found, ages, visit);
    if !outcome.Ready? {
      return outcome, null, generator, looped;
    }
    RestartOf(before, found, ages, visit);
    InitializedVersions(found, newLog, c, storage, writer, generator);
    system := Assemble(found, ages, visit, before, newLog, c, storage, writer, generator);
  }

  /** The engine of a process that has found tables and no log. */
  function NewEngine(tables: seq<Memory>): Engine.State {
    Engine.State(InitialBuffers(map[]), tables, tables, [], [], Engine.Idle, false)
  }

  lemma NewEngineIsRight(tables: seq<Memory>)
    requires forall i :: 0 <= i < |tables| ==> tables[i] != map[]
    ensures Engine.Inv(NewEngine(tables)) && NewEngine(tables).mem.Valid()
    ensures NewEngine(tables).Logical() == Flatten(tables) && NewEngine(tables).Logs() == [[]]
    ensures NewEngine(tables).mem == InitialBuffers(map[])
    ensures NewEngine(tables).tables == NewEngine(tables).listed == tables
  {
    NewStructure(tables);
    NewCovers(tables);
    NewFields(tables);
    hide Engine.Structure, Engine.LogsCover, Flatten, Engine.State.Durable, Engine.State.Logical, NewEngine;
    hide InitialBuffers;
  }

  lemma NewFields(tables: seq<Memory>)
    ensures var s := NewEngine(tables);
            && s.mem == InitialBuffers(map[]) && s.tables == s.listed == tables && !s.tainted && s.Logs() == [[]]
  {
    hide InitialBuffers;
    assert NewEngine(tables).Logs() == [] + [[]] == [[]];
  }

  lemma NewStructure(tables: seq<Memory>)
    requires forall i :: 0 <= i < |tables| ==> tables[i] != map[]
    ensures Engine.Structure(NewEngine(tables))
  {
  }

  lemma NewCovers(tables: seq<Memory>)
    ensures var s := NewEngine(tables);
            s.mem.Valid() && Engine.LogsCover(s) && s.Logical() == Flatten(tables)
  {
    var s := NewEngine(tables);
    assert Effect(Concat([[]])) == map[] by {
      ConcatTwo([], []);
      assert Effect([]) == map[];
    }
    hide Flatten, Effect, Concat;
    assert s.Logs() == [[]];
    assert s.mem.Contents() == map[];
    assert s.Durable() == Flatten(tables) + map[] == Flatten(tables);
  }

  /**
   A start on a directory without logs: the very first one, or the next one after a crash between the last log's
   removal and the creation of a new one.
   */
  method FirstStart(disk: Disk, threshold: nat, newLog: nat, newLogFault: bool)
    returns (system: StorageSystem?, generator: VersionNumberGenerator)
    requires disk.Valid() && GoodNames(ListedNames(disk.files)) && AllWellFormed(Reload(disk.files))
    requires LogFiles(disk.files) == map[]
    requires forall i :: 0 <= i < |Reload(disk.files)| ==> Views(Reload(disk.files))[i] != map[]
    modifies disk
    ensures !newLogFault ==> system != null
    ensures system != null ==>
              && system.Valid() && system.Settled() && system.persistent.disk == disk && fresh(system.Repr - {disk})
              && system.engine == NewEngine(old(Views(Reload(disk.files)))) && system.engine.mem.Valid()
              && system.engine.Logical() == Flatten(old(Views(Reload(disk.files)))) && generator.current == 1
  {
    hide ListedNames, Reload, LogFiles, StrictlySorted, ReadEntryAt, GoodNames, Views, AllWellFormed;
    hide Engine.Inv, SavedAs, Effect, Flatten, LogsHold, Whole, FewKeys, BySize, Remembered, Larges, LastSmall, Effects;
    hide Gone;
    hide Found.Visited, IsMaxVersion, Concat, Continues, InitialBuffers, NewEngine;
    ghost var found := Found(Views(Reload(disk.files)), LogFiles(disk.files), [], threshold);
    NothingFound(found);
    var outcome, c, storage, writer;
    ghost var looped;
    outcome, c, storage, writer, generator, looped :=
      InitializeStorages(disk, [], threshold, [], newLog, [], newLogFault, found);
    if !outcome.Ready? {
      return null, generator;
    }
    AppendNothing(found.tables, []);
    NewEngineIsRight(found.tables);
    NewLogHolds(LogFiles(disk.files), newLog);
    NoVersion(generator.current - 1);
    var wal := new SwappableWalWriterImpl(writer, [Span(newLog, 0)], [[]]);
    system := new StorageSystem(wal, storage, c, NewEngine(found.tables));
  }

  lemma NewLogHolds(files: map<nat, Bytes>, number: nat)
    requires files == map[number := []]
    ensures LogsHold(files, [Span(number, 0)], [[]]) && Whole(files, [Span(number, 0)])
  {
    EmptyHolds();
    hide Log.Holds;
    SingleHolds(files, number, 0, []);
  }

  lemma NoVersion(v: nat)
    ensures IsMaxVersion([], v) ==> v == 0
  {
  }

  lemma NothingFound(found: Found)
    requires found.dir == [] && found.logs == map[]
    ensures found.Valid() && found.Visited() == [] && FewKeys(found) && NoneEmpty([]) && GoodNames([])
    ensures Larges([], found.threshold) == [] && Effects([]) == [] && LastSmall([], found.threshold).None?
    ensures Remembered(found, 0) == map[] && Gone([], [], found.threshold, 0) == {} && Concat([]) == []
  {
  }

  lemma InitializedVersions(found: Found, newLog: nat, c: PersistentStorageCollection, storage: SwappableMemoryStorage,
                            writer: WALWriterImpl, generator: VersionNumberGenerator)
    requires found.Valid() && Initialized(found, newLog, c, storage, writer, generator)
    ensures 1 <= generator.current && IsMaxVersion(Concat(found.Visited()), generator.current - 1)
  {
  }

  lemma {:induction false} LogKeys(logs: seq<seq<Operation>>, i: nat)
    requires i < |logs|
    ensures Effect(logs[i]).Keys <= Effect(Concat(logs)).Keys
  {
    var n := |logs| - 1;
    EffectConcat(Concat(logs[..n]), logs[n]);
    assert Concat(logs) == Concat(logs[..n]) + logs[n];
    hide Effect, Concat;
    if i < n {
      LogKeys(logs[..n], i);
    }
  }

  lemma FewFound(found: Found, ages: seq<nat>, visit: seq<nat>, before: Engine.State)
    requires found.Valid() && Ordered(found, ages, visit) && Stopped(before, found, ages)
    requires |before.Durable()| <= MANY_KEYS
    ensures FewKeys(found)
  {
    OrderedVisit(found, ages, visit);
    hide Engine.Inv, Effect, Concat, Flatten, Found.Visited, SafeOrder, IsListing, Decoded;
    var logs := before.Logs();
    forall i | 0 <= i < |found.dir|
      ensures |Effect(found.Visited()[i])| <= MANY_KEYS
    {
      assert found.Visited()[i] == logs[visit[i]];
      LogKeys(logs, visit[i]);
      MoreKeys(Effect(logs[visit[i]]), before.Durable());
    }
  }

  lemma StagesKeepMap(found: Found, ages: seq<nat>, visit: seq<nat>, before: Engine.State, history: seq<Files>,
                      from: nat)
    requires found.Valid() && Ordered(found, ages, visit) && Stopped(before, found, ages)
             && Staged(history, from, found)
    ensures forall i :: from <= i < |history| ==>
              && AllWellFormed(Reload(history[i]))
              && DurableMap(Views(Reload(history[i])), Remaining(LogFiles(history[i]), ages)) == before.Durable()
  {
    hide Reload, LogFiles, SomeStage, Found.Visited, Found.Valid, Ordered, Views, AllWellFormed, Remaining;
    hide DurableMap, Engine.Inv, Decoded;
    forall i | from <= i < |history|
      ensures AllWellFormed(Reload(history[i]))
      ensures DurableMap(Views(Reload(history[i])), Remaining(LogFiles(history[i]), ages)) == before.Durable()
    {
      StageKeepsMap(found, ages, visit, history[i]);
    }
  }

  // ---------------------------------------------------------------- run, stop, start, run

  /** The bytes after what each log holds decode to nothing: there are none, or they are one torn entry. */
  ghost predicate TailsAreGone(logs: map<nat, Bytes>, spans: seq<Span>) {
    forall i :: 0 <= i < |spans| && spans[i].number in logs && spans[i].end <= |logs[spans[i].number]| ==>
      Log.DecodeLog(logs[spans[i].number][spans[i].end..]).ops == []
  }

  /** What is read from the log files is what the engine has logged, just when no tail adds to it. */
  lemma ReadIsLogged(logs: map<nat, Bytes>, spans: seq<Span>, ops: seq<seq<Operation>>)
    requires LogsHold(logs, spans, ops)
    ensures IsListing(logs, FileNumbers(spans))
    ensures Decoded(logs, FileNumbers(spans)) == ops <==> TailsAreGone(logs, spans)
  {
    SpansAreListing(logs, spans, ops);
    hide Log.Holds, Log.DecodeLog;
    var read := Decoded(logs, FileNumbers(spans));
    forall i | 0 <= i < |spans|
      ensures read[i] == ops[i] <==> Log.DecodeLog(logs[spans[i].number][spans[i].end..]).ops == []
    {
      HeldIsRead(logs[spans[i].number], spans[i].end, ops[i]);
    }
    if TailsAreGone(logs, spans) {
      assert forall i :: 0 <= i < |spans| ==> read[i] == ops[i];
    }
    if read == ops {
      assert forall i :: 0 <= i < |spans| ==> read[i] == ops[i];
    }
  }

  lemma HeldIsRead(file: Bytes, end: nat, ops: seq<Operation>)
    requires Log.Holds(file, end, ops)
    ensures end <= |file| && (Log.DecodeLog(file).ops == ops <==> Log.DecodeLog(file[end..]).ops == [])
  {
    Log.HoldsExact(file, end, ops);
    hide Log.DecodeLog;
  }

  /** Whatever the engine was doing, its files are those that a start of the program expects. */
  lemma StopIsStopped(files: Files, spans: seq<Span>, e: Engine.State, dir: seq<nat>, threshold: nat)
    requires Engine.Inv(e) && LogsHold(LogFiles(files), spans, e.Logs()) && GoodNames(ListedNames(files))
    requires AllWellFormed(Reload(files)) && Views(Reload(files)) == e.listed && IsListing(LogFiles(files), dir)
    ensures IsListing(LogFiles(files), FileNumbers(spans))
    ensures Stopped(e, Found(Views(Reload(files)), LogFiles(files), dir, threshold), FileNumbers(spans))
       <==> TailsAreGone(LogFiles(files), spans)
    ensures Loads(files, FileNumbers(spans), e) <==> TailsAreGone(LogFiles(files), spans)
  {
    ReadIsLogged(LogFiles(files), spans, e.Logs());
    hide Engine.Inv, LogsHold, TailsAreGone, Decoded, ListedNames, Reload, LogFiles, Views, IsListing, GoodNames;
  }

  // ---------------------------------------------------------------- a crash anywhere

  /**
   What a restart reads from the bytes of these files is the engine after the first `p` steps; and unless a log has
   been removed too early, it stands for the map with exactly the writes of those steps.
   */
  ghost predicate SurvivesBy(files: Files, ages: seq<nat>, start: Engine.State, steps: seq<Engine.Step>, p: nat) {
    && p <= |steps| && Engine.CanRun(start, steps[..p]) && start.mem.Valid()
    && var e := Engine.Exec(start, steps[..p]);
       && Engine.Inv(e) && e.mem.Valid() && Loads(files, ages, e)
       && e.Logical() == Apply(start.Logical(), Engine.Applied(steps[..p]))
       && (!e.tainted ==>
             DurableMap(Views(Reload(files)), Decoded(LogFiles(files), ages)) ==
             Apply(start.Logical(), Engine.Applied(steps[..p])))
  }

  /** So it is after a crash inside the operation that comes next. */
  ghost predicate Survives(files: Files, start: Engine.State, steps: seq<Engine.Step>, p: nat) {
    forall after, current :: Interrupted(after, files, current) ==>
      exists ages :: SurvivesBy(after, ages, start, steps, p)
  }

  lemma NotInterrupted(files: Files, current: nat)
    ensures Interrupted(files, files, current)
  {
  }

  lemma ShownSurvives(files: Files, start: Engine.State, steps: seq<Engine.Step>, p: nat)
    requires Engine.Inv(start) && ShowsAfter(files, start, steps, p)
    requires forall k :: 0 <= k < |steps| ==> !steps[k].Restart?
    ensures Survives(files, start, steps, p)
  {
    hide Engine.Inv, Engine.CanRun, Engine.Exec, Engine.Applied, Apply, Loads, Untorn, Interrupted, LogFiles;
    hide Engine.State.Logical, Engine.State.Durable, DurableMap, Reload, Decoded, Views;
    var e := Engine.Exec(start, steps[..p]);
    Engine.InvGives(start);
    Engine.LiveMapSurvivesFailures(start, steps[..p]);
    Engine.InvGives(e);
    var ages :| Loads(files, ages, e);
    forall after, current | Interrupted(after, files, current)
      ensures exists ages :: SurvivesBy(after, ages, start, steps, p)
    {
      InterruptedLoads(after, files, ages, e, current);
      LoadsDurable(after, ages, e);
      assert SurvivesBy(after, ages, start, steps, p);
    }
  }

  lemma LoadsDurable(files: Files, ages: seq<nat>, e: Engine.State)
    requires Loads(files, ages, e)
    ensures AllWellFormed(Reload(files)) && forall i :: 0 <= i < |ages| ==> ages[i] in LogFiles(files)
    ensures DurableMap(Views(Reload(files)), Decoded(LogFiles(files), ages)) == e.Durable()
  {
    hide ListedNames, Reload, LogFiles, Views, AllWellFormed, GoodNames, Decoded, DurableMap, Engine.State.Logs;
  }

  /**
   A crash at any point of any run. Every state of the disk, also one that is torn by an unfinished operation, belongs
   to a point of the run; the points never go back and miss no step that changes the files. What a restart reads from
   the bytes is the engine at that point and, unless a log has been removed too early, the map with exactly the writes
   carried out up to there: no write that had been carried out is lost and none is made up.
   */
  lemma CrashAnywhere(history: seq<Files>, from: nat, start: Engine.State, steps: seq<Engine.Step>)
    returns (points: seq<nat>)
    requires Engine.Inv(start) && Engine.CanRun(start, steps) && Tracked(history, from, start, steps)
    requires forall k :: 0 <= k < |steps| ==> !steps[k].Restart?
    ensures |history| == from + |points|
    ensures forall i, j :: 0 <= i < j < |points| ==> points[i] <= points[j]
    ensures forall w :: 0 <= w < |steps| && Leaves(steps[w]) ==> w + 1 in points
    ensures forall i :: 0 <= i < |points| ==> Survives(history[from + i], start, steps, points[i])
  {
    hide Engine.Inv, Engine.CanRun, Survives, ShowsAfter, Leaves;
    points :| Chronicle(history, from, start, steps, points);
    forall i | 0 <= i < |points|
      ensures Survives(history[from + i], start, steps, points[i])
    {
      ShownSurvives(history[from + i], start, steps, points[i]);
    }
  }

  /** The program is started on the files that such a crash has left: it answers with the writes carried out. */
  method CrashAndStart(disk: Disk, dir: seq<nat>, threshold: nat, names: seq<Bytes>, newLog: nat, faults: seq<Faults>,
                       newLogFault: bool, ghost ages: seq<nat>, ghost visit: seq<nat>, ghost start: Engine.State,
                       ghost steps: seq<Engine.Step>, ghost p: nat)
    returns (outcome: Outcome, system: StorageSystem?, generator: VersionNumberGenerator)
    requires disk.Valid() && SurvivesBy(disk.files, ages, start, steps, p)
    requires IsListing(LogFiles(disk.files), dir) && |visit| == |dir|
    requires SafeOrder(Engine.Exec(start, steps[..p]).Logs(), visit, threshold)
    requires forall i :: 0 <= i < |visit| ==> visit[i] < |ages| && dir[i] == ages[visit[i]]
    requires |names| == |faults| == |dir| && GoodNames(names) && newLog !in LogFiles(disk.files)
    requires forall i :: 0 <= i < |names| ==> names[i] !in ListedNames(disk.files)
    modifies disk
    ensures outcome.Ready? <==> system != null
    ensures outcome.Undefined? ==> !NoneEmpty(Engine.Exec(start, steps[..p]).Logs())
    ensures NothingFails(old(Found(Views(Reload(disk.files)), LogFiles(disk.files), dir, threshold)), faults,
                         newLogFault) ==>
              outcome == if NoneEmpty(Engine.Exec(start, steps[..p]).Logs()) then Ready else Undefined
    ensures system != null ==>
              system.Valid() && system.persistent.disk == disk && fresh(system.Repr - {disk}) && system.wal.OldSettled()
    ensures system != null && !Engine.Exec(start, steps[..p]).tainted ==>
              && start.mem.Valid() && system.engine.mem.Valid()
              && system.engine.Logical() == Apply(start.Logical(), Engine.Applied(steps[..p]))
    ensures system != null && |Engine.Exec(start, steps[..p]).Durable()| <= MANY_KEYS ==>
              Loads(disk.files, FileNumbers(system.wal.spans), system.engine)
  {
    hide ListedNames, Reload, LogFiles, Views, GoodNames, SafeOrder, Decoded, IsListing, AllWellFormed;
    hide Engine.Inv, Engine.Do, Engine.Enabled, StrictlySorted, ReadEntryAt, Engine.State.Logical, FileNumbers;
    hide Engine.CanRun, Engine.Exec, Engine.Applied, Apply, Engine.State.Durable, DurableMap;
    hide StorageSystem.Settled, SwappableWalWriterImpl.OldSettled, StorageSystem.Valid, NoneEmpty;
    ghost var found := Found(Views(Reload(disk.files)), LogFiles(disk.files), dir, threshold);
    ghost var looped;
    outcome, system, generator, looped :=
      Start(disk, dir, threshold, names, newLog, faults, newLogFault, found, ages, visit,
            Engine.Exec(start, steps[..p]));
  }

  // ---------------------------------------------------------------- run, stop, start, run

  /**
   The whole cycle. A running system is stopped and the program is started again on its files: the new system
   answers from the map of the old one, and if the old one was settled, so is the new one. `visit` says where the
   directory lists the logs, oldest being 0.
   */
  method StopAndStart(system: StorageSystem, dir: seq<nat>, threshold: nat, names: seq<Bytes>, newLog: nat,
                      faults: seq<Faults>, newLogFault: bool, ghost visit: seq<nat>)
    returns (outcome: Outcome, next: StorageSystem?, generator: VersionNumberGenerator)
    requires system.Valid() && Loads(system.persistent.disk.files, FileNumbers(system.wal.spans), system.engine)
    requires IsListing(LogFiles(system.persistent.disk.files), dir) && |visit| == |dir|
    requires SafeOrder(system.engine.Logs(), visit, threshold)
    requires forall i :: 0 <= i < |visit| ==>
               visit[i] < |system.wal.spans| && dir[i] == FileNumbers(system.wal.spans)[visit[i]]
    requires |names| == |faults| == |dir| && GoodNames(names)
    requires newLog !in LogFiles(system.persistent.disk.files)
    requires forall i :: 0 <= i < |names| ==> names[i] !in ListedNames(system.persistent.disk.files)
    modifies system.persistent.disk
    ensures outcome.Ready? <==> next != null
    ensures outcome.Undefined? ==> !NoneEmpty(old(system.engine.Logs()))
    ensures NothingFails(old(Found(Views(Reload(system.persistent.disk.files)), LogFiles(system.persistent.disk.files),
                                   dir, threshold)), faults, newLogFault) ==>
              outcome == if NoneEmpty(old(system.engine.Logs())) then Ready else Undefined
    ensures next != null ==> fresh(next.Repr - {system.persistent.disk})
    ensures next != null ==>
              && next.Valid() && next.persistent.disk == system.persistent.disk && next.engine.phase.Idle?
              && (!old(system.engine.tainted) ==>
                    old(system.engine).mem.Valid() && next.engine.mem.Valid() && !next.engine.tainted
                    && next.engine.Logical() == old(system.engine.Logical()))
    ensures next != null && old(|system.engine.Durable()|) <= MANY_KEYS ==>
              && Loads(next.persistent.disk.files, FileNumbers(next.wal.spans), next.engine)
              && (old(system.Settled()) ==> next.Settled())
  {
    hide ListedNames, Reload, LogFiles, Views, GoodNames, SafeOrder, Decoded, LogsHold, AllWellFormed;
    hide Engine.Inv, Engine.Do, Engine.Enabled, StrictlySorted, ReadEntryAt, Engine.State.Logical;
    hide Untorn, Engine.State.Durable, StorageSystem.Settled, SwappableWalWriterImpl.OldSettled, NoneEmpty;
    hide SavedAs, SwappableMemoryStorage.Valid;
    ghost var files, spans, before := system.persistent.disk.files, system.wal.spans, system.engine;
    ghost var found := Found(Views(Reload(files)), LogFiles(files), dir, threshold);
    system.Holds();
    if system.Settled() {
      system.SettledShows();
    }
    ghost var looped;
    outcome, next, generator, looped :=
      Start(system.persistent.disk, dir, threshold, names, newLog, faults, newLogFault, found, FileNumbers(spans),
            visit, before);
    if next != null {
      RestartIsIdle(before, visit, threshold);
    }
  }

  lemma RestartIsIdle(s: Engine.State, visit: seq<nat>, threshold: nat)
    requires Engine.Enabled(s, Engine.Restart(visit, threshold))
    ensures var t := Engine.Do(s, Engine.Restart(visit, threshold)); t.phase.Idle? && t.tainted == s.tainted
  {
    hide SafeOrder, Effect;
  }
}
