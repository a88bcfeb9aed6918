/** The swap of the memory table to disk, statement by statement, with requests served in between. */
module Controllers {
  import opened Wrappers
  import opened Kv
  import opened Disks
  import opened Tables
  import opened Compaction
  import opened Memtable
  import opened LogWriter
  import opened Collection
  import opened Engine
  import opened StorageSystems

  ghost predicate Ran(a: State, steps: seq<Step>, b: State) {
    CanRun(a, steps) && Exec(a, steps) == b
  }

  lemma RanThen(a: State, x: seq<Step>, b: State, y: seq<Step>, c: State)
    requires Ran(a, x, b) && Ran(b, y, c)
    ensures Ran(a, x + y, c)
  {
    hide CanRun, Exec;
    RunAppend(a, x, y);
  }

  lemma RanOne(a: State, step: Step)
    requires Enabled(a, step)
    ensures Ran(a, [step], Do(a, step))
  {
    hide Enabled, Do;
    RunOfNothing(Do(a, step));
    assert [step][1..] == [];
  }

  lemma RanTwo(a: State, x: Step, y: Step)
    requires Enabled(a, x) && Enabled(Do(a, x), y)
    ensures Ran(a, [x, y], Do(Do(a, x), y))
  {
    hide *;
    RanOne(a, x);
    RanOne(Do(a, x), y);
    RanThen(a, [x], Do(a, x), [y], Do(Do(a, x), y));
    assert [x] + [y] == [x, y];
  }

  // ---------------------------------------------------------------- what each statement does to the engine

  lemma PhaseFacts(s: State)
    requires Inv(s)
    ensures s.mem.Valid()
    ensures s.phase.Collected? || s.phase.Built? ==> s.phase.data == s.mem.buf[s.mem.second]
    ensures s.phase.Pushed? ==> s.mem.writer == s.mem.first != s.mem.second
    ensures s.phase.Pushed? ==> s.tables != [] && s.tables[|s.tables| - 1] == s.mem.buf[s.mem.second]
    ensures s.phase.Renewed? ==> s.oldLogs != []
    ensures s.phase.LogRemoved? ==> s.listed == s.tables
  {
    hide LogsCover, NothingEmpty, Flatten;
  }

  lemma SwapLogRun(s: State)
    requires Inv(s) && s.phase.Idle? && s.mem.Valid() && SWAP_SIZE <= |s.mem.buf[s.mem.writer]|
    ensures var t := s.(oldLogs := s.oldLogs + [s.log], log := [], phase := LogSwapped);
            Ran(s, [SwapLog], t) && Inv(t) && t.Logs() == s.Logs() + [[]]
  {
    hide Inv, CanRun, Exec;
    assert Enabled(s, SwapLog);
    RanOne(s, SwapLog);
    StepKeepsInv(s, SwapLog);
  }

  lemma CollectRun(s: State)
    requires Inv(s) && s.phase.LogSwapped? && s.mem.Valid()
    ensures var t := s.(mem := s.mem.SwitchWriter(), phase := Collected(s.mem.buf[s.mem.second]));
            Ran(s, [SwitchWriter, Copy], t) && Inv(t)
  {
    hide Inv, CanRun, Exec;
    var m := s.(mem := s.mem.SwitchWriter(), phase := WriterSwitched);
    assert Enabled(s, SwitchWriter) && Do(s, SwitchWriter) == m && Enabled(m, Copy);
    RanTwo(s, SwitchWriter, Copy);
    StepKeepsInv(s, SwitchWriter);
    StepKeepsInv(m, Copy);
  }

  lemma GiveUpRun(s: State)
    requires Inv(s) && s.mem.Valid()
    requires s.phase.Collected? || s.phase.Built? || (s.phase.LogRemoved? && MERGE_COUNT < |s.tables|)
    ensures Ran(s, [GiveUp], s.(phase := Idle)) && Inv(s.(phase := Idle))
  {
    hide Inv, CanRun, Exec;
    assert Enabled(s, GiveUp);
    RanOne(s, GiveUp);
    StepKeepsInv(s, GiveUp);
  }

  lemma BuildRun(s: State)
    requires Inv(s) && s.phase.Collected? && s.mem.Valid()
    ensures Ran(s, [Build], s.(phase := Phase.Built(s.phase.data))) && Inv(s.(phase := Phase.Built(s.phase.data)))
  {
    hide Inv, CanRun, Exec;
    assert Enabled(s, Build);
    RanOne(s, Build);
    StepKeepsInv(s, Build);
  }

  lemma AddRun(s: State)
    requires Inv(s) && s.phase.Built? && s.mem.Valid()
    ensures var t := s.(listed := s.listed + [s.phase.data], tables := s.tables + [s.phase.data], phase := Pushed);
            Ran(s, [List, Push], t) && Inv(t)
  {
    hide Inv, CanRun, Exec;
    var m := s.(listed := s.listed + [s.phase.data], phase := Listed(s.phase.data));
    assert Enabled(s, List) && Do(s, List) == m && Enabled(m, Push);
    RanTwo(s, List, Push);
    StepKeepsInv(s, List);
    StepKeepsInv(m, Push);
  }

  /** The first half of `Add` on the disk. */
  lemma ListRun(s: State)
    requires s.mem.Valid() && s.phase.Built?
    ensures CanRun(s, [List]) && Lists(Exec(s, [List]), s.listed + [s.phase.data], s.Logs())
  {
    hide CanRun, Exec;
    RanOne(s, List);
  }

  lemma GivenUp(history: seq<Files>, s: State)
    ensures Quiet([GiveUp]) && Tracked(history, |history|, s, [GiveUp])
  {
    hide Tracked;
    TrackedStill(history, |history|, s, [GiveUp]);
  }

  lemma ListAndPush()
    ensures var steps := [List, Push];
            && steps[..1] == [List] && Quiet(steps) && GiveUp !in steps
            && forall w :: 0 <= w < |steps| && Leaves(steps[w]) ==> w + 1 == 1
  {
  }

  lemma RanWhole(s: State, steps: seq<Step>, t: State)
    requires Ran(s, steps, t)
    ensures CanRun(s, steps[..|steps|]) && Exec(s, steps[..|steps|]) == t
  {
    assert steps[..|steps|] == steps;
    hide CanRun, Exec;
  }

  lemma RenewSteps(s: State)
    requires s.mem.Valid() && s.phase.Pushed?
    ensures var m := s.(mem := s.mem.Exchange(), phase := Exchanged);
            Enabled(s, Exchange) && Do(s, Exchange) == m
            && (m.mem.Valid() ==> Enabled(m, Renew)
                                  && Do(m, Renew) == s.(mem := s.mem.Exchange().Renew(), phase := Renewed))
  {
  }

  lemma RenewRun(s: State)
    requires Inv(s) && s.phase.Pushed?
    ensures var t := s.(mem := s.mem.Exchange().Renew(), phase := Renewed);
            Ran(s, [Exchange, Renew], t) && Inv(t)
    ensures s.mem.writer == s.mem.first
  {
    hide *;
    PhaseFacts(s);
    RenewSteps(s);
    var m := s.(mem := s.mem.Exchange(), phase := Exchanged);
    StepKeepsInv(s, Exchange);
    InvGives(m);
    RanTwo(s, Exchange, Renew);
    StepKeepsInv(m, Renew);
  }

  lemma RemoveLogSteps(s: State, step: Step)
    requires s.mem.Valid() && s.phase.Renewed? && s.oldLogs != [] && (step.RemoveLog? || step.KeepLog?)
    ensures Enabled(s, step)
    ensures Do(s, step).mem == s.mem && Do(s, step).tables == s.tables && Do(s, step).listed == s.listed
    ensures Do(s, step).phase.LogRemoved? && Do(s, step).log == s.log
    ensures Do(s, step).oldLogs == if step.KeepLog? then s.oldLogs else s.oldLogs[..|s.oldLogs| - 1]
  {
  }

  lemma RemoveLogRun(s: State, faulty: bool) returns (step: Step)
    requires Inv(s) && s.phase.Renewed?
    ensures s.oldLogs != [] && step == if faulty then KeepLog else RemoveLog
    ensures Enabled(s, step) && Ran(s, [step], Do(s, step)) && Inv(Do(s, step))
    ensures Do(s, step).mem == s.mem && Do(s, step).tables == s.tables && Do(s, step).listed == s.listed
    ensures Do(s, step).phase.LogRemoved? && Do(s, step).log == s.log
    ensures Do(s, step).oldLogs == if faulty then s.oldLogs else s.oldLogs[..|s.oldLogs| - 1]
  {
    hide *;
    step := if faulty then KeepLog else RemoveLog;
    PhaseFacts(s);
    RemoveLogSteps(s, step);
    RanOne(s, step);
    StepKeepsInv(s, step);
  }

  lemma FinishRun(s: State)
    requires Inv(s) && s.mem.Valid()
    requires (s.phase.LogRemoved? && |s.tables| <= MERGE_COUNT) || (s.phase.Deleting? && |s.listed| == 1)
    ensures Ran(s, [Finish], s.(phase := Idle)) && Inv(s.(phase := Idle))
  {
    hide Inv, CanRun, Exec;
    assert Enabled(s, Finish);
    RanOne(s, Finish);
    StepKeepsInv(s, Finish);
  }

  lemma JobThenServed(before: seq<Step>, more: seq<Step>, steps: seq<Step>, ops: seq<Operation>)
    requires Quiet(more) && GiveUp !in more && Adds(before + more, steps, ops, false)
    ensures Adds(before, steps, ops, false) && before <= steps
  {
    hide Quiet, Asked;
    JobAdds(before, more);
    AddsThen(before, before + more, steps, [], ops, false, false);
    assert [] + ops == ops;
  }

  lemma AddsKeep(before: seq<Step>, steps: seq<Step>, ops: seq<Operation>, gaveUp: bool)
    requires Adds(before, steps, ops, gaveUp)
    ensures before <= steps
  {
  }

  // ---------------------------------------------------------------- the steps of a compaction

  /** After the first `p` steps a restart would find exactly these tables, and the logs are those of the start. */
  ghost predicate ListsAfter(s: State, steps: seq<Step>, p: nat, listed: seq<Memory>) {
    p <= |steps| && CanRun(s, steps[..p]) && Lists(Exec(s, steps[..p]), listed, s.Logs())
  }

  predicate Lists(e: State, listed: seq<Memory>, logs: seq<seq<Operation>>) {
    e.listed == listed && e.Logs() == logs
  }

  lemma ListsAtStart(s: State, steps: seq<Step>)
    ensures ListsAfter(s, steps, 0, s.listed)
  {
    RunOfNothing(s);
    assert steps[..0] == [];
    hide CanRun, Exec;
  }

  lemma ListsInFirst(s: State, a: seq<Step>, b: seq<Step>, p: nat, listed: seq<Memory>)
    requires ListsAfter(s, a, p, listed)
    ensures ListsAfter(s, a + b, p, listed)
  {
    hide CanRun, Exec, Lists;
    TakeInFirst(a, b, p);
  }

  lemma ListsInSecond(s: State, a: seq<Step>, m: State, b: seq<Step>, p: nat, listed: seq<Memory>)
    requires Ran(s, a, m) && m.Logs() == s.Logs() && ListsAfter(m, b, p, listed)
    ensures ListsAfter(s, a + b, |a| + p, listed)
  {
    hide CanRun, Exec, Lists;
    RunAppend(s, a, b[..p]);
    TakeOfConcat(a, b, |a| + p);
  }

  lemma DeleteOne(s: State)
    requires Inv(s) && s.mem.Valid() && s.phase.Deleting? && 1 < |s.listed|
    ensures var m := s.(listed := s.listed[1..]);
            Ran(s, [DeleteOldest], m) && Inv(m) && m.Logs() == s.Logs()
  {
    hide Inv, CanRun, Exec;
    assert Enabled(s, DeleteOldest) && Do(s, DeleteOldest) == s.(listed := s.listed[1..]);
    StepKeepsInv(s, DeleteOldest);
    RanOne(s, DeleteOldest);
  }

  function Deletes(n: nat): (steps: seq<Step>)
    ensures |steps| == n
  {
    seq(n, i => DeleteOldest)
  }

  lemma MoreDeletes(n: nat)
    requires n > 0
    ensures Deletes(n) == [DeleteOldest] + Deletes(n - 1)
  {
  }

  lemma {:induction false} DeleteRun(s: State)
    requires Inv(s) && s.mem.Valid() && s.phase.Deleting? && s.listed != []
    ensures var t := s.(listed := [s.listed[|s.listed| - 1]]);
            Ran(s, Deletes(|s.listed| - 1), t) && Inv(t)
    ensures forall k: nat :: k < |s.listed| ==> ListsAfter(s, Deletes(|s.listed| - 1), k, s.listed[k..])
    decreases |s.listed|
  {
    hide Inv, CanRun, Exec, ListsAfter, Ran, State.Logs;
    var steps := Deletes(|s.listed| - 1);
    ListsAtStart(s, steps);
    assert s.listed[0..] == s.listed;
    if |s.listed| == 1 {
      assert s.listed == [s.listed[0]];
      assert steps == [];
      RanNothing(s);
    } else {
      DeleteOne(s);
      var m := s.(listed := s.listed[1..]);
      DeleteRun(m);
      var rest := Deletes(|m.listed| - 1);
      RanThen(s, [DeleteOldest], m, rest, s.(listed := [s.listed[|s.listed| - 1]]));
      MoreDeletes(|s.listed| - 1);
      forall k: nat | 0 < k < |s.listed|
        ensures ListsAfter(s, steps, k, s.listed[k..])
      {
        assert s.listed[k..] == m.listed[k - 1..];
        ListsInSecond(s, [DeleteOldest], m, rest, k - 1, m.listed[k - 1..]);
      }
    }
  }

  /** Steps of the job: neither a request nor a restart. */
  ghost predicate Quiet(steps: seq<Step>) {
    forall i :: 0 <= i < |steps| ==> !IsRequest(steps[i]) && !steps[i].Restart?
  }

  predicate IsRequest(step: Step) {
    step.Write? || step.Drop? || step.FailWrite?
  }

  /** The requests that were served in a run, in order, whatever became of them. */
  function Asked(steps: seq<Step>): seq<Operation> {
    if steps == [] then
      []
    else
      var last := steps[|steps| - 1];
      Asked(steps[..|steps| - 1]) + if IsRequest(last) then [last.op] else []
  }

  lemma {:induction false} AskedTogether(a: seq<Step>, b: seq<Step>)
    ensures Asked(a + b) == Asked(a) + Asked(b)
  {
    if b == [] {
      assert a + b == a;
    } else {
      var n := |b| - 1;
      AskedTogether(a, b[..n]);
      assert (a + b)[..|a + b| - 1] == a + b[..n];
      ConcatIsAssociative(Asked(a), Asked(b[..n]), if IsRequest(b[n]) then [b[n].op] else []);
    }
  }

  lemma {:induction false} QuietAsksNothing(steps: seq<Step>)
    requires Quiet(steps)
    ensures Asked(steps) == []
  {
    if steps != [] {
      QuietAsksNothing(steps[..|steps| - 1]);
    }
  }

  lemma {:induction false} RequestsAsk(steps: seq<Step>, ops: seq<Operation>)
    requires Requests(steps) && |steps| == |ops| && forall i :: 0 <= i < |ops| ==> steps[i].op == ops[i]
    ensures Asked(steps) == ops
  {
    if steps != [] {
      var n := |steps| - 1;
      RequestsAsk(steps[..n], ops[..n]);
      assert ops == ops[..n] + [ops[n]];
    }
  }

  /** The run goes on with these requests, and with or without a step that gives up. */
  ghost predicate Adds(before: seq<Step>, steps: seq<Step>, ops: seq<Operation>, gaveUp: bool) {
    && before <= steps && Asked(steps) == Asked(before) + ops
    && (GiveUp in steps <==> GiveUp in before || gaveUp)
  }

  lemma JobAdds(before: seq<Step>, more: seq<Step>)
    requires Quiet(more)
    ensures Adds(before, before + more, [], GiveUp in more)
  {
    AskedTogether(before, more);
    QuietAsksNothing(more);
  }

  lemma ServedAdds(before: seq<Step>, more: seq<Step>, ops: seq<Operation>)
    requires Requests(more) && |more| == |ops| && forall i :: 0 <= i < |ops| ==> more[i].op == ops[i]
    ensures Adds(before, before + more, ops, false)
  {
    AskedTogether(before, more);
    RequestsAsk(more, ops);
  }

  lemma AddsThen(a: seq<Step>, b: seq<Step>, c: seq<Step>, x: seq<Operation>, y: seq<Operation>, g: bool, h: bool)
    requires Adds(a, b, x, g) && Adds(b, c, y, h)
    ensures Adds(a, c, x + y, g || h)
  {
    ConcatIsAssociative(Asked(a), x, y);
  }

  /** The steps that merge `n` tables. */
  function MergeOf(n: nat): seq<Step> {
    [Merge, Rename] + [Replace] + Deletes(n) + [Finish]
  }

  lemma MergeSteps(s: State, whole: Memory)
    requires s.mem.Valid() && s.phase.LogRemoved? && MERGE_COUNT < |s.tables| && whole == Flatten(s.tables)
    ensures var m1 := s.(phase := Merged(whole));
            var m2 := m1.(listed := s.listed + [whole], phase := Renamed(whole));
            && Enabled(s, Merge) && Do(s, Merge) == m1 && Enabled(m1, Rename) && Do(m1, Rename) == m2
            && Enabled(m2, Replace) && Do(m2, Replace) == m2.(tables := [whole], phase := Deleting)
  {
    hide Flatten;
  }

  /** What a restart would find after each of the steps that merge the tables. */
  ghost predicate MergeLists(s: State, steps: seq<Step>, whole: Memory) {
    && ListsAfter(s, steps, 0, s.tables)
    && ListsAfter(s, steps, 2, s.tables + [whole])
    && forall k: nat :: k <= |s.tables| ==> ListsAfter(s, steps, 3 + k, s.tables[k..] + [whole])
  }

  lemma MergeRun(s: State)
    requires Inv(s) && s.phase.LogRemoved? && MERGE_COUNT < |s.tables|
    ensures var t := s.(tables := [Flatten(s.tables)], listed := [Flatten(s.tables)], phase := Idle);
            Ran(s, MergeOf(|s.tables|), t) && Inv(t)
    ensures GiveUp !in MergeOf(|s.tables|)
    ensures Quiet(MergeOf(|s.tables|)) && MergeLists(s, MergeOf(|s.tables|), Flatten(s.tables))
  {
    hide *;
    PhaseFacts(s);
    var whole := Flatten(s.tables);
    var m1 := s.(phase := Merged(whole));
    var m2 := m1.(listed := s.listed + [whole], phase := Renamed(whole));
    var m3 := m2.(tables := [whole], phase := Deleting);
    MergeSteps(s, whole);
    StepKeepsInv(s, Merge);
    StepKeepsInv(m1, Rename);
    StepKeepsInv(m2, Replace);
    RanTwo(s, Merge, Rename);
    RanOne(m2, Replace);
    RanThen(s, [Merge, Rename], m2, [Replace], m3);
    PhaseFacts(m3);
    DeleteRun(m3);
    var deletes := Deletes(|s.tables|);
    var m4 := m3.(listed := [whole]);
    RanThen(s, [Merge, Rename] + [Replace], m3, deletes, m4);
    FinishRun(m4);
    RanThen(s, [Merge, Rename] + [Replace] + deletes, m4, [Finish], m4.(phase := Idle));
    MergeIsQuiet(|s.tables|);
    SameLogs(s, m2);
    SameLogs(s, m3);
    MergeListed(s, m2, m3, deletes, whole);
  }

  lemma MergeListed(s: State, m2: State, m3: State, deletes: seq<Step>, whole: Memory)
    requires Ran(s, [Merge, Rename], m2) && m2.Logs() == s.Logs() && m2.listed == s.tables + [whole]
    requires Ran(s, [Merge, Rename] + [Replace], m3) && m3.Logs() == s.Logs() && m3.listed == s.tables + [whole]
    requires forall k: nat :: k < |m3.listed| ==> ListsAfter(m3, deletes, k, m3.listed[k..])
    requires s.listed == s.tables
    ensures MergeLists(s, [Merge, Rename] + [Replace] + deletes + [Finish], whole)
  {
    var three := [Merge, Rename] + [Replace];
    var steps := three + deletes + [Finish];
    hide Ran, ListsAfter, State.Logs;
    ListsAtStart(s, steps);
    RanLists(s, [Merge, Rename], m2);
    ListsInFirst(s, [Merge, Rename], [Replace], 2, m2.listed);
    ListsInFirst(s, three, deletes, 2, m2.listed);
    ListsInFirst(s, three + deletes, [Finish], 2, m2.listed);
    forall k: nat | k <= |s.tables|
      ensures ListsAfter(s, steps, 3 + k, s.tables[k..] + [whole])
    {
      assert m3.listed[k..] == s.tables[k..] + [whole];
      ListsInSecond(s, three, m3, deletes, k, m3.listed[k..]);
      ListsInFirst(s, three + deletes, [Finish], 3 + k, m3.listed[k..]);
    }
  }

  lemma RanLists(s: State, steps: seq<Step>, t: State)
    requires Ran(s, steps, t) && t.Logs() == s.Logs()
    ensures ListsAfter(s, steps, |steps|, t.listed)
  {
    hide CanRun, Exec;
    assert steps[..|steps|] == steps;
  }

  lemma MergeIsQuiet(n: nat)
    ensures GiveUp !in MergeOf(n)
    ensures Quiet(MergeOf(n)) && MergeOf(n) == [Merge, Rename] + [Replace] + Deletes(n) + [Finish]
  {
  }

  lemma SameLogs(s: State, t: State)
    requires t.oldLogs == s.oldLogs && t.log == s.log
    ensures t.Logs() == s.Logs()
  {
  }

  /** The end of a swap: the tables of the collection are as before, or one table has replaced them. */
  lemma CompactRun(s: State, before: seq<Table>, after: seq<Table>) returns (steps: seq<Step>)
    requires Inv(s) && s.phase.LogRemoved? && AllWellFormed(before) && AllWellFormed(after) && s.tables == Views(before)
    requires |before| <= MERGE_COUNT ==> after == before
    requires after == before || (|after| == 1 && Flatten(Views(after)) == Flatten(s.tables))
    ensures var t := s.(tables := Views(after), listed := Views(after), phase := Idle);
            Ran(s, steps, t) && Inv(t) && Quiet(steps) && t.Logs() == s.Logs()
    ensures after == before ==> steps == if |before| <= 5 then [Finish] else [GiveUp]
    ensures GiveUp in steps <==> after == before && 5 < |before|
    ensures after != before ==>
              && steps == MergeOf(|before|) && |after| == 1 && after[0].View() == Flatten(s.tables)
              && MergeLists(s, steps, Flatten(s.tables))
  {
    hide Inv, CanRun, Exec, MergeLists, Ran, Flatten, Table.View, Table.WellFormed, MergeOf;
    PhaseFacts(s);
    SameLogs(s, s.(tables := Views(after), listed := Views(after), phase := Idle));
    if after != before {
      OneTable(after, Flatten(s.tables));
      MergeRun(s);
      steps := MergeOf(|before|);
    } else if |s.tables| <= MERGE_COUNT {
      FinishRun(s);
      steps := [Finish];
    } else {
      GiveUpRun(s);
      steps := [GiveUp];
    }
  }

  // ---------------------------------------------------------------- the files on the way

  /** Where the engine is after `n` disk operations of a swap of tables. */
  function PointOf(n: nat): nat {
    if n < 2 then 0 else if n == 2 then 2 else n + 1
  }

  /** The same when the swap comes after some quiet states. */
  function PointAt(i: nat, quiet: nat): nat {
    if i < quiet then 0 else PointOf(i - quiet)
  }

  /** A state of the disk during a swap of tables is one of the engine's. */
  lemma SwapShown(h: Files, files: Files, s: State, steps: seq<Step>, tables: seq<Table>, merged: Table, n: nat)
    requires Shows(files, s) && Sound(h, LogFiles(files)) && n < 3 + |tables|
    requires AllWellFormed(tables) && merged.WellFormed() && s.tables == Views(tables)
    requires MergeLists(s, steps, merged.View()) && Reload(h) == CrashView(tables, merged, n)
    ensures ShowsAfter(h, s, steps, PointOf(n))
  {
    hide ListedNames, Reload, LogFiles, CanRun, Exec, Table.View, Table.WellFormed, GoodNames, State.Logs, Shows;
    var p := PointOf(n);
    var listed := if n < 2 then s.tables else s.tables[n - 2..] + [merged.View()];
    assert Views(Reload(h)) == listed && AllWellFormed(Reload(h));
    assert s.tables[0..] == s.tables;
    assert ListsAfter(s, steps, p, listed);
    ShowsSame(files, h, s, Exec(s, steps[..p]));
  }

  /** All states of the disk during a compaction that replaces the tables. */
  lemma MergeTracked(history: seq<Files>, from: nat, files: Files, s: State, before: seq<Table>, merged: Table)
    requires Shows(files, s) && SoundFrom(history, from, LogFiles(files))
    requires AllWellFormed(before) && merged.WellFormed() && s.tables == Views(before)
    requires exists middle: nat :: Swapped(history, from, middle, before, merged)
    requires MergeLists(s, MergeOf(|before|), merged.View())
    ensures Tracked(history, from, s, MergeOf(|before|))
  {
    hide Shows, Sound, LogFiles, Reload, Table.View, Table.WellFormed, MergeLists, Leaves, ShowsAfter;
    var middle: nat :| Swapped(history, from, middle, before, merged);
    var points := seq(|history| - from, i requires 0 <= i < |history| - from => PointAt(i, middle - from));
    forall i | 0 <= i < |points|
      ensures ShowsAfter(history[from + i], s, MergeOf(|before|), points[i])
    {
      SwapShown(history[from + i], files, s, MergeOf(|before|), before, merged,
                if from + i < middle then 0 else from + i - middle);
    }
    hide MergeOf, Swapped;
    PointsRise(points, middle - from);
    PointsOfMerge(|before|, points, middle - from);
    assert Chronicle(history, from, s, MergeOf(|before|), points);
  }

  lemma PointsRise(points: seq<nat>, quiet: nat)
    requires forall i :: 0 <= i < |points| ==> points[i] == PointAt(i, quiet)
    ensures forall i, j :: 0 <= i < j < |points| ==> points[i] <= points[j]
  {
  }

  /** No step that changes the files is left out. */
  lemma PointsOfMerge(n: nat, points: seq<nat>, quiet: nat)
    requires |points| == quiet + 3 + n
    requires forall i :: 0 <= i < |points| ==> points[i] == PointAt(i, quiet)
    ensures forall w :: 0 <= w < |MergeOf(n)| && Leaves(MergeOf(n)[w]) ==> w + 1 in points
  {
    forall w | 0 <= w < |MergeOf(n)| && Leaves(MergeOf(n)[w])
      ensures w + 1 in points
    {
      assert w == 1 || 3 <= w < 3 + n;
      assert points[quiet + if w == 1 then 2 else w] == w + 1;
    }
  }

  /** All states of the disk during a compaction, whatever becomes of it. */
  lemma CompactTracked(history: seq<Files>, from: nat, files: Files, s: State, steps: seq<Step>, before: seq<Table>,
                       after: seq<Table>)
    requires Shows(files, s) && SoundFrom(history, from, LogFiles(files)) && from <= |history|
    requires AllWellFormed(before) && AllWellFormed(after) && s.tables == s.listed == Views(before)
    requires Compacted(history, from, before, before, after) && (after == before || Indexed(after))
    requires after == before ==> steps == [Finish] || steps == [GiveUp]
    requires after != before ==>
               && steps == MergeOf(|before|) && |after| == 1 && after[0].View() == Flatten(s.tables)
               && MergeLists(s, steps, Flatten(s.tables))
    ensures Tracked(history, from, s, steps)
  {
    hide Shows, LogFiles, Reload, Table.View, Table.WellFormed, MergeLists, MergeOf, Tracked, ListedNames, GoodNames;
    hide Swapped, Flatten, IndexFits;
    if after != before {
      MergeTracked(history, from, files, s, before, after[0]);
    } else {
      forall i | from <= i < |history|
        ensures Shows(history[i], s)
      {
        assert Sound(history[i], LogFiles(files));
        ShowsSame(files, history[i], s, s);
      }
      TrackedStill(history, from, s, steps);
    }
  }

  /** States that a restart cannot tell from the one before. */
  lemma QuietStates(history: seq<Files>, from: nat, files: Files, s: State, step: Step)
    requires Shows(files, s) && from <= |history| && !Leaves(step)
    requires forall i :: from <= i < |history| ==>
               SameTables(history[i], files) && LogFiles(history[i]) == LogFiles(files)
    ensures Tracked(history, from, s, [step])
  {
    hide LogFiles, Reload, ListedNames, Shows, Tracked;
    forall i | from <= i < |history|
      ensures Shows(history[i], s)
    {
      SameTablesShow(history[i], files, s);
    }
    TrackedStill(history, from, s, [step]);
  }

  /** Once the merged table is alone on the list, or nothing has happened, a reload finds what is in memory. */
  lemma CompactReloads(history: seq<Files>, from: nat, files: Files, before: seq<Table>, after: seq<Table>)
    requires Compacted(history, from, before, before, after) && (after == before || Indexed(after))
    requires from <= |history| && history != [] && (from == |history| ==> Reload(files) == before)
    requires files == history[|history| - 1]
    ensures Reload(files) == after
  {
    hide Reload, IndexFits;
    if after != before {
      var middle: nat :| Swapped(history, from, middle, before, after[0].Saved());
      assert before[|before|..] + [after[0].Saved()] == after;
    }
  }

  lemma SameTablesShow(h: Files, files: Files, s: State)
    requires Shows(files, s) && SameTables(h, files) && LogFiles(h) == LogFiles(files)
    ensures Shows(h, s)
  {
    hide LogFiles, Reload, ListedNames, Untorn, IsListing, Decoded, State.Logs, Views, AllWellFormed, GoodNames;
    var ages :| Loads(files, ages, s);
    assert Loads(h, ages, s);
  }

  // ---------------------------------------------------------------- the statements

  /** Which operations on files fail. */
  datatype Faults = Faults(log: bool, data: bool, index: bool, open: bool, add: bool, remove: bool,
                           merge: (bool, bool, bool, bool))

  /** The requests of other threads that are served before a swap and after each of its statements. */
  datatype Traffic = Traffic(before: seq<Operation>, afterLog: seq<Operation>,
                             afterCollect: seq<Operation>, afterBuild: seq<Operation>,
                             afterAdd: seq<Operation>, afterRenew: seq<Operation>, afterRemove: seq<Operation>)

  /** What a compaction leaves of these tables. */
  ghost function TablesAfter(tables: seq<Memory>, faults: Faults): seq<Memory> {
    if 5 < |tables| && faults.merge == (false, false, false, false) && Storable(Flatten(tables)) then
      [Flatten(tables)]
    else
      tables
  }

  /** The requests that are served in a swap, which ends early when its table cannot be built or listed. */
  function Served(faults: Faults, built: bool, traffic: Traffic): seq<Operation> {
    if faults.log then
      []
    else
      traffic.afterLog + traffic.afterCollect
      + if !built then [] else
        traffic.afterBuild
        + if faults.add then [] else traffic.afterAdd + traffic.afterRenew + traffic.afterRemove
  }

  /** No fault keeps the table of the collected buffer from being built. */
  ghost predicate Builds(faults: Faults, data: Memory) {
    !faults.log && !faults.data && !faults.index && !faults.open && Storable(data)
  }

  /** Where the engine and the run are when a swap that has collected its buffer ends. */
  ghost predicate Ends(s: State, t: State, before: seq<Step>, steps: seq<Step>, data: Memory, faults: Faults,
                       traffic: Traffic) {
    && s.mem.second in t.mem.buf && t.mem.buf[s.mem.second] == data
    && (if !Builds(faults, data) then
          t.tables == s.tables && Adds(before, steps, [], true)
        else if faults.add then
          t.tables == s.tables && Adds(before, steps, traffic.afterBuild, true)
        else
          && t.tables == TablesAfter(s.tables + [data], faults)
          && Adds(before, steps,
                  traffic.afterBuild + (traffic.afterAdd + traffic.afterRenew + traffic.afterRemove),
                  5 <= |s.tables| && t.tables == s.tables + [data]))
  }

  lemma EndsUnlisted(s: State, t: State, before: seq<Step>, built: seq<Step>, steps: seq<Step>, data: Memory,
                     faults: Faults, traffic: Traffic)
    requires s.mem.second in t.mem.buf && t.mem.buf[s.mem.second] == data && t.tables == s.tables
    requires !Builds(faults, data) || faults.add
    requires Adds(before, built, if Builds(faults, data) then traffic.afterBuild else [], !Builds(faults, data))
    requires if Builds(faults, data) then Adds(built, steps, [], true) else steps == built
    ensures Ends(s, t, before, steps, data, faults, traffic)
  {
    hide Adds, Builds;
    if Builds(faults, data) {
      AddsThen(before, built, steps, traffic.afterBuild, [], false, true);
      AppendNothing(traffic.afterBuild, []);
    }
  }

  lemma EndsListed(s: State, t: State, before: seq<Step>, built: seq<Step>, steps: seq<Step>, data: Memory,
                   faults: Faults, traffic: Traffic)
    requires s.mem.second in t.mem.buf && t.mem.buf[s.mem.second] == data && Builds(faults, data) && !faults.add
    requires t.tables == TablesAfter(s.tables + [data], faults)
    requires Adds(before, built, traffic.afterBuild, false)
    requires Adds(built, steps, traffic.afterAdd + traffic.afterRenew + traffic.afterRemove,
                  5 <= |s.tables| && t.tables == s.tables + [data])
    ensures Ends(s, t, before, steps, data, faults, traffic)
  {
    hide Adds, Builds, TablesAfter;
    AddsThen(before, built, steps, traffic.afterBuild, traffic.afterAdd + traffic.afterRenew + traffic.afterRemove,
             false, 5 <= |s.tables| && t.tables == s.tables + [data]);
  }

  /**
   How a swap ends. The collected buffer, which nothing refers to afterwards, is a new table exactly when it can be
   stored and no fault stands in the way; of more than five tables one is left with their map, under the same
   conditions; the job gives up exactly when one of the two fails; and the log goes with a buffer that is listed.
   */
  ghost predicate SwapEnds(s: State, t: State, steps: seq<Step>, faults: Faults) {
    && s.mem.second in t.mem.buf
    && var data := t.mem.buf[s.mem.second];
       var listed := Builds(faults, data) && !faults.add;
       var tables := s.tables + [data];
       var merged := 5 < |tables| && faults.merge == (false, false, false, false) && Storable(Flatten(tables));
       && t.tables == (if !listed then s.tables else if merged then [Flatten(tables)] else tables)
       && (GiveUp in steps <==> !faults.log && !(listed && (|tables| <= 5 || merged)))
       && (if faults.log || (listed && !faults.remove) then
             t.oldLogs == s.oldLogs
           else
             |t.oldLogs| == |s.oldLogs| + 1 && s.oldLogs <= t.oldLogs)
  }

  lemma DroppedLast<T>(a: seq<T>, x: T)
    ensures (a + [x])[..|a + [x]| - 1] == a
  {
  }

  lemma NothingSwapped(s: State, steps: seq<Step>, faults: Faults, traffic: Traffic)
    requires faults.log && s.mem.Valid() && Adds([], steps, [], false)
    ensures s.mem.second in s.mem.buf && !Builds(faults, s.mem.buf[s.mem.second])
    ensures SwapEnds(s, s, steps, faults) && forall built :: Asked(steps) == Served(faults, built, traffic)
  {
    hide Storable, Flatten;
    AppendNothing(Asked(steps), []);
    assert Asked([]) == [] by { QuietAsksNothing([]); }
  }

  /** Requests before a swap. */
  lemma ServedBefore(s: State, c: State, t: State, before: seq<Step>, more: seq<Step>, ops: seq<Operation>,
                     served: seq<Operation>, faults: Faults)
    requires OnlyServed(s, c) && SwapEnds(c, t, more, faults) && Asked(more) == served
    requires Adds([], before, ops, false)
    ensures SwapEnds(s, t, before + more, faults) && Asked(before + more) == ops + served
  {
    hide Storable, Flatten, Builds;
    AskedTogether(before, more);
    assert Asked([]) == [] by { QuietAsksNothing([]); }
    assert [] + ops == ops;
  }

  /** From the end of a swap that has collected its buffer, seen from its beginning. */
  lemma SwapEndsSo(s: State, c: State, t: State, first: seq<Step>, steps: seq<Step>, data: Memory, faults: Faults,
                   traffic: Traffic)
    requires !faults.log && c.tables == s.tables && c.mem.second == s.mem.second
    requires Adds([], first, traffic.afterLog + traffic.afterCollect, false)
    requires Ends(c, t, first, steps, data, faults, traffic)
    requires t.oldLogs == if Builds(faults, data) && !faults.add && !faults.remove then s.oldLogs
                          else s.oldLogs + [s.log]
    ensures s.mem.second in t.mem.buf && t.mem.buf[s.mem.second] == data
    ensures SwapEnds(s, t, steps, faults) && Asked(steps) == Served(faults, Builds(faults, data), traffic)
  {
    hide Builds, Asked, Storable, Flatten;
    var early := traffic.afterLog + traffic.afterCollect;
    AppendNothing(early, []);
    AppendNothing(traffic.afterBuild, []);
    ConcatIsAssociative(early, traffic.afterBuild, traffic.afterAdd + traffic.afterRenew + traffic.afterRemove);
    assert Asked([]) == [] by { QuietAsksNothing([]); }
    assert [] + early == early;
    var tables := s.tables + [data];
    assert 5 < |tables| ==> [Flatten(tables)] != tables;
  }

  class Controller {
    const system: StorageSystem
    var swapJobActive: bool

    constructor (system: StorageSystem)
      ensures this.system == system && !swapJobActive
    {
      this.system, this.swapJobActive := system, false;
    }

    method SwapLog(number: nat, faulty: bool) returns (r: Result<nat>, ghost steps: seq<Step>)
      requires system.Valid() && system.engine.phase.Idle? && system.engine.mem.Valid()
      requires SWAP_SIZE <= |system.engine.mem.buf[system.engine.mem.writer]|
      requires number !in FileNumbers(system.wal.spans)
      modifies system.Repr
      ensures system.Valid() && fresh(system.Repr - old(system.Repr))
      ensures Ran(old(system.engine), steps, system.engine) && Quiet(steps) && GiveUp !in steps
      ensures old(system.persistent.disk.history) <= system.persistent.disk.history
      ensures old(system.Settled()) ==>
                && system.Settled()
                && Tracked(system.persistent.disk.history, |old(system.persistent.disk.history)|,
                           old(system.engine), steps)
      ensures r.Err? <==> faulty
      ensures r.Err? ==> system.engine == old(system.engine)
      ensures r.Ok? ==> Step.SwapLog in steps
      ensures r.Ok? ==> system.engine ==
                        old(system.engine).(oldLogs := old(system.engine.oldLogs + [system.engine.log]), log := [],
                                            phase := LogSwapped)
      ensures r.Ok? ==> |FileNumbers(system.wal.spans)| >= 2
                        && FileNumbers(system.wal.spans)[|FileNumbers(system.wal.spans)| - 2] == r.value
      ensures OtherFiles(system.persistent.disk.files) == old(OtherFiles(system.persistent.disk.files))
    {
      hide ListedNames, Reload, StrictlySorted, LogsHold, LogFiles, OtherFiles, Inv, Enabled, Do, Ran;
      hide GoodNames, Views, Flatten, FileNumbers, SwappableMemoryStorage.Valid, Whole, SavedAs, Tracked;
      ghost var before, history := system.engine, system.persistent.disk.history;
      LogFilesAreNumbered(LogFiles(system.wal.disk.files), system.wal.spans, system.wal.logs, number);
      r := system.wal.Swap(number, faulty);
      LogsAreNotTables(system.persistent.disk.files, old(system.persistent.disk.files));
      if r.Err? {
        steps := [];
        RanNothing(system.engine);
        AppendNothing(history, []);
        TrackedStill(history, |history|, before, steps);
        return;
      }
      system.Repr := system.Repr + {system.wal.writer};
      SwapLogRun(system.engine);
      steps := [Step.SwapLog];
      system.engine := system.engine.(oldLogs := system.engine.oldLogs + [system.engine.log], log := [],
                                      phase := LogSwapped);
      RanWhole(before, steps, system.engine);
      if system.Settled() {
        DiskMoved(history, before, steps, 1);
      }
    }

    method Collect() returns (entries: seq<StorageEntry>, ghost steps: seq<Step>)
      requires system.Valid() && system.engine.phase.LogSwapped?
      modifies system.Repr
      ensures system.Valid() && fresh(system.Repr - old(system.Repr))
      ensures Ran(old(system.engine), steps, system.engine) && Quiet(steps) && GiveUp !in steps
      ensures old(system.persistent.disk.history) <= system.persistent.disk.history
      ensures old(system.Settled()) ==>
                && system.Settled()
                && Tracked(system.persistent.disk.history, |old(system.persistent.disk.history)|,
                           old(system.engine), steps)
      ensures old(system.engine).mem.Valid() && DistinctKeys(entries)
      ensures system.engine == old(system.engine).(mem := old(system.engine.mem.SwitchWriter()),
                                                   phase := Collected(MemoryOf(entries)))
      ensures FileNumbers(system.wal.spans) == old(FileNumbers(system.wal.spans))
      ensures system.persistent.disk.files == old(system.persistent.disk.files)
    {
      hide ListedNames, Reload, StrictlySorted, LogsHold, LogFiles, Inv, Enabled, Do, Ran, MemoryOf, DistinctKeys;
      hide GoodNames, Views, Flatten, FileNumbers, Whole, SavedAs, Tracked;
      ghost var before, history := system.engine, system.persistent.disk.history;
      PhaseFacts(system.engine);
      CollectRun(system.engine);
      entries := system.storage.Collect();
      steps := [SwitchWriter, Copy];
      system.engine := system.engine.(mem := system.engine.mem.SwitchWriter(), phase := Collected(MemoryOf(entries)));
      TrackedStill(history, |history|, before, steps);
    }

    method Persist(name: Bytes, entries: seq<StorageEntry>, faults: Faults) returns (r: Result<Table>,
                   ghost steps: seq<Step>)
      requires system.Valid() && system.engine.phase == Collected(MemoryOf(entries)) && DistinctKeys(entries)
      requires ShortName(name) && name !in ListedNames(system.persistent.disk.files)
      modifies system.Repr
      ensures system.Valid() && system.Repr == old(system.Repr)
      ensures Ran(old(system.engine), steps, system.engine) && Quiet(steps)
      ensures GiveUp in steps <==> r.Err?
      ensures r.Ok? <==> !faults.data && !faults.index && !faults.open && Storable(MemoryOf(entries))
      ensures old(system.persistent.disk.history) <= system.persistent.disk.history
      ensures old(system.Settled()) ==>
                && system.Settled()
                && Tracked(system.persistent.disk.history, |old(system.persistent.disk.history)|,
                           old(system.engine), steps)
      ensures r.Ok? ==> system.persistent.Fresh(r.value) && r.value.View() == MemoryOf(entries) && r.value.name == name
      ensures system.engine == old(system.engine).(phase := if r.Ok? then Phase.Built(MemoryOf(entries)) else Idle)
      ensures FileNumbers(system.wal.spans) == old(FileNumbers(system.wal.spans))
      ensures ListedNames(system.persistent.disk.files) == old(ListedNames(system.persistent.disk.files))
    {
      hide ListedNames, Reload, StrictlySorted, LogsHold, LogFiles, Inv, Enabled, Do, Ran, MemoryOf, DistinctKeys;
      hide GoodNames, Views, Flatten, FileNumbers, Buildable, Sort, Storable, LoadTable, TableOf, IndexFile, Whole;
      hide DecodeIndex, Table.View, Table.WellFormed, Table.Saved;
      hide ReadEntryAt, SwappableMemoryStorage.Valid, Shows, Tracked, Loads, SavedAs, IndexFits;
      PhaseFacts(system.engine);
      system.Holds();
      ghost var files, history, settled := system.persistent.disk.files, system.persistent.disk.history,
                                           system.Settled();
      if settled {
        system.SettledShows();
      }
      r := CreateTable(system.persistent.disk, name, entries, faults.data, faults.index, faults.open);
      StorableExact(MemoryOf(entries), entries);
      ghost var step := if r.Ok? then Build else GiveUp;
      steps := [step];
      if settled {
        QuietStates(system.persistent.disk.history, |history|, files, system.engine, step);
      }
      if r.Err? {
        GiveUpRun(system.engine);
        system.engine := system.engine.(phase := Idle);
        return;
      }
      NewTable(name, entries);
      BuildRun(system.engine);
      system.engine := system.engine.(phase := Phase.Built(MemoryOf(entries)));
    }

    method Add(table: Table, faulty: bool) returns (ok: bool, ghost steps: seq<Step>)
      requires system.Valid() && system.persistent.Fresh(table) && system.engine.phase == Phase.Built(table.View())
      modifies system.Repr
      ensures system.Valid() && system.Repr == old(system.Repr)
      ensures Ran(old(system.engine), steps, system.engine) && Quiet(steps)
      ensures GiveUp in steps <==> !ok
      ensures old(system.persistent.disk.history) <= system.persistent.disk.history
      ensures old(system.Settled()) && Few(system.engine) ==>
                && system.Settled()
                && Tracked(system.persistent.disk.history, |old(system.persistent.disk.history)|,
                           old(system.engine), steps)
      ensures ok == !faulty
      ensures system.engine == if ok then
                                 old(system.engine).(listed := old(system.engine.listed) + [table.View()],
                                                     tables := old(system.engine.tables) + [table.View()],
                                                     phase := Pushed)
                               else
                                 old(system.engine).(phase := Idle)
      ensures FileNumbers(system.wal.spans) == old(FileNumbers(system.wal.spans))
      ensures ok ==> ListedNames(system.persistent.disk.files) ==
                     old(ListedNames(system.persistent.disk.files)) + [table.name]
    {
      hide ListedNames, Reload, StrictlySorted, LogsHold, LogFiles, Inv, Enabled, Do, Ran, MemoryOf;
      hide GoodNames, Flatten, FileNumbers, LoadTable, Whole, SavedAs, IndexFits, Tracked, Few;
      hide Table.WellFormed, Table.View, Views, AllWellFormed, Quiet, Leaves, Lists, State.Logs, OnDisk;
      ghost var before, history := system.engine, system.persistent.disk.history;
      PhaseFacts(system.engine);
      ok := system.persistent.Add(table, faulty);
      if !ok {
        GiveUpRun(system.engine);
        steps := [GiveUp];
        system.engine := system.engine.(phase := Idle);
        SameLogs(before, system.engine);
        GivenUp(history, before);
        return;
      }
      ghost var view := table.View();
      AddRun(system.engine);
      steps := [List, Push];
      OneMoreView(old(system.persistent.collection), table);
      system.engine := system.engine.(listed := system.engine.listed + [view],
                                      tables := system.engine.tables + [view], phase := Pushed);
      SameLogs(before, system.engine);
      ListRun(before);
      ListAndPush();
      if old(system.Settled()) && Few(system.engine) {
        FewTables(system.engine);
        DiskMoved(history, before, steps, 1);
      }
    }

    method RemoveCollected() returns (ghost steps: seq<Step>)
      requires system.Valid() && system.engine.phase.Pushed?
      modifies system.Repr
      ensures system.Valid() && fresh(system.Repr - old(system.Repr))
      ensures Ran(old(system.engine), steps, system.engine) && Quiet(steps) && GiveUp !in steps
      ensures old(system.persistent.disk.history) <= system.persistent.disk.history
      ensures old(system.Settled()) ==>
                && system.Settled()
                && Tracked(system.persistent.disk.history, |old(system.persistent.disk.history)|,
                           old(system.engine), steps)
      ensures system.engine == old(system.engine).(mem := old(system.engine.mem.Exchange().Renew()), phase := Renewed)
      ensures FileNumbers(system.wal.spans) == old(FileNumbers(system.wal.spans))
      ensures system.persistent.disk.files == old(system.persistent.disk.files)
    {
      hide ListedNames, Reload, StrictlySorted, LogsHold, LogFiles, Inv, Enabled, Do, Ran;
      hide GoodNames, Views, Flatten, FileNumbers, Whole, SavedAs, Tracked;
      ghost var before, history := system.engine, system.persistent.disk.history;
      RenewRun(system.engine);
      system.storage.RemoveCollected();
      system.Repr := system.Repr + {system.storage.readerFirst};
      steps := [Exchange, Renew];
      system.engine := system.engine.(mem := system.engine.mem.Exchange().Renew(), phase := Renewed);
      TrackedStill(history, |history|, before, steps);
    }

    method RemoveOldLog(number: nat, faulty: bool) returns (ghost steps: seq<Step>)
      requires system.Valid() && system.engine.phase.Renewed?
      requires |FileNumbers(system.wal.spans)| >= 2
      requires FileNumbers(system.wal.spans)[|FileNumbers(system.wal.spans)| - 2] == number
      modifies system.Repr
      ensures system.Valid() && system.Repr == old(system.Repr)
      ensures Ran(old(system.engine), steps, system.engine) && Quiet(steps) && GiveUp !in steps
      ensures old(system.persistent.disk.history) <= system.persistent.disk.history
      ensures old(system.Settled()) ==>
                && system.Settled()
                && Tracked(system.persistent.disk.history, |old(system.persistent.disk.history)|,
                           old(system.engine), steps)
      ensures old(system.engine.oldLogs) != [] && (!faulty ==> RemoveLog in steps)
      ensures system.engine.oldLogs == if faulty then old(system.engine.oldLogs)
                                       else old(system.engine.oldLogs)[..|old(system.engine.oldLogs)| - 1]
      ensures system.engine.log == old(system.engine.log) && system.engine.phase.LogRemoved?
      ensures system.engine.mem == old(system.engine.mem) && system.engine.tables == old(system.engine.tables)
      ensures OtherFiles(system.persistent.disk.files) == old(OtherFiles(system.persistent.disk.files))
    {
      hide ListedNames, Reload, StrictlySorted, LogsHold, LogFiles, OtherFiles, Inv, Enabled, Do, Ran;
      hide GoodNames, Views, Flatten, FileNumbers, Whole, SavedAs, Tracked;
      ghost var before, history := system.engine, system.persistent.disk.history;
      ghost var step := RemoveLogRun(system.engine, faulty);
      system.wal.RemoveOld(number, faulty);
      LogsAreNotTables(system.persistent.disk.files, old(system.persistent.disk.files));
      steps := [step];
      system.engine := Do(system.engine, step);
      if faulty {
        AppendNothing(history, []);
        TrackedStill(history, |history|, before, steps);
      } else if system.Settled() {
        RanWhole(before, steps, system.engine);
        DiskMoved(history, before, steps, 1);
      }
    }

    method Compact(name: Bytes, faults: Faults) returns (ghost steps: seq<Step>)
      requires system.Valid() && system.engine.phase.LogRemoved?
      requires ShortName(name) && name !in ListedNames(system.persistent.disk.files)
      modifies system.Repr
      ensures system.Valid() && system.Repr == old(system.Repr)
      ensures Ran(old(system.engine), steps, system.engine) && Quiet(steps)
      ensures system.engine ==
              old(system.engine).(tables := system.engine.tables, listed := system.engine.tables, phase := Idle)
      ensures old(system.persistent.disk.history) <= system.persistent.disk.history
      ensures old(system.Settled()) && Few(system.engine) ==>
                && system.Settled()
                && Tracked(system.persistent.disk.history, |old(system.persistent.disk.history)|,
                           old(system.engine), steps)
      ensures system.engine.tables ==
              if 5 < |old(system.engine.tables)| && faults.merge == (false, false, false, false)
                 && Storable(Flatten(old(system.engine.tables)))
              then [Flatten(old(system.engine.tables))] else old(system.engine.tables)
      ensures GiveUp in steps <==> 5 < |old(system.engine.tables)| && system.engine.tables == old(system.engine.tables)
    {
      hide ListedNames, Reload, StrictlySorted, LogsHold, LogFiles, Inv, Enabled, Do, Ran, MemoryOf, Shows, Loads;
      hide GoodNames, Flatten, FileNumbers, LoadTable, SwappableMemoryStorage.Valid, CrashSafe, Storable, Compacted;
      hide MergeLists, MergeOf, Tracked, SavedAs, IndexFits, DiskMeaning, Whole, Few, SoundFrom, Indexed;
      hide Table.WellFormed, Table.View, Quiet, NoEmptyTable;
      PhaseFacts(system.engine);
      system.Holds();
      ghost var start, history, settled := system.engine, system.persistent.disk.history, system.Settled();
      ghost var before, files := system.persistent.collection, system.persistent.disk.files;
      if settled {
        system.SettledShows();
      }
      NotEmpty(system.engine, before);
      RunCompaction(system.persistent, name, faults.merge);
      ghost var after := system.persistent.collection;
      steps := CompactRun(system.engine, before, after);
      system.engine := system.engine.(tables := Views(after), listed := Views(after), phase := Idle);
      if settled && Few(system.engine) {
        FewTables(system.engine);
        CompactTracked(system.persistent.disk.history, |history|, files, start, steps, before, after);
        CompactReloads(system.persistent.disk.history, |history|, system.persistent.disk.files, before, after);
      }
    }

    /** A statement that leaves one new state of the disk, after the first `p` of its steps. */
    lemma DiskMoved(history: seq<Files>, before: State, steps: seq<Step>, p: nat)
      requires system.Valid() && system.Settled()
      requires system.persistent.disk.history == history + [system.persistent.disk.files]
      requires p <= |steps| && CanRun(before, steps[..p])
      requires Lists(Exec(before, steps[..p]), system.engine.listed, system.engine.Logs())
      requires forall w :: 0 <= w < |steps| && Leaves(steps[w]) ==> w + 1 == p
      ensures Tracked(system.persistent.disk.history, |history|, before, steps)
    {
      hide StorageSystem.Valid, StorageSystem.Settled, Tracked, Shows, CanRun, Exec, Leaves, State.Logs, ListedNames;
      hide Reload, LogFiles, IsListing, Decoded, GoodNames, Views, AllWellFormed, FileNumbers;
      system.SettledShows();
      ghost var files := system.persistent.disk.files;
      ShowsSame(files, files, system.engine, Exec(before, steps[..p]));
      TrackedOne(history, system.persistent.disk.history, before, steps, p);
    }

    /** The run since `start` has led to the state that the system is in. */
    ghost predicate Following(from: nat, start: State, steps: seq<Step>, was: bool)
      reads this, system, system.wal, system.wal.disk, system.persistent, system.persistent.disk
    {
      Progress(system.persistent.disk.history, from, start, steps, system.engine, was, system.Settled())
    }

    /** A statement, or some requests, after a run. */
    lemma FollowOn(history: seq<Files>, from: nat, start: State, before: seq<Step>, s: State, more: seq<Step>,
                   was: bool, settled: bool)
      requires Progress(history, from, start, before, s, was, settled) && Inv(s)
      requires Ran(s, more, system.engine) && Live(more) && history <= system.persistent.disk.history
      requires settled && Few(system.engine) ==>
                 system.Settled() && Tracked(system.persistent.disk.history, |history|, s, more)
      ensures Following(from, start, before + more, was)
    {
      hide StorageSystem.Settled, Progress, Tracked, Ran, Live, Few, Inv;
      ProgressGoesOn(history, system.persistent.disk.history, from, start, before, s, more, system.engine, was,
                     settled, system.Settled());
    }

    /** Other threads' requests, between two statements of the swap that began in `start`. */
    method ServeOthers(ops: seq<Operation>, ghost from: nat, ghost start: State, ghost before: seq<Step>,
                       ghost was: bool)
      returns (ghost steps: seq<Step>)
      requires system.Valid() && Following(from, start, before, was)
      modifies system.Repr
      ensures system.Valid() && system.Repr == old(system.Repr)
      ensures Following(from, start, steps, was) && before <= steps && Adds(before, steps, ops, false)
      ensures old(system.persistent.disk.history) <= system.persistent.disk.history
      ensures OnlyServed(old(system.engine), system.engine)
      ensures NotShrunk(old(system.engine), system.engine)
      ensures FileNumbers(system.wal.spans) == old(FileNumbers(system.wal.spans))
      ensures ListedNames(system.persistent.disk.files) == old(ListedNames(system.persistent.disk.files))
      ensures forall name :: LoadTable(system.persistent.disk.files, name) ==
                old(LoadTable(system.persistent.disk.files, name))
    {
      hide StorageSystem.Valid, StorageSystem.Settled, Progress, Tracked, Few, Ran, Live, NotShrunk, FileNumbers, Inv;
      hide ListedNames, LoadTable, LogFiles, OtherFiles, CanRun, Exec, Requests, State.Logs, Reload, Adds;
      system.Holds();
      ghost var more := system.Serve(ops);
      LogsAreNotTables(system.persistent.disk.files, old(system.persistent.disk.files));
      steps := before + more;
      RequestsRan(old(system.engine), more);
      ServedAdds(before, more, ops);
      FollowOn(old(system.persistent.disk.history), from, start, before, old(system.engine), more, was,
               old(system.Settled()));
    }

    /** The log swap, and the requests served before the writer is switched. */
    method SwapLogServing(number: nat, faulty: bool, traffic: Traffic)
      returns (r: Result<nat>, ghost steps: seq<Step>)
      requires system.Valid() && system.engine.phase.Idle? && system.engine.mem.Valid()
      requires SWAP_SIZE <= |system.engine.mem.buf[system.engine.mem.writer]|
      requires number !in FileNumbers(system.wal.spans)
      modifies system.Repr
      ensures system.Valid() && fresh(system.Repr - old(system.Repr))
      ensures old(system.persistent.disk.history) <= system.persistent.disk.history
      ensures Following(|old(system.persistent.disk.history)|, old(system.engine), steps, old(system.Settled()))
      ensures Adds([], steps, if faulty then [] else traffic.afterLog, false)
      ensures r.Ok? <==> !faulty
      ensures r.Err? ==> system.engine == old(system.engine)
      ensures r.Ok? ==>
                && system.engine.phase.LogSwapped? && Step.SwapLog in steps
                && system.engine.tables == old(system.engine.tables)
                && system.engine.mem.second == old(system.engine.mem.second)
                && system.engine.oldLogs == old(system.engine.oldLogs + [system.engine.log])
                && |FileNumbers(system.wal.spans)| >= 2
                && FileNumbers(system.wal.spans)[|FileNumbers(system.wal.spans)| - 2] == r.value
      ensures ListedNames(system.persistent.disk.files) == old(ListedNames(system.persistent.disk.files))
    {
      hide StorageSystem.Valid, PersistentStorageCollection.Fresh, Table.View, NotShrunk, Progress, Tracked, Few;
      hide StorageSystem.Settled, ListedNames, LoadTable, LogFiles, OtherFiles, Ran, Live, Quiet, FileNumbers;
      hide MemoryOf, DistinctKeys, Reload, State.Logs, Flatten, Inv, Adds;
      ghost var start, from, was := system.engine, |system.persistent.disk.history|, system.Settled();
      system.Holds();
      ProgressStarts(system.persistent.disk.history, start, was);
      r, steps := SwapLog(number, faulty);
      LogsAreNotTables(system.persistent.disk.files, old(system.persistent.disk.files));
      QuietIsLive(steps);
      FollowOn(old(system.persistent.disk.history), from, start, [], start, steps, was, was);
      assert [] + steps == steps;
      JobAdds([], steps);
      if r.Ok? {
        ghost var first := steps;
        steps := ServeOthers(traffic.afterLog, from, start, steps, was);
        StaysIn(Step.SwapLog, first, steps);
        AddsThen([], first, steps, [], traffic.afterLog, false, false);
        assert [] + traffic.afterLog == traffic.afterLog;
      }
    }

    /** The copy of the collected buffer, and the requests served before it is made a table. */
    method CollectServing(traffic: Traffic, ghost from: nat, ghost start: State, ghost before: seq<Step>,
                          ghost was: bool)
      returns (entries: seq<StorageEntry>, ghost steps: seq<Step>)
      requires system.Valid() && system.engine.phase.LogSwapped? && Following(from, start, before, was)
      modifies system.Repr
      ensures system.Valid() && fresh(system.Repr - old(system.Repr))
      ensures old(system.persistent.disk.history) <= system.persistent.disk.history
      ensures Following(from, start, steps, was) && Adds(before, steps, traffic.afterCollect, false)
      ensures system.engine.phase == Collected(MemoryOf(entries)) && DistinctKeys(entries)
      ensures system.engine.oldLogs == old(system.engine.oldLogs) && system.engine.tables == old(system.engine.tables)
      ensures system.engine.mem.second == old(system.engine.mem.second)
      ensures FileNumbers(system.wal.spans) == old(FileNumbers(system.wal.spans))
      ensures ListedNames(system.persistent.disk.files) == old(ListedNames(system.persistent.disk.files))
    {
      hide StorageSystem.Valid, PersistentStorageCollection.Fresh, Table.View, NotShrunk, Progress, Tracked, Few;
      hide StorageSystem.Settled, ListedNames, LoadTable, LogFiles, OtherFiles, Ran, Live, Quiet, FileNumbers;
      hide MemoryOf, DistinctKeys, Reload, State.Logs, Flatten, Inv, Adds;
      ghost var engine, settled, more := system.engine, system.Settled(), [];
      system.Holds();
      entries, more := Collect();
      QuietIsLive(more);
      FollowOn(old(system.persistent.disk.history), from, start, before, engine, more, was, settled);
      steps := ServeOthers(traffic.afterCollect, from, start, before + more, was);
      JobThenServed(before, more, steps, traffic.afterCollect);
    }

    /** The swap up to the copy of the collected buffer. */
    method SwapAndCollect(number: nat, faulty: bool, traffic: Traffic)
      returns (entries: Option<seq<StorageEntry>>, path: nat, ghost steps: seq<Step>)
      requires system.Valid() && system.engine.phase.Idle? && system.engine.mem.Valid()
      requires SWAP_SIZE <= |system.engine.mem.buf[system.engine.mem.writer]|
      requires number !in FileNumbers(system.wal.spans)
      modifies system.Repr
      ensures system.Valid() && fresh(system.Repr - old(system.Repr))
      ensures old(system.persistent.disk.history) <= system.persistent.disk.history
      ensures Following(|old(system.persistent.disk.history)|, old(system.engine), steps, old(system.Settled()))
      ensures entries.Some? <==> !faulty
      ensures entries.Some? ==> Step.SwapLog in steps
      ensures Adds([], steps, if faulty then [] else traffic.afterLog + traffic.afterCollect, false)
      ensures entries.None? ==> system.engine == old(system.engine)
      ensures entries.Some? ==>
                && system.engine.phase == Collected(MemoryOf(entries.value)) && DistinctKeys(entries.value)
                && system.engine.oldLogs == old(system.engine.oldLogs + [system.engine.log])
                && system.engine.tables == old(system.engine.tables)
                && system.engine.mem.second == old(system.engine.mem.second)
                && |FileNumbers(system.wal.spans)| >= 2
                && FileNumbers(system.wal.spans)[|FileNumbers(system.wal.spans)| - 2] == path
      ensures ListedNames(system.persistent.disk.files) == old(ListedNames(system.persistent.disk.files))
    {
      hide StorageSystem.Valid, PersistentStorageCollection.Fresh, Table.View, NotShrunk, Progress, Tracked, Few;
      hide StorageSystem.Settled, ListedNames, LoadTable, LogFiles, OtherFiles, Ran, Live, Quiet, FileNumbers;
      hide MemoryOf, DistinctKeys, Reload, State.Logs, Flatten, Inv;
      hide Following, Adds;
      ghost var start, from, was := system.engine, |system.persistent.disk.history|, system.Settled();
      var swapped;
      swapped, steps := SwapLogServing(number, faulty, traffic);
      if swapped.Err? {
        return None, 0, steps;
      }
      path := swapped.value;
      ghost var first := steps;
      var got;
      got, steps := CollectServing(traffic, from, start, steps, was);
      entries := Some(got);
      AddsThen([], first, steps, traffic.afterLog, traffic.afterCollect, false, false);
      AddsKeep(first, steps, traffic.afterCollect, false);
      StaysIn(Step.SwapLog, first, steps);
    }

    /** The table on disk, and the requests served before it is listed. */
    method PersistCollected(name: Bytes, entries: seq<StorageEntry>, faults: Faults, traffic: Traffic,
                            ghost from: nat, ghost start: State, ghost before: seq<Step>, ghost was: bool)
      returns (r: Result<Table>, ghost steps: seq<Step>)
      requires system.Valid() && system.engine.phase == Collected(MemoryOf(entries)) && DistinctKeys(entries)
      requires Following(from, start, before, was)
      requires ShortName(name) && name !in ListedNames(system.persistent.disk.files)
      modifies system.Repr
      ensures system.Valid() && system.Repr == old(system.Repr)
      ensures Following(from, start, steps, was)
      ensures Adds(before, steps, if r.Ok? then traffic.afterBuild else [], r.Err?)
      ensures old(system.persistent.disk.history) <= system.persistent.disk.history
      ensures r.Ok? <==> !faults.data && !faults.index && !faults.open && Storable(MemoryOf(entries))
      ensures r.Ok? ==> system.persistent.Fresh(r.value) && r.value.name == name
                        && system.engine.phase == Phase.Built(r.value.View())
      ensures r.Err? ==> system.engine.phase.Idle?
      ensures system.engine.oldLogs == old(system.engine.oldLogs) && system.engine.tables == old(system.engine.tables)
      ensures system.engine.mem.Valid() && system.engine.mem.second == old(system.engine.mem.second)
      ensures system.engine.mem.buf[system.engine.mem.second] == MemoryOf(entries)
      ensures r.Ok? ==> r.value.View() == MemoryOf(entries)
      ensures FileNumbers(system.wal.spans) == old(FileNumbers(system.wal.spans))
      ensures ListedNames(system.persistent.disk.files) == old(ListedNames(system.persistent.disk.files))
    {
      hide StorageSystem.Valid, Table.View, NotShrunk, Progress, Tracked, Few;
      hide StorageSystem.Settled;
      hide ListedNames, LoadTable, Ran, Live, Quiet, FileNumbers;
      hide Buildable, Sort, MemoryOf, DistinctKeys, StrictlySorted, ReadEntryAt, Reload, Inv, Storable, Adds;
      system.Holds();
      PhaseFacts(system.engine);
      ghost var engine, more, settled := system.engine, [], system.Settled();
      r, more := Persist(name, entries, faults);
      QuietIsLive(more);
      FollowOn(old(system.persistent.disk.history), from, start, before, engine, more, was, settled);
      steps := before + more;
      JobAdds(before, more);
      if r.Ok? {
        steps := ServeOthers(traffic.afterBuild, from, start, steps, was);
        JobThenServed(before, more, steps, traffic.afterBuild);
        system.Holds();
        PhaseFacts(system.engine);
      }
    }

    /** The table is listed; then requests are served. */
    method AddServing(table: Table, faulty: bool, traffic: Traffic, ghost from: nat, ghost start: State,
                      ghost before: seq<Step>, ghost was: bool)
      returns (ok: bool, ghost steps: seq<Step>)
      requires system.Valid() && system.persistent.Fresh(table) && system.engine.phase == Phase.Built(table.View())
      requires Following(from, start, before, was)
      modifies system.Repr
      ensures system.Valid() && system.Repr == old(system.Repr)
      ensures old(system.persistent.disk.history) <= system.persistent.disk.history
      ensures Following(from, start, steps, was) && ok == !faulty
      ensures Adds(before, steps, if ok then traffic.afterAdd else [], !ok)
      ensures system.engine.oldLogs == old(system.engine.oldLogs)
      ensures system.engine.mem.Valid() && system.engine.mem.second == old(system.engine.mem.second)
      ensures system.engine.mem.buf[system.engine.mem.second] == table.View()
      ensures system.engine.tables == old(system.engine.tables) + if ok then [table.View()] else []
      ensures FileNumbers(system.wal.spans) == old(FileNumbers(system.wal.spans))
      ensures if ok then system.engine.phase.Pushed? else system.engine.phase.Idle?
      ensures ok ==> ListedNames(system.persistent.disk.files) ==
                     old(ListedNames(system.persistent.disk.files)) + [table.name]
    {
      hide StorageSystem.Valid, PersistentStorageCollection.Fresh, Table.View, NotShrunk, Progress, Tracked, Few;
      hide StorageSystem.Settled, ListedNames, LoadTable, LogFiles, OtherFiles, Ran, Live, Quiet, FileNumbers;
      hide MemoryOf, DistinctKeys, Reload, State.Logs, Flatten, Inv, Adds;
      ghost var engine, settled, more := system.engine, system.Settled(), [];
      system.Holds();
      PhaseFacts(system.engine);
      ok, more := Add(table, faulty);
      QuietIsLive(more);
      FollowOn(old(system.persistent.disk.history), from, start, before, engine, more, was, settled);
      steps := before + more;
      JobAdds(before, more);
      if ok {
        steps := ServeOthers(traffic.afterAdd, from, start, steps, was);
        JobThenServed(before, more, steps, traffic.afterAdd);
        system.Holds();
        PhaseFacts(system.engine);
      }
    }

    method RemoveCollectedServing(traffic: Traffic, ghost from: nat, ghost start: State, ghost before: seq<Step>,
                                  ghost was: bool)
      returns (ghost steps: seq<Step>)
      requires system.Valid() && system.engine.phase.Pushed? && Following(from, start, before, was)
      modifies system.Repr
      ensures system.Valid() && fresh(system.Repr - old(system.Repr))
      ensures old(system.persistent.disk.history) <= system.persistent.disk.history
      ensures Following(from, start, steps, was) && Adds(before, steps, traffic.afterRenew, false)
      ensures system.engine.phase.Renewed? && system.engine.oldLogs == old(system.engine.oldLogs)
      ensures old(system.engine.mem.Valid()) && system.engine.tables == old(system.engine.tables)
      ensures old(system.engine.mem.second) in system.engine.mem.buf
              && system.engine.mem.buf[old(system.engine.mem.second)] ==
                 old(system.engine.mem.buf[system.engine.mem.second])
      ensures system.engine.mem.writer != old(system.engine.mem.second)
      ensures FileNumbers(system.wal.spans) == old(FileNumbers(system.wal.spans))
      ensures ListedNames(system.persistent.disk.files) == old(ListedNames(system.persistent.disk.files))
    {
      hide StorageSystem.Valid, PersistentStorageCollection.Fresh, Table.View, NotShrunk, Progress, Tracked, Few;
      hide StorageSystem.Settled, ListedNames, LoadTable, LogFiles, OtherFiles, Ran, Live, Quiet, FileNumbers;
      hide MemoryOf, DistinctKeys, Reload, State.Logs, Flatten, Inv, Adds;
      ghost var engine, settled := system.engine, system.Settled();
      system.Holds();
      PhaseFacts(system.engine);
      ghost var more := RemoveCollected();
      QuietIsLive(more);
      FollowOn(old(system.persistent.disk.history), from, start, before, engine, more, was, settled);
      steps := ServeOthers(traffic.afterRenew, from, start, before + more, was);
      JobThenServed(before, more, steps, traffic.afterRenew);
    }

    method RemoveOldLogServing(path: nat, faulty: bool, traffic: Traffic, ghost from: nat, ghost start: State,
                               ghost before: seq<Step>, ghost was: bool)
      returns (ghost steps: seq<Step>)
      requires system.Valid() && system.engine.phase.Renewed? && Following(from, start, before, was)
      requires |FileNumbers(system.wal.spans)| >= 2
      requires FileNumbers(system.wal.spans)[|FileNumbers(system.wal.spans)| - 2] == path
      modifies system.Repr
      ensures system.Valid() && system.Repr == old(system.Repr)
      ensures old(system.persistent.disk.history) <= system.persistent.disk.history
      ensures Following(from, start, steps, was) && system.engine.phase.LogRemoved?
      ensures Adds(before, steps, traffic.afterRemove, false) && system.engine.tables == old(system.engine.tables)
      ensures system.engine.mem.writer == old(system.engine.mem.writer)
      ensures forall id :: id in old(system.engine.mem.buf) && id != old(system.engine.mem.writer) ==>
                id in system.engine.mem.buf && system.engine.mem.buf[id] == old(system.engine.mem.buf)[id]
      ensures old(system.engine.oldLogs) != [] && (!faulty ==> RemoveLog in steps)
      ensures system.engine.oldLogs == if faulty then old(system.engine.oldLogs)
                                       else old(system.engine.oldLogs)[..|old(system.engine.oldLogs)| - 1]
      ensures ListedNames(system.persistent.disk.files) == old(ListedNames(system.persistent.disk.files))
    {
      hide StorageSystem.Valid, PersistentStorageCollection.Fresh, Table.View, NotShrunk, Progress, Tracked, Few;
      hide StorageSystem.Settled, ListedNames, LoadTable, LogFiles, OtherFiles, Ran, Live, Quiet, FileNumbers;
      hide MemoryOf, DistinctKeys, Reload, State.Logs, Flatten, Inv, Adds;
      ghost var engine, settled := system.engine, system.Settled();
      system.Holds();
      ghost var more := RemoveOldLog(path, faulty);
      LogsAreNotTables(system.persistent.disk.files, old(system.persistent.disk.files));
      QuietIsLive(more);
      FollowOn(old(system.persistent.disk.history), from, start, before, engine, more, was, settled);
      ghost var removed := before + more;
      steps := ServeOthers(traffic.afterRemove, from, start, removed, was);
      JobThenServed(before, more, steps, traffic.afterRemove);
      if !faulty {
        StaysIn(RemoveLog, removed, steps);
      }
    }

    method CompactLast(merged: Bytes, faults: Faults, ghost from: nat, ghost start: State, ghost before: seq<Step>,
                       ghost was: bool)
      returns (ghost steps: seq<Step>)
      requires system.Valid() && system.engine.phase.LogRemoved? && Following(from, start, before, was)
      requires ShortName(merged) && merged !in ListedNames(system.persistent.disk.files)
      modifies system.Repr
      ensures system.Valid() && system.Repr == old(system.Repr)
      ensures old(system.persistent.disk.history) <= system.persistent.disk.history
      ensures Following(from, start, steps, was) && before <= steps
      ensures system.engine.mem == old(system.engine.mem)
      ensures system.engine.tables == TablesAfter(old(system.engine.tables), faults)
      ensures Adds(before, steps, [],
                   5 < |old(system.engine.tables)| && system.engine.tables == old(system.engine.tables))
      ensures system.engine.phase.Idle? && system.engine.oldLogs == old(system.engine.oldLogs)
    {
      hide StorageSystem.Valid, PersistentStorageCollection.Fresh, Table.View, NotShrunk, Progress, Tracked, Few;
      hide StorageSystem.Settled, ListedNames, LoadTable, LogFiles, OtherFiles, Ran, Live, Quiet, FileNumbers;
      hide MemoryOf, DistinctKeys, Reload, State.Logs, Flatten, Inv, Adds, Storable;
      ghost var engine, settled := system.engine, system.Settled();
      system.Holds();
      ghost var more := Compact(merged, faults);
      QuietIsLive(more);
      FollowOn(old(system.persistent.disk.history), from, start, before, engine, more, was, settled);
      JobAdds(before, more);
      steps := before + more;
    }

    /** From listing the table to the end of the compaction. */
    method ListAndCompact(table: Table, path: nat, merged: Bytes, faults: Faults, traffic: Traffic,
                          ghost from: nat, ghost start: State, ghost before: seq<Step>, ghost was: bool)
      returns (ghost steps: seq<Step>)
      requires system.Valid() && system.persistent.Fresh(table) && system.engine.phase == Phase.Built(table.View())
      requires Following(from, start, before, was)
      requires |FileNumbers(system.wal.spans)| >= 2
      requires FileNumbers(system.wal.spans)[|FileNumbers(system.wal.spans)| - 2] == path
      requires ShortName(merged) && merged != table.name && merged !in ListedNames(system.persistent.disk.files)
      modifies system.Repr
      ensures system.Valid() && fresh(system.Repr - old(system.Repr))
      ensures Following(from, start, steps, was)
      ensures before <= steps && system.engine.phase.Idle?
      ensures old(system.engine.mem.second) in system.engine.mem.buf
              && system.engine.mem.buf[old(system.engine.mem.second)] == table.View()
      ensures system.engine.tables == if faults.add then old(system.engine.tables)
                                      else TablesAfter(old(system.engine.tables) + [table.View()], faults)
      ensures Adds(before, steps,
                   if faults.add then [] else traffic.afterAdd + traffic.afterRenew + traffic.afterRemove,
                   faults.add || (5 <= |old(system.engine.tables)|
                                  && system.engine.tables == old(system.engine.tables) + [table.View()]))
      ensures old(system.persistent.disk.history) <= system.persistent.disk.history
      ensures !faults.add && !faults.remove ==> RemoveLog in steps
      ensures !faults.add && !faults.remove ==>
                old(system.engine.oldLogs) != []
                && system.engine.oldLogs == old(system.engine.oldLogs)[..|old(system.engine.oldLogs)| - 1]
      ensures faults.add || faults.remove ==> system.engine.oldLogs == old(system.engine.oldLogs)
    {
      hide StorageSystem.Valid, PersistentStorageCollection.Fresh, Table.View, NotShrunk, Progress, Tracked, Few;
      hide StorageSystem.Settled, ListedNames, LoadTable, LogFiles, OtherFiles, Ran, Live, Quiet, FileNumbers;
      hide MemoryOf, DistinctKeys, Reload, State.Logs, Flatten, Inv;
      hide Following, Adds, TablesAfter;
      var added;
      added, steps := AddServing(table, faults.add, traffic, from, start, before, was);
      AddsKeep(before, steps, if added then traffic.afterAdd else [], !added);
      if !added {
        return;
      }
      ghost var listed := steps;
      steps := RemoveCollectedServing(traffic, from, start, steps, was);
      ghost var renewed := steps;
      steps := RemoveOldLogServing(path, faults.remove, traffic, from, start, steps, was);
      ghost var removed := steps;
      AddsThen(before, listed, renewed, traffic.afterAdd, traffic.afterRenew, false, false);
      AddsThen(before, renewed, removed, traffic.afterAdd + traffic.afterRenew, traffic.afterRemove, false, false);
      ghost var ops := traffic.afterAdd + traffic.afterRenew + traffic.afterRemove;
      ghost var tables := system.engine.tables;
      steps := CompactLast(merged, faults, from, start, steps, was);
      AddsThen(before, removed, steps, ops, [], false, 5 < |tables| && system.engine.tables == tables);
      AppendNothing(ops, []);
      AddsKeep(before, steps, ops, 5 < |tables| && system.engine.tables == tables);
      if !faults.remove {
        StaysIn(RemoveLog, removed, steps);
      }
    }

    /** From the collected entries to the end of the swap. */
    method PersistAndList(name: Bytes, entries: seq<StorageEntry>, path: nat, merged: Bytes, faults: Faults,
                          traffic: Traffic, ghost from: nat, ghost start: State, ghost before: seq<Step>,
                          ghost was: bool)
      returns (ghost steps: seq<Step>)
      requires system.Valid() && system.engine.phase == Collected(MemoryOf(entries)) && DistinctKeys(entries)
      requires Following(from, start, before, was) && !faults.log
      requires |FileNumbers(system.wal.spans)| >= 2
      requires FileNumbers(system.wal.spans)[|FileNumbers(system.wal.spans)| - 2] == path
      requires ShortName(name) && name !in ListedNames(system.persistent.disk.files)
      requires ShortName(merged) && merged != name && merged !in ListedNames(system.persistent.disk.files)
      modifies system.Repr
      ensures system.Valid() && fresh(system.Repr - old(system.Repr))
      ensures old(system.persistent.disk.history) <= system.persistent.disk.history
      ensures Following(from, start, steps, was) && before <= steps && system.engine.phase.Idle?
      ensures Ends(old(system.engine), system.engine, before, steps, MemoryOf(entries), faults, traffic)
      ensures if Builds(faults, MemoryOf(entries)) && !faults.add && !faults.remove then
                && old(system.engine.oldLogs) != [] && RemoveLog in steps
                && system.engine.oldLogs == old(system.engine.oldLogs)[..|old(system.engine.oldLogs)| - 1]
              else
                system.engine.oldLogs == old(system.engine.oldLogs)
    {
      hide StorageSystem.Valid, PersistentStorageCollection.Fresh, Table.View, NotShrunk, Progress, Tracked, Few;
      hide StorageSystem.Settled, ListedNames, LoadTable, LogFiles, OtherFiles, Ran, Live, Quiet, FileNumbers;
      hide MemoryOf, DistinctKeys, Reload, State.Logs, Flatten, Inv, Adds;
      hide Following, TablesAfter, Storable, Ends;
      var table;
      table, steps := PersistCollected(name, entries, faults, traffic, from, start, before, was);
      ghost var built := steps;
      AddsKeep(before, built, if table.Ok? then traffic.afterBuild else [], table.Err?);
      if table.Ok? {
        steps := ListAndCompact(table.value, path, merged, faults, traffic, from, start, steps, was);
      }
      if table.Ok? && !faults.add {
        EndsListed(old(system.engine), system.engine, before, built, steps, MemoryOf(entries), faults, traffic);
      } else {
        EndsUnlisted(old(system.engine), system.engine, before, built, steps, MemoryOf(entries), faults, traffic);
      }
    }

    /** The statements of a swap, one after the other. */
    method RunSwap(number: nat, name: Bytes, merged: Bytes, faults: Faults, traffic: Traffic)
      returns (ghost steps: seq<Step>)
      requires system.Valid() && system.engine.phase.Idle? && system.engine.mem.Valid()
      requires SWAP_SIZE <= |system.engine.mem.buf[system.engine.mem.writer]|
      requires number !in FileNumbers(system.wal.spans)
      requires ShortName(name) && name !in ListedNames(system.persistent.disk.files)
      requires ShortName(merged) && merged != name && merged !in ListedNames(system.persistent.disk.files)
      modifies system.Repr
      ensures system.Valid() && fresh(system.Repr - old(system.Repr)) && system.engine.phase.Idle?
      ensures old(system.persistent.disk.history) <= system.persistent.disk.history
      ensures Following(|old(system.persistent.disk.history)|, old(system.engine), steps, old(system.Settled()))
      ensures old(system.engine.mem.second) in system.engine.mem.buf
      ensures SwapEnds(old(system.engine), system.engine, steps, faults)
      ensures Asked(steps) ==
              Served(faults, Builds(faults, system.engine.mem.buf[old(system.engine.mem.second)]), traffic)
      ensures if faults.log then system.engine == old(system.engine) else Step.SwapLog in steps
      ensures if Builds(faults, system.engine.mem.buf[old(system.engine.mem.second)])
                 && !faults.add && !faults.remove then
                system.engine.oldLogs == old(system.engine.oldLogs) && RemoveLog in steps
              else
                faults.log || system.engine.oldLogs == old(system.engine.oldLogs + [system.engine.log])
    {
      hide StorageSystem.Valid, StorageSystem.Settled, Few, PersistentStorageCollection.Fresh, Table.View, NotShrunk;
      hide Progress, Tracked, Following, ListedNames, LoadTable, Ran, Live, FileNumbers, LogFiles, MemoryOf;
      hide Reload, Flatten, DistinctKeys, Inv, State.Logical, State.Durable, Apply, Adds, Asked, Builds;
      hide Storable, SwapEnds, Ends, Served;
      ghost var start, from, was := system.engine, |system.persistent.disk.history|, system.Settled();
      var path, entries;
      entries, path, steps := SwapAndCollect(number, faults.log, traffic);
      ghost var first, collected := steps, system.engine;
      if entries.None? {
        NothingSwapped(start, steps, faults, traffic);
        return;
      }
      steps := PersistAndList(name, entries.value, path, merged, faults, traffic, from, start, steps, was);
      StaysIn(Step.SwapLog, first, steps);
      DroppedLast(start.oldLogs, start.log);
      SwapEndsSo(start, collected, system.engine, first, steps, MemoryOf(entries.value), faults, traffic);
    }

    /**
     `SwapToPersistentStorage`, with any file operation failing and any requests of other threads in
     between. It is a run of the engine: afterwards the one map is what it was, with those requests applied.
     An attempt that fails after its first statement leaves one more log behind; one that succeeds does not.
     */
    method SwapToPersistentStorage(number: nat, name: Bytes, merged: Bytes, faults: Faults, traffic: Traffic)
      returns (ghost steps: seq<Step>)
      requires system.Valid() && system.engine.phase.Idle? && system.engine.mem.Valid()
      requires SWAP_SIZE <= |system.engine.mem.buf[system.engine.mem.writer]|
      requires number !in FileNumbers(system.wal.spans)
      requires ShortName(name) && name !in ListedNames(system.persistent.disk.files)
      requires ShortName(merged) && merged != name && merged !in ListedNames(system.persistent.disk.files)
      modifies system.Repr
      ensures system.Valid() && fresh(system.Repr - old(system.Repr)) && system.engine.phase.Idle?
      ensures old(system.persistent.disk.history) <= system.persistent.disk.history
      ensures Ran(old(system.engine), steps, system.engine) && Live(steps)
      ensures old(system.engine.mem.second) in system.engine.mem.buf
      ensures SwapEnds(old(system.engine), system.engine, steps, faults)
      ensures Asked(steps) ==
              Served(faults, Builds(faults, system.engine.mem.buf[old(system.engine.mem.second)]), traffic)
      ensures if faults.log then system.engine == old(system.engine) else Step.SwapLog in steps
      ensures if Builds(faults, system.engine.mem.buf[old(system.engine.mem.second)])
                 && !faults.add && !faults.remove then
                system.engine.oldLogs == old(system.engine.oldLogs) && RemoveLog in steps
              else
                faults.log || system.engine.oldLogs == old(system.engine.oldLogs + [system.engine.log])
      ensures old(system.Settled()) && Few(system.engine) ==>
                && system.Settled()
                && Tracked(system.persistent.disk.history, |old(system.persistent.disk.history)|,
                           old(system.engine), steps)
      ensures system.engine.mem.Valid()
      ensures system.engine.Logical() == Apply(old(system.engine.Logical()), Applied(steps))
      ensures !system.engine.tainted ==> system.engine.Durable() == system.engine.Logical()
    {
      hide StorageSystem.Valid, StorageSystem.Settled, Few, Progress, Tracked, ListedNames, Ran, Live, FileNumbers;
      hide Inv, State.Logical, State.Durable, Apply, Asked, Builds, SwapEnds, Served;
      ghost var start, from, was := system.engine, |system.persistent.disk.history|, system.Settled();
      system.Holds();
      steps := RunSwap(number, name, merged, faults, traffic);
      ProgressGives(system.persistent.disk.history, from, start, steps, system.engine, was, system.Settled());
      RunIsOneMap(start, steps, system.engine);
    }

    /** The spawned job, and the requests that are served before it begins. */
    method RunJob(number: nat, name: Bytes, merged: Bytes, faults: Faults, traffic: Traffic)
      returns (ghost steps: seq<Step>)
      requires system.Valid() && system.engine.phase.Idle? && system.engine.mem.Valid()
      requires SWAP_SIZE <= |system.engine.mem.buf[system.engine.mem.writer]|
      requires number !in FileNumbers(system.wal.spans)
      requires ShortName(name) && name !in ListedNames(system.persistent.disk.files)
      requires ShortName(merged) && merged != name && merged !in ListedNames(system.persistent.disk.files)
      modifies system.Repr
      ensures system.Valid() && fresh(system.Repr - old(system.Repr))
      ensures Following(|old(system.persistent.disk.history)|, old(system.engine), steps, old(system.Settled()))
      ensures old(system.persistent.disk.history) <= system.persistent.disk.history
      ensures system.engine.phase.Idle? && (!faults.log ==> Step.SwapLog in steps)
      ensures old(system.engine.mem.second) in system.engine.mem.buf
      ensures SwapEnds(old(system.engine), system.engine, steps, faults)
      ensures Asked(steps) ==
              traffic.before
              + Served(faults, Builds(faults, system.engine.mem.buf[old(system.engine.mem.second)]), traffic)
    {
      hide StorageSystem.Valid, StorageSystem.Settled, Few, ListedNames, LoadTable, Ran, Live, Quiet, FileNumbers;
      hide Inv, State.Logical, Apply;
      hide Applied, Progress, Tracked, Storable, State.Durable, SwapEnds, Served, Adds, Asked, Builds;
      ghost var start, from, was := system.engine, |system.persistent.disk.history|, system.Settled();
      system.Holds();
      ProgressStarts(system.persistent.disk.history, start, was);
      ghost var before := ServeOthers(traffic.before, from, start, [], was);
      ghost var middle, history, settled := system.engine, system.persistent.disk.history, system.Settled();
      system.Holds();
      ghost var more := SwapToPersistentStorage(number, name, merged, faults, traffic);
      FollowOn(history, from, start, before, middle, more, was, settled);
      ServedBefore(start, middle, system.engine, before, more, traffic.before,
                   Served(faults, Builds(faults, system.engine.mem.buf[middle.mem.second]), traffic), faults);
      steps := before + more;
    }

    /**
     `TriggerSwapToPersistentStorage`: a swap begins when the writable buffer is large enough and no other
     one is under way. The job may find a larger buffer than the check did.
     */
    method TriggerSwapToPersistentStorage(number: nat, name: Bytes, merged: Bytes, faults: Faults, traffic: Traffic)
      returns (ghost steps: seq<Step>)
      requires system.Valid() && this !in system.Repr && system.engine.mem.Valid()
      requires swapJobActive <==> !system.engine.phase.Idle?
      requires number !in FileNumbers(system.wal.spans)
      requires ShortName(name) && name !in ListedNames(system.persistent.disk.files)
      requires ShortName(merged) && merged != name && merged !in ListedNames(system.persistent.disk.files)
      modifies this, system.Repr
      ensures system.Valid() && fresh(system.Repr - old(system.Repr)) && system.engine.mem.Valid()
      ensures swapJobActive == old(swapJobActive) && (swapJobActive <==> !system.engine.phase.Idle?)
      ensures Ran(old(system.engine), steps, system.engine) && Live(steps)
      ensures old(system.persistent.disk.history) <= system.persistent.disk.history
      ensures old(system.Settled()) && Few(system.engine) ==>
                && system.Settled()
                && Tracked(system.persistent.disk.history, |old(system.persistent.disk.history)|,
                           old(system.engine), steps)
      ensures system.engine.Logical() == Apply(old(system.engine.Logical()), Applied(steps))
      ensures old(swapJobActive) || old(|system.engine.mem.buf[system.engine.mem.writer]|) < 5 ==>
                steps == [] && system.engine == old(system.engine)
      ensures !old(swapJobActive) && 5 <= old(|system.engine.mem.buf[system.engine.mem.writer]|) ==>
                && (!faults.log ==> Step.SwapLog in steps)
                && SwapEnds(old(system.engine), system.engine, steps, faults)
                && Asked(steps) ==
                     traffic.before
                     + Served(faults, Builds(faults, system.engine.mem.buf[old(system.engine.mem.second)]), traffic)
    {
      hide StorageSystem.Valid, StorageSystem.Settled, Few, ListedNames, LoadTable, Ran, Live, Quiet, FileNumbers;
      hide Inv, State.Logical, Apply;
      hide Applied, Progress, Tracked, State.Durable, SwapEnds, Served, Asked, Builds;
      ghost var start, from, was := system.engine, |system.persistent.disk.history|, system.Settled();
      system.Holds();
      ProgressStarts(system.persistent.disk.history, start, was);
      system.Holds();
      steps := [];
      var size := system.BufferSize();
      if SWAP_SIZE <= size && !swapJobActive {
        swapJobActive := true;
        steps := RunJob(number, name, merged, faults, traffic);
        swapJobActive := false;
      }
      ProgressGives(system.persistent.disk.history, from, start, steps, system.engine, was, system.Settled());
      RunIsOneMap(start, steps, system.engine);
    }
  }

  /** A run in which the program does not restart. */
  ghost predicate Live(steps: seq<Step>) {
    forall i :: 0 <= i < |steps| ==> !steps[i].Restart?
  }

  /** The writable buffer has not shrunk. */
  ghost predicate NotShrunk(s: State, t: State) {
    s.mem.Valid() && t.mem.Valid() && |s.mem.buf[s.mem.writer]| <= |t.mem.buf[t.mem.writer]|
  }

  /** Requests leave all but the writable buffer and the current log alone. */
  ghost predicate OnlyServed(s: State, t: State) {
    && t.phase == s.phase && t.oldLogs == s.oldLogs && t.tables == s.tables
    && t.mem.first == s.mem.first && t.mem.second == s.mem.second && t.mem.writer == s.mem.writer
    && forall id :: id in s.mem.buf && id != s.mem.writer ==> id in t.mem.buf && t.mem.buf[id] == s.mem.buf[id]
  }

  lemma RequestsGrow(s: State, more: seq<Step>)
    requires Inv(s) && Requests(more) && CanRun(s, more)
    ensures NotShrunk(s, Exec(s, more))
  {
    hide CanRun, Exec, Inv, Requests;
    RequestsKeep(s, more);
    PhaseFacts(s);
    RunKeepsInv(s, more);
    var t := Exec(s, more);
    PhaseFacts(t);
    MoreKeys(s.mem.buf[s.mem.writer], t.mem.buf[t.mem.writer]);
  }

  lemma RequestsRan(s: State, more: seq<Step>)
    requires Requests(more) && CanRun(s, more) && Inv(s)
    ensures Ran(s, more, Exec(s, more)) && Live(more) && NotShrunk(s, Exec(s, more))
    ensures OnlyServed(s, Exec(s, more))
  {
    RequestsGrow(s, more);
    hide CanRun, Exec, NotShrunk, Inv;
    RequestsKeep(s, more);
  }

  /** Few enough keys that the index of any table made of them fits in a message. */
  ghost predicate Few(e: State) {
    e.mem.Valid() && |e.Logical()| <= MANY_KEYS
  }

  lemma FewTables(e: State)
    requires Few(e)
    ensures |Flatten(e.tables)| <= MANY_KEYS
    ensures e.tables != [] ==> |e.tables[|e.tables| - 1]| <= MANY_KEYS
  {
    MoreKeys(Flatten(e.tables), e.Logical());
    if e.tables != [] {
      MoreKeys(e.tables[|e.tables| - 1], Flatten(e.tables));
    }
  }

  /** No run that goes on without a restart removes a key. */
  lemma FewBefore(s: State, steps: seq<Step>, t: State)
    requires Inv(s) && Ran(s, steps, t) && Live(steps) && Few(t)
    ensures Few(s)
  {
    hide Inv, CanRun, Exec, Flatten, Apply, Applied;
    InvGives(s);
    LiveMapSurvivesFailures(s, steps);
    ApplyGrows(s.Logical(), Applied(steps));
  }

  /**
   A run from `start` to `e`. If the system was settled when it began and there are not too many keys at its end,
   then it still is, and all states of the disk since number `from` are those of points of the run.
   */
  ghost predicate Progress(history: seq<Files>, from: nat, start: State, steps: seq<Step>, e: State, was: bool,
                           settled: bool)
  {
    && from <= |history| && Inv(start) && Ran(start, steps, e) && Live(steps)
    && (was && Few(e) ==> settled && Tracked(history, from, start, steps))
  }

  lemma ProgressStarts(history: seq<Files>, start: State, settled: bool)
    requires Inv(start)
    ensures Progress(history, |history|, start, [], start, settled, settled)
  {
    hide Tracked, Inv;
    RanNothing(start);
    TrackedStill(history, |history|, start, []);
  }

  lemma ProgressGives(history: seq<Files>, from: nat, start: State, steps: seq<Step>, e: State, was: bool,
                      settled: bool)
    requires Progress(history, from, start, steps, e, was, settled)
    ensures Ran(start, steps, e) && Live(steps) && Inv(start)
    ensures was && Few(e) ==> settled && Tracked(history, from, start, steps)
  {
    hide Ran, Live, Tracked, Few;
  }

  lemma ProgressGoesOn(first: seq<Files>, all: seq<Files>, from: nat, start: State, before: seq<Step>, s: State,
                       more: seq<Step>, t: State, was: bool, between: bool, settled: bool)
    requires Progress(first, from, start, before, s, was, between) && first <= all && Inv(s)
    requires Ran(s, more, t) && Live(more)
    requires between && Few(t) ==> settled && Tracked(all, |first|, s, more)
    ensures Progress(all, from, start, before + more, t, was, settled)
  {
    hide CanRun, Exec, Tracked, Few, Inv;
    RanThen(start, before, s, more, t);
    if was && Few(t) {
      FewBefore(s, more, t);
      TrackedTogether(first, all, from, start, before, more);
    }
  }

  lemma RunIsOneMap(s: State, steps: seq<Step>, t: State)
    requires Ran(s, steps, t) && Live(steps) && Inv(s)
    ensures Inv(t) && s.mem.Valid() && t.mem.Valid() && t.Logical() == Apply(s.Logical(), Applied(steps))
    ensures !t.tainted ==> t.Durable() == t.Logical()
  {
    hide Inv, Exec, CanRun;
    InvGives(s);
    LiveMapSurvivesFailures(s, steps);
    InvGives(t);
  }

  lemma StaysIn(step: Step, a: seq<Step>, b: seq<Step>)
    requires step in a && a <= b
    ensures step in b
  {
    var i :| 0 <= i < |a| && a[i] == step;
    assert b[i] == step;
  }

  lemma QuietIsLive(steps: seq<Step>)
    requires Quiet(steps)
    ensures Live(steps)
  {
  }

  lemma RanNothing(s: State)
    ensures Ran(s, [], s) && Quiet([])
  {
    RunOfNothing(s);
  }

  lemma NotEmpty(s: State, tables: seq<Table>)
    requires Inv(s) && AllWellFormed(tables) && s.tables == Views(tables)
    ensures NoEmptyTable(tables)
  {
    hide LogsCover, Flatten, StrictlySorted, ReadEntryAt;
    forall i | 0 <= i < |tables|
      ensures tables[i].index != []
    {
      assert s.tables[i] != map[];
      assert Views(tables)[i] == tables[i].View();
    }
  }

  lemma OneMoreView(tables: seq<Table>, table: Table)
    requires AllWellFormed(tables) && table.WellFormed()
    ensures AllWellFormed(tables + [table]) && Views(tables + [table]) == Views(tables) + [table.View()]
  {
    hide Table.View, Table.WellFormed;
  }

  lemma OneTable(tables: seq<Table>, meaning: Memory)
    requires AllWellFormed(tables) && |tables| == 1 && Flatten(Views(tables)) == meaning
    ensures Views(tables) == [meaning]
  {
    assert Views(tables) == [tables[0].View()];
    FlattenOne(tables[0].View());
  }
}
