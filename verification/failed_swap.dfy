/** Reachable runs in which files come to hold another map: the reason why `EngineIsOneMap` excludes them. */
module FailedSwap {
  import opened Wrappers
  import opened Kv
  import opened Memtable
  import opened Recovery
  import opened Engine

  function Writes(ops: seq<Operation>): seq<Step> {
    seq(|ops|, i requires 0 <= i < |ops| => Write(ops[i]))
  }

  function Burst(s: State, ops: seq<Operation>): State
    requires s.mem.writer in s.mem.buf
  {
    s.(log := s.log + ops, mem := s.mem.(buf := s.mem.buf[s.mem.writer := Apply(s.mem.buf[s.mem.writer], ops)]))
  }

  /** No table binds a key with a version above 0, so no write is left out for being old. */
  ghost predicate Unversioned(tables: seq<Memory>) {
    forall key :: key in Flatten(tables) ==> Flatten(tables)[key].version == 0
  }

  lemma BurstOneMore(s: State, ops: seq<Operation>, op: Operation)
    requires s.mem.Valid() && Unversioned(s.tables)
    requires Burst(s, ops).mem.Valid()
    ensures Enabled(Burst(s, ops), Write(op)) && Burst(s, ops + [op]).mem.Valid()
    ensures Do(Burst(s, ops), Write(op)) == Burst(s, ops + [op])
  {
    ApplySnoc(s.mem.buf[s.mem.writer], ops, op);
    ConcatIsAssociative(s.log, ops, [op]);
    WriteContents(Burst(s, ops).mem, op);
    hide Apply, Effect, Flatten;
  }

  /** When nothing is left out, a burst of writes simply goes to the log and the buffer. */
  lemma {:induction false} WriteBurst(s: State, ops: seq<Operation>)
    requires s.mem.Valid() && Unversioned(s.tables)
    ensures Burst(s, ops).mem.Valid()
    ensures CanRun(s, Writes(ops)) && Exec(s, Writes(ops)) == Burst(s, ops)
  {
    hide Enabled, Do, Unversioned;
    if ops == [] {
      assert s.log + ops == s.log && s.mem.buf[s.mem.writer := s.mem.buf[s.mem.writer]] == s.mem.buf;
    } else {
      var n := |ops| - 1;
      WriteBurst(s, ops[..n]);
      hide Burst;
      assert ops[..n] + [ops[n]] == ops && Writes(ops) == Writes(ops[..n]) + [Write(ops[n])];
      BurstOneMore(s, ops[..n], ops[n]);
      RunOneMore(s, Writes(ops[..n]), Write(ops[n]));
    }
  }

  /** Five insertions of different keys. */
  function Batch(b: nat): (ops: seq<Operation>)
    requires b < 200
    ensures |ops| == 5 && forall i :: 0 <= i < 5 ==> ops[i] == Insert([b + i], [], 0)
  {
    seq(5, i requires 0 <= i < 5 => Insert([b + i], [], 0))
  }

  lemma {:induction false} EffectKeys(ops: seq<Operation>, key: Bytes)
    ensures key in Effect(ops) <==> exists i :: 0 <= i < |ops| && ops[i].key == key
  {
    if ops != [] {
      var n := |ops| - 1;
      EffectKeys(ops[..n], key);
      if key in Effect(ops[..n]) {
        var i :| 0 <= i < n && ops[..n][i].key == key;
        assert ops[i].key == key;
      }
      if exists i :: 0 <= i < n && ops[i].key == key {
        var i :| 0 <= i < n && ops[i].key == key;
        assert ops[..n][i].key == key;
      }
    }
  }

  lemma {:induction false} EffectOfDistinct(ops: seq<Operation>)
    requires forall i, j :: 0 <= i < j < |ops| ==> ops[i].key != ops[j].key
    ensures |Effect(ops)| == |ops|
    ensures forall key :: key in Effect(ops) <==> exists i :: 0 <= i < |ops| && ops[i].key == key
  {
    if ops != [] {
      var n := |ops| - 1;
      EffectOfDistinct(ops[..n]);
      EffectKeys(ops[..n], ops[n].key);
      assert Effect(ops) == Effect(ops[..n])[ops[n].key := ops[n].Binding()];
      assert Effect(ops).Keys == Effect(ops[..n]).Keys + {ops[n].key};
    }
    forall key
      ensures key in Effect(ops) <==> exists i :: 0 <= i < |ops| && ops[i].key == key
    {
      EffectKeys(ops, key);
    }
  }

  lemma Then(from: State, steps: seq<Step>, s: State, step: Step, next: State)
    requires CanRun(from, steps) && s == Exec(from, steps) && Enabled(s, step) && next == Do(s, step)
    ensures CanRun(from, steps + [step]) && next == Exec(from, steps + [step])
  {
    hide Enabled, Do;
    RunOneMore(from, steps, step);
  }

  /** A swap that fails when it writes its table leaves the old log behind. */
  lemma FailedAttempt(s: State) returns (steps: seq<Step>)
    requires s.mem.Valid() && s.phase.Idle? && SWAP_SIZE <= |s.mem.buf[s.mem.writer]|
    ensures CanRun(s, steps)
    ensures Exec(s, steps) == s.(oldLogs := s.oldLogs + [s.log], log := [], mem := s.mem.SwitchWriter())
  {
    hide Flatten, Effect, Apply;
    var s1 := s.(oldLogs := s.oldLogs + [s.log], log := [], phase := LogSwapped);
    var s2 := s1.(mem := s.mem.SwitchWriter(), phase := WriterSwitched);
    var s3 := s2.(phase := Collected(s2.mem.buf[s2.mem.second]));
    Then(s, [], s, SwapLog, s1);
    Then(s, [] + [SwapLog], s1, SwitchWriter, s2);
    Then(s, [] + [SwapLog] + [SwitchWriter], s2, Copy, s3);
    Then(s, [] + [SwapLog] + [SwitchWriter] + [Copy], s3, GiveUp, s3.(phase := Idle));
    steps := [] + [SwapLog] + [SwitchWriter] + [Copy] + [GiveUp];
  }

  /** The first half of a swap: the log is swapped and the second buffer is collected. */
  lemma SwapCollects(s: State) returns (steps: seq<Step>)
    requires s.mem.Valid() && s.phase.Idle? && SWAP_SIZE <= |s.mem.buf[s.mem.writer]|
    ensures CanRun(s, steps)
    ensures Exec(s, steps) ==
            s.(oldLogs := s.oldLogs + [s.log], log := [], mem := s.mem.SwitchWriter(),
               phase := Built(s.mem.buf[s.mem.second]))
    ensures steps == [SwapLog, SwitchWriter, Copy, Build]
  {
    hide Flatten, Effect, Apply;
    var s1 := s.(oldLogs := s.oldLogs + [s.log], log := [], phase := LogSwapped);
    var s2 := s1.(mem := s.mem.SwitchWriter(), phase := WriterSwitched);
    var s3 := s2.(phase := Collected(s.mem.buf[s.mem.second]));
    Then(s, [], s, SwapLog, s1);
    Then(s, [] + [SwapLog], s1, SwitchWriter, s2);
    Then(s, [] + [SwapLog] + [SwitchWriter], s2, Copy, s3);
    Then(s, [] + [SwapLog] + [SwitchWriter] + [Copy], s3, Build, s3.(phase := Built(s3.phase.data)));
    steps := [] + [SwapLog] + [SwitchWriter] + [Copy] + [Build];
  }

  /** The second half, up to the removal of a log. */
  lemma SwapLists(s: State) returns (steps: seq<Step>)
    requires s.mem.Valid() && s.phase.Built? && s.mem.writer == s.mem.first != s.mem.second
    ensures CanRun(s, steps)
    ensures Exec(s, steps) ==
            s.(mem := s.mem.Exchange().Renew(), listed := s.listed + [s.phase.data],
               tables := s.tables + [s.phase.data], phase := Renewed)
    ensures steps == [List, Push, Exchange, Renew]
  {
    hide Flatten, Effect, Apply;
    var data := s.phase.data;
    var s1 := s.(listed := s.listed + [data], phase := Listed(data));
    var s2 := s1.(tables := s.tables + [data], phase := Pushed);
    var s3 := s2.(mem := s.mem.Exchange(), phase := Exchanged);
    Then(s, [], s, List, s1);
    Then(s, [] + [List], s1, Push, s2);
    Then(s, [] + [List] + [Push], s2, Exchange, s3);
    Then(s, [] + [List] + [Push] + [Exchange], s3, Renew, s3.(mem := s3.mem.Renew(), phase := Renewed));
    steps := [] + [List] + [Push] + [Exchange] + [Renew];
  }

  /** The engine after a burst, a failed swap, and another burst. */
  function AfterFailure(a: seq<Operation>, b: seq<Operation>): State {
    State(Buffers(map[0 := Effect(b), 1 := Effect(a)], 0, 1, 0, 2), [], [], [a], b, Idle, false)
  }

  lemma RunToFailure(a: seq<Operation>) returns (steps: seq<Step>)
    requires |Effect(a)| >= SWAP_SIZE
    ensures CanRun(Init(), steps) && Exec(Init(), steps) == AfterFailure(a, [])
  {
    var s0, s1 := Init(), FirstBurst(a);
    FirstBurstIsBurst(a);
    hide Unversioned;
    WriteBurst(s0, a);
    hide Effect, Apply, Burst, Enabled, Do, Init;
    var failed := FailedAttempt(s1);
    RunAppend(s0, Writes(a), failed);
    steps := Writes(a) + failed;
  }

  function FirstBurst(a: seq<Operation>): State {
    State(Buffers(map[0 := map[], 1 := Effect(a)], 0, 1, 1, 2), [], [], [], a, Idle, false)
  }

  lemma FirstBurstIsBurst(a: seq<Operation>)
    ensures Init().mem.Valid() && Burst(Init(), a) == FirstBurst(a) && FirstBurst(a).mem.Valid()
    ensures AfterFailure(a, []).mem == FirstBurst(a).mem.SwitchWriter() && Unversioned(Init().tables)
  {
    assert [] + a == a && Effect([]) == map[];
  }

  lemma RunPastFailure(a: seq<Operation>, b: seq<Operation>) returns (steps: seq<Step>)
    requires |Effect(a)| >= SWAP_SIZE
    ensures CanRun(Init(), steps) && Exec(Init(), steps) == AfterFailure(a, b)
  {
    var before := RunToFailure(a);
    SecondBurst(a, b);
    hide Unversioned;
    WriteBurst(AfterFailure(a, []), b);
    hide Effect, Apply, Enabled, Do, Burst, AfterFailure;
    RunAppend(Init(), before, Writes(b));
    steps := before + Writes(b);
  }

  lemma SecondBurst(a: seq<Operation>, b: seq<Operation>)
    ensures AfterFailure(a, []).mem.Valid() && Unversioned(AfterFailure(a, []).tables)
    ensures Burst(AfterFailure(a, []), b) == AfterFailure(a, b)
  {
    assert Effect([]) == map[] && [] + b == b;
    assert Burst(AfterFailure(a, []), b).mem == AfterFailure(a, b).mem;
  }

  /** After the retry, the second burst is in memory and in the one log that will be removed. */
  lemma FailedThenRetried(a: seq<Operation>, b: seq<Operation>) returns (steps: seq<Step>, s: State)
    requires |Effect(a)| >= SWAP_SIZE && |Effect(b)| >= SWAP_SIZE
    ensures CanRun(Init(), steps) && Exec(Init(), steps) == s
    ensures s == State(AfterFailure(a, b).mem.Exchange().Renew(), [Effect(a)], [Effect(a)], [a] + [b], [],
              Renewed, false)
  {
    var before := RunPastFailure(a, b);
    var failed := AfterFailure(a, b);
    assert failed.mem.SwitchWriter() == failed.mem;
    assert failed.mem.Valid() && failed.mem.buf[0] == Effect(b) && failed.mem.buf[1] == Effect(a);
    hide Effect, Apply, Enabled, Do;
    var first := SwapCollects(failed);
    var second := SwapLists(Exec(failed, first));
    RunAppend(Init(), before, first);
    RunAppend(Init(), before + first, second);
    steps, s := before + first + second, Exec(Init(), before + first + second);
  }

  /**
   After a failed attempt, the retry removes a log whose writes are in no table. A crash then loses them:
   the key [5] is answered by the engine and held by no file.
   */
  lemma RetryLosesWrites() returns (steps: seq<Step>)
    ensures CanRun(Init(), steps)
    ensures var s := Exec(Init(), steps);
            s.mem.Valid() && [5] in s.Logical() && [5] !in s.Durable()
  {
    var a, b := Batch(0), Batch(5);
    EffectOfDistinct(a);
    EffectOfDistinct(b);
    assert b[0].key == [5];
    var run, s := FailedThenRetried(a, b);
    var t := s.(oldLogs := [a], tainted := true, phase := LogRemoved);
    RemovalLoses(a, b, s, t);
    Then(Init(), run, s, RemoveLog, t);
    steps := run + [RemoveLog];
  }

  lemma RemovalLoses(a: seq<Operation>, b: seq<Operation>, s: State, t: State)
    requires s == State(AfterFailure(a, b).mem.Exchange().Renew(), [Effect(a)], [Effect(a)], [a] + [b], [],
              Renewed, false)
    requires t == s.(oldLogs := [a], tainted := true, phase := LogRemoved)
    requires [5] in Effect(b) && [5] !in Effect(a)
    ensures Enabled(s, RemoveLog) && Do(s, RemoveLog) == t
    ensures t.mem.Valid() && [5] in t.Logical() && [5] !in t.Durable()
  {
    assert ([a] + [b])[..1] == [a];
    assert t.Logs() == [a, []];
    ConcatTwo(a, []);
    FlattenOne(Effect(a));
    assert Effect([]) == map[];
    hide Flatten, Concat, Effect;
  }

  // ---------------------------------------------------------------- a crash in the middle of a swap

  /** The state of a first swap after its first statement and one more write. */
  function InSwap(a: seq<Operation>, op: Operation): State {
    FirstBurst(a).(oldLogs := [a], log := [op], phase := LogSwapped,
                   mem := FirstBurst(a).mem.Write(op))
  }

  lemma FirstSwap(a: seq<Operation>, op: Operation)
    requires |Effect(a)| >= SWAP_SIZE
    ensures var t := FirstBurst(a).(oldLogs := [a], log := [], phase := LogSwapped);
            && FirstBurst(a).mem.Valid() && Enabled(FirstBurst(a), SwapLog) && Do(FirstBurst(a), SwapLog) == t
            && Enabled(t, Write(op)) && Do(t, Write(op)) == InSwap(a, op)
  {
    hide Effect, Apply;
  }

  /**
   A crash in the middle of a swap. Five writes, the first statement of their swap, and one more write leave two
   logs that are both small at start-up: recovery keeps the newer one, and the five writes are gone although the files
   held them.
   */
  lemma CrashInSwapLosesWrites()
    ensures var steps := Writes(Batch(0)) + [SwapLog] + [Write(Insert([9], [], 0))];
            && CanRun(Init(), steps)
            && var s := Exec(Init(), steps);
               && Inv(s) && !s.tainted && IsDirectoryOrder([0, 1], |s.Logs()|)
               && [0] in s.Durable() && [0] !in RecoveredMap(s.listed, Visited(s.Logs(), [0, 1]), 5000)
  {
    var a, op := Batch(0), Insert([9], [], 0);
    hide Effect, Enabled, Do, Init, Inv, InSwap, IsLarge, Exec, CanRun, RecoveredMap, DurableMap, Writes, Visited;
    SmallLogs(a, op);
    RunIntoSwap(a, op);
    TwoAreLeft(a, op);
    TwoSmallLogsLoseOne([], a, [op], 5000, [0]);
  }

  lemma SmallLogs(a: seq<Operation>, op: Operation)
    requires a == Batch(0) && op == Insert([9], [], 0)
    ensures |Effect(a)| == 5 && !IsLarge(a, 5000) && !IsLarge([op], 5000)
    ensures [0] in Effect(a) && [0] !in Effect([op])
  {
    EffectOfDistinct(a);
    EffectOfDistinct([op]);
    assert a[0].key == [0];
  }

  lemma RunIntoSwap(a: seq<Operation>, op: Operation)
    requires |Effect(a)| >= SWAP_SIZE
    ensures var steps := Writes(a) + [SwapLog] + [Write(op)];
            CanRun(Init(), steps) && Exec(Init(), steps) == InSwap(a, op) && Inv(InSwap(a, op))
  {
    hide Effect, Apply, Enabled, Do, Burst, Init, Unversioned, Inv, InSwap, FirstBurst;
    var t := FirstBurst(a).(oldLogs := [a], log := [], phase := LogSwapped);
    FirstBurstIsBurst(a);
    WriteBurst(Init(), a);
    FirstSwap(a, op);
    Then(Init(), Writes(a), FirstBurst(a), SwapLog, t);
    Then(Init(), Writes(a) + [SwapLog], t, Write(op), InSwap(a, op));
    InitSatisfiesInv();
    RunKeepsInv(Init(), Writes(a) + [SwapLog] + [Write(op)]);
  }

  lemma TwoAreLeft(a: seq<Operation>, op: Operation)
    ensures var s := InSwap(a, op);
            s.Logs() == [a, [op]] && s.listed == [] && !s.tainted && Visited(s.Logs(), [0, 1]) == s.Logs()
            && s.Durable() == DurableMap([], [a, [op]])
    ensures IsDirectoryOrder([0, 1], 2)
  {
    assert 0 in [0, 1] && 1 in [0, 1];
    assert InSwap(a, op).Logs() == [a, [op]];
    hide DurableMap;
  }

  // ---------------------------------------------------------------- a log that could not be removed

  /** The same five keys with another value. */
  function Rewrite(): (ops: seq<Operation>)
    ensures |ops| == 5 && forall i :: 0 <= i < 5 ==> ops[i] == Insert([i], [1], 0)
  {
    seq(5, i requires 0 <= i < 5 => Insert([i], [1], 0))
  }

  /** A state after a swap up to the removal of its log. */
  function Swept(s: State): State
    requires s.mem.second in s.mem.buf
  {
    var data := s.mem.buf[s.mem.second];
    s.(oldLogs := s.oldLogs + [s.log], log := [], mem := s.mem.SwitchWriter().Exchange().Renew(),
       listed := s.listed + [data], tables := s.tables + [data], phase := Renewed)
  }

  function SwapSteps(): seq<Step> {
    [SwapLog, SwitchWriter, Copy, Build] + [List, Push, Exchange, Renew]
  }

  /** A swap without a fault, up to the removal of its log. */
  lemma SwapUpToRemoval(s: State)
    requires s.mem.Valid() && s.phase.Idle? && SWAP_SIZE <= |s.mem.buf[s.mem.writer]| && s.mem.first != s.mem.second
    ensures CanRun(s, SwapSteps()) && Exec(s, SwapSteps()) == Swept(s)
  {
    hide Flatten, Effect, Apply;
    var first := SwapCollects(s);
    var second := SwapLists(Exec(s, first));
    RunAppend(s, first, second);
  }

  /** The engine after a burst whose log could not be removed, and another burst. */
  function AfterKeeping(a: seq<Operation>, b: seq<Operation>): State {
    State(Buffers(map[0 := Effect(b), 1 := Effect(a), 2 := map[]], 2, 0, 0, 3), [Effect(a)], [Effect(a)], [a], b, Idle,
          false)
  }

  lemma KeepSteps(a: seq<Operation>)
    requires |Effect(a)| >= SWAP_SIZE
    ensures var s := FirstBurst(a);
            && s.mem.Valid() && s.phase.Idle? && SWAP_SIZE <= |s.mem.buf[s.mem.writer]| && s.mem.first != s.mem.second
            && Enabled(Swept(s), KeepLog) && Enabled(Do(Swept(s), KeepLog), Finish)
            && Do(Do(Swept(s), KeepLog), Finish) == AfterKeeping(a, [])
  {
    BuffersAfterKeeping(a);
    hide Effect, Apply;
    var s := FirstBurst(a);
    assert Swept(s).mem == AfterKeeping(a, []).mem;
    assert Do(Swept(s), KeepLog) == Swept(s).(phase := LogRemoved);
  }

  /** A burst and its swap, which cannot remove the log. */
  lemma KeepsLog(a: seq<Operation>)
    requires |Effect(a)| >= SWAP_SIZE
    ensures var steps := Writes(a) + SwapSteps() + [KeepLog] + [Finish];
            CanRun(Init(), steps) && Exec(Init(), steps) == AfterKeeping(a, [])
  {
    hide Effect, Apply, Enabled, Do, Burst, Init, Unversioned, FirstBurst, AfterKeeping, Exec, CanRun, Writes;
    hide SwapSteps, Swept;
    var s := FirstBurst(a);
    FirstBurstIsBurst(a);
    WriteBurst(Init(), a);
    KeepSteps(a);
    SwapUpToRemoval(s);
    RunAppend(Init(), Writes(a), SwapSteps());
    Then(Init(), Writes(a) + SwapSteps(), Swept(s), KeepLog, Do(Swept(s), KeepLog));
    Then(Init(), Writes(a) + SwapSteps() + [KeepLog], Do(Swept(s), KeepLog), Finish, AfterKeeping(a, []));
  }

  lemma BuffersAfterKeeping(a: seq<Operation>)
    ensures var m := FirstBurst(a).mem.SwitchWriter().Exchange().Renew();
            m.Valid() && m == AfterKeeping(a, []).mem
  {
    assert Effect([]) == map[];
  }

  lemma BurstAfterKeeping(a: seq<Operation>, b: seq<Operation>)
    requires forall key :: key in Effect(a) ==> Effect(a)[key].version == 0
    ensures AfterKeeping(a, []).mem.Valid() && Unversioned(AfterKeeping(a, []).tables)
    ensures Burst(AfterKeeping(a, []), b) == AfterKeeping(a, b)
  {
    assert Effect([]) == map[] && [] + b == b;
    FlattenOne(Effect(a));
    assert Burst(AfterKeeping(a, []), b).mem == AfterKeeping(a, b).mem;
  }

  /** The engine when the next swap, on which nothing fails, has listed its table and removed a log. */
  function AfterStale(a: seq<Operation>, b: seq<Operation>): State {
    State(AfterKeeping(a, b).mem.SwitchWriter().Exchange().Renew(), [Effect(a), Effect(b)], [Effect(a), Effect(b)],
          [a], [], LogRemoved, true)
  }

  lemma StaleSteps(a: seq<Operation>, b: seq<Operation>)
    requires |Effect(b)| >= SWAP_SIZE
    ensures var s := AfterKeeping(a, b);
            && s.mem.Valid() && s.phase.Idle? && SWAP_SIZE <= |s.mem.buf[s.mem.writer]| && s.mem.first != s.mem.second
            && Enabled(Swept(s), RemoveLog) && Do(Swept(s), RemoveLog) == AfterStale(a, b)
  {
    hide Effect, Apply;
    var s := AfterKeeping(a, b);
    assert s.mem.Valid() && Swept(s).mem.Valid();
    assert Swept(s).listed == Swept(s).tables == [Effect(a), Effect(b)];
    assert Swept(s).oldLogs == [a, b] && [a, b][..1] == [a];
  }

  lemma RemovesNewer(a: seq<Operation>, b: seq<Operation>)
    requires |Effect(a)| >= SWAP_SIZE && |Effect(b)| >= SWAP_SIZE
    requires forall key :: key in Effect(a) ==> Effect(a)[key].version == 0
    ensures var steps := Writes(a) + SwapSteps() + [KeepLog] + [Finish] + Writes(b) + SwapSteps() + [RemoveLog];
            CanRun(Init(), steps) && Exec(Init(), steps) == AfterStale(a, b)
  {
    hide Effect, Apply, Enabled, Do, Burst, Init, Unversioned, AfterKeeping, AfterStale, Exec, CanRun, Writes;
    hide SwapSteps, Swept;
    var kept := Writes(a) + SwapSteps() + [KeepLog] + [Finish];
    KeepsLog(a);
    BurstAfterKeeping(a, b);
    WriteBurst(AfterKeeping(a, []), b);
    RunAppend(Init(), kept, Writes(b));
    StaleSteps(a, b);
    SwapUpToRemoval(AfterKeeping(a, b));
    RunAppend(Init(), kept + Writes(b), SwapSteps());
    Then(Init(), kept + Writes(b) + SwapSteps(), Swept(AfterKeeping(a, b)), RemoveLog, AfterStale(a, b));
  }

  /**
   A log whose removal fails without notice. The next swap, on which nothing fails, removes the newer log; a
   restart then replays the older one over the table with the newer values. The key [0] was rewritten, and the
   files hold its old value.
   */
  lemma KeptLogGoesStale()
    ensures var steps := Writes(Batch(0)) + SwapSteps() + [KeepLog] + [Finish]
                         + Writes(Rewrite()) + SwapSteps() + [RemoveLog];
            && CanRun(Init(), steps)
            && var s := Exec(Init(), steps);
               && s.mem.Valid() && [0] in s.Logical() && s.Logical()[[0]] == Value(Some([1]), 0)
               && [0] in s.Durable() && s.Durable()[[0]] == Value(Some([]), 0)
  {
    hide Effect, Enabled, Do, Init, AfterStale, Exec, CanRun, Writes, SwapSteps, State.Logical, State.Durable;
    RewrittenValues(Batch(0), Rewrite());
    RemovesNewer(Batch(0), Rewrite());
    StaleMaps(Batch(0), Rewrite());
  }

  lemma RewrittenValues(a: seq<Operation>, b: seq<Operation>)
    requires a == Batch(0) && b == Rewrite()
    ensures |Effect(a)| == 5 && |Effect(b)| == 5
    ensures [0] in Effect(a) && Effect(a)[[0]] == Value(Some([]), 0)
    ensures [0] in Effect(b) && Effect(b)[[0]] == Value(Some([1]), 0)
    ensures forall key :: key in Effect(a) ==> Effect(a)[key].version == 0
  {
    EffectOfDistinct(a);
    EffectOfDistinct(b);
    EffectValues(a);
    EffectValues(b);
    hide Effect;
    assert a[0].key == [0] && b[0].key == [0];
  }

  lemma {:induction false} EffectValues(ops: seq<Operation>)
    requires forall i, j :: 0 <= i < j < |ops| ==> ops[i].key != ops[j].key
    ensures forall i :: 0 <= i < |ops| ==> ops[i].key in Effect(ops) && Effect(ops)[ops[i].key] == ops[i].Binding()
  {
    if ops != [] {
      EffectValues(ops[..|ops| - 1]);
    }
  }

  lemma StaleMaps(a: seq<Operation>, b: seq<Operation>)
    requires [0] in Effect(a) && Effect(a)[[0]] == Value(Some([]), 0)
    requires [0] in Effect(b) && Effect(b)[[0]] == Value(Some([1]), 0)
    ensures var s := AfterStale(a, b);
            && s.mem.Valid() && [0] in s.Logical() && s.Logical()[[0]] == Value(Some([1]), 0)
            && [0] in s.Durable() && s.Durable()[[0]] == Value(Some([]), 0)
  {
    var s := AfterStale(a, b);
    assert s.Logs() == [a, []];
    ConcatTwo(a, []);
    FlattenSnoc([Effect(a)], Effect(b));
    FlattenOne(Effect(a));
    assert Effect([]) == map[];
    hide Flatten, Concat, Effect;
    assert s.mem.Contents() == map[];
  }
}
