/** Runs that stop with an empty log, from which the program cannot start again. */
module EmptyLog {
  import opened Wrappers
  import opened Kv
  import opened Memtable
  import opened Recovery
  import opened Engine
  import opened FailedSwap

  /** No recovery is possible, in whatever order the directory lists the logs. */
  ghost predicate CannotStart(s: State) {
    forall visit, threshold :: !Enabled(s, Restart(visit, threshold))
  }

  lemma EmptyLogStopsAll(s: State, i: nat)
    requires i < |s.Logs()| && s.Logs()[i] == []
    ensures CannotStart(s)
  {
  }

  lemma RestartLog(s: State, step: Step)
    requires step.Restart? && Enabled(s, step)
    ensures Do(s, step).log == [] <==> IsLarge(s.Logs()[|s.Logs()| - 1], step.threshold)
  {
    var visited := Visited(s.Logs(), step.visit);
    KeptIsNewest(s.Logs(), step.visit, step.threshold);
    hide IsLarge, LastSmall, Larges, Effects, SafeOrder, Effect;
  }

  /** Exactly when the current log is empty after a step. */
  lemma EmptyAfterStep(s: State, step: Step)
    requires Enabled(s, step)
    ensures Do(s, step).log == [] <==>
            || step.SwapLog?
            || (step.Restart? && IsLarge(s.Logs()[|s.Logs()| - 1], step.threshold))
            || (!step.SwapLog? && !step.Restart? && !step.Write? && s.log == [])
  {
    if step.Restart? {
      RestartLog(s, step);
    }
    hide SafeOrder, Effect, Flatten, IsLarge;
  }

  /** Whether something has been written since the log was last swapped. */
  function WrittenSinceSwap(steps: seq<Step>, before: bool): bool {
    if steps == [] then
      before
    else
      WrittenSinceSwap(steps[1..], steps[0].Write? || (before && !steps[0].SwapLog?))
  }

  /** In a process that has not been restarted, the current log is empty exactly when nothing was written to it. */
  lemma {:induction false} EmptyExactly(s: State, steps: seq<Step>)
    requires CanRun(s, steps) && forall i :: 0 <= i < |steps| ==> !steps[i].Restart?
    ensures Exec(s, steps).log == [] <==> !WrittenSinceSwap(steps, s.log != [])
    ensures Exec(s, steps).log == [] ==> CannotStart(Exec(s, steps))
    decreases |steps|
  {
    var t := Exec(s, steps);
    if t.log == [] {
      EmptyLogStopsAll(t, |t.Logs()| - 1);
    }
    hide Enabled, Do, CannotStart;
    if steps != [] {
      EmptyAfterStep(s, steps[0]);
      EmptyExactly(Do(s, steps[0]), steps[1..]);
    }
  }

  /**
   A first start that is stopped before anything is written, and a process that stops right after the first
   statement of its first swap: neither can be started again, although the files of the second hold the writes.
   */
  lemma StopsThatCannotStart() returns (steps: seq<Step>)
    ensures CannotStart(Init())
    ensures CanRun(Init(), steps) && CannotStart(Exec(Init(), steps)) && [0] in Exec(Init(), steps).Durable()
  {
    EmptyLogStopsAll(Init(), 0);
    var a := Batch(0);
    EffectOfDistinct(a);
    assert a[0].key == [0];
    hide Effect, Enabled, Do, Burst, FirstBurst, CannotStart, Init, Exec, CanRun, Batch, Writes;
    FirstBurstIsBurst(a);
    WriteBurst(Init(), a);
    SwapAfterBurst(a, [0]);
    Then(Init(), Writes(a), FirstBurst(a), SwapLog, Do(FirstBurst(a), SwapLog));
    steps := Writes(a) + [SwapLog];
  }

  lemma SwapAfterBurst(a: seq<Operation>, key: Bytes)
    requires |Effect(a)| >= SWAP_SIZE && key in Effect(a)
    ensures Enabled(FirstBurst(a), SwapLog)
    ensures var t := Do(FirstBurst(a), SwapLog); CannotStart(t) && key in t.Durable()
  {
    hide Effect, Flatten, Concat, CannotStart;
    var t := FirstBurst(a).(oldLogs := [a], log := [], phase := LogSwapped);
    FirstBurstSwaps(a, t);
    hide Enabled, Do, FirstBurst;
    assert t.Logs() == [a, []];
    EmptyLogStopsAll(t, 1);
    ConcatTwo(a, []);
  }

  lemma FirstBurstSwaps(a: seq<Operation>, t: State)
    requires |Effect(a)| >= SWAP_SIZE
    requires t == FirstBurst(a).(oldLogs := [a], log := [], phase := LogSwapped)
    ensures Enabled(FirstBurst(a), SwapLog) && Do(FirstBurst(a), SwapLog) == t
  {
    hide Effect, Flatten, Concat;
  }
}
