/** The version counter: `fetch_add` against a load and compare-and-swap loop, in any interleaving. */
module Versions {
  import opened Wrappers

  /** A call of `UpdateMaxVersion` in progress: before its load, or between the load and the swap. */
  datatype Call = Loading(version: nat) | Comparing(version: nat, seen: nat)

  /** `generated` are the versions handed out, in order, `finished` the versions whose update has returned. */
  datatype State = State(current: nat, calls: map<nat, Call>, generated: seq<nat>, finished: set<nat>)

  /** `CompareAndSwap` may fail spuriously. */
  datatype Step =
    | Generate
    | Begin(call: nat, version: nat)
    | Load(call: nat)
    | CompareAndSwap(call: nat, spurious: bool)

  function Init(start: nat): State {
    State(start, map[], [], {})
  }

  predicate Enabled(s: State, step: Step) {
    match step
    case Generate => true
    case Begin(call, _) => call !in s.calls
    case Load(call) => call in s.calls && s.calls[call].Loading?
    case CompareAndSwap(call, _) => call in s.calls && s.calls[call].Comparing?
  }

  predicate Swaps(s: State, step: Step)
    requires Enabled(s, step)
  {
    step.CompareAndSwap? && !step.spurious && s.current == s.calls[step.call].seen
  }

  function Do(s: State, step: Step): State
    requires Enabled(s, step)
  {
    match step
    case Generate => s.(current := s.current + 1, generated := s.generated + [s.current])
    case Begin(call, version) => s.(calls := s.calls[call := Loading(version)])
    case Load(call) =>
      var version := s.calls[call].version;
      if s.current > version then
        s.(calls := s.calls - {call}, finished := s.finished + {version})
      else
        s.(calls := s.calls[call := Comparing(version, s.current)])
    case CompareAndSwap(call, _) =>
      var version := s.calls[call].version;
      if Swaps(s, step) then
        s.(current := version, calls := s.calls - {call}, finished := s.finished + {version})
      else
        s.(calls := s.calls[call := Loading(version)])
  }

  /** What a call has seen is not above its own version, nor above the counter. */
  ghost predicate Inv(s: State) {
    && (forall c :: c in s.calls && s.calls[c].Comparing? ==>
          s.calls[c].seen <= s.calls[c].version && s.calls[c].seen <= s.current)
    && (forall v :: v in s.finished ==> v <= s.current)
    && (forall i, j :: 0 <= i < j < |s.generated| ==> s.generated[i] < s.generated[j])
    && (forall i :: 0 <= i < |s.generated| ==> s.generated[i] < s.current)
  }

  /** How far the counter may still move before the call returns at its next load. */
  function Measure(s: State, version: nat): int {
    version + 1 - s.current
  }

  /** One step: the counter never decreases, and a swap that fails without being spurious has been overtaken. */
  lemma StepIsMonotone(s: State, step: Step)
    requires Inv(s) && Enabled(s, step)
    ensures Inv(Do(s, step)) && s.current <= Do(s, step).current
    ensures s.generated <= Do(s, step).generated && s.finished <= Do(s, step).finished
    ensures step.CompareAndSwap? && !step.spurious && !Swaps(s, step) ==>
              Measure(s, s.calls[step.call].version) < s.calls[step.call].version + 1 - s.calls[step.call].seen
  {
  }

  ghost predicate CanRun(s: State, steps: seq<Step>)
    decreases |steps|
  {
    steps == [] || (Enabled(s, steps[0]) && CanRun(Do(s, steps[0]), steps[1..]))
  }

  ghost function Exec(s: State, steps: seq<Step>): State
    requires CanRun(s, steps)
    decreases |steps|
  {
    if steps == [] then s else Exec(Do(s, steps[0]), steps[1..])
  }

  /**
   In every interleaving the counter never decreases, and the versions handed out strictly increase, so no
   two are equal; those handed out during the run are at least every version whose update had returned
   before it.
   */
  lemma {:induction false} GeneratedVersionsIncrease(s: State, steps: seq<Step>)
    requires Inv(s) && CanRun(s, steps)
    ensures var t := Exec(s, steps);
            && Inv(t) && s.current <= t.current && s.generated <= t.generated && s.finished <= t.finished
            && forall i, v :: |s.generated| <= i < |t.generated| && v in s.finished ==> v <= t.generated[i]
    decreases |steps|
  {
    if steps != [] {
      var next := Do(s, steps[0]);
      StepIsMonotone(s, steps[0]);
      hide Enabled, Do;
      GeneratedVersionsIncrease(next, steps[1..]);
      var t := Exec(s, steps);
      forall i, v | |s.generated| <= i < |t.generated| && v in s.finished
        ensures v <= t.generated[i]
      {
        if i < |next.generated| {
          assert t.generated[i] == next.generated[i];
          GeneratedFromCounter(s, steps[0], i);
        }
      }
    }
  }

  lemma GeneratedFromCounter(s: State, step: Step, i: nat)
    requires Enabled(s, step) && |s.generated| <= i < |Do(s, step).generated|
    ensures Do(s, step).generated[i] == s.current
  {
  }

  // ---------------------------------------------------------------- when the next version repeats one

  /** What last changed the counter: a swap that stored a version, or the generation of one. */
  datatype Change = Unchanged | Stored(version: nat) | Generated

  function ChangeAfter(s: State, step: Step, last: Change): Change
    requires Enabled(s, step)
  {
    if step.Generate? then Generated
    else if Swaps(s, step) then Stored(s.calls[step.call].version)
    else last
  }

  function LastChange(s: State, steps: seq<Step>, last: Change): Change
    requires CanRun(s, steps)
    decreases |steps|
  {
    if steps == [] then
      last
    else
      LastChange(Do(s, steps[0]), steps[1..], ChangeAfter(s, steps[0], last))
  }

  /** What is known of a version whose update began in the run, once it has returned. */
  ghost predicate Tracks(s: State, version: nat, last: Change) {
    && (version in s.finished ==> (s.current == version <==> last == Stored(version)))
    && (last.Stored? ==> last.version == s.current)
  }

  lemma StepKeepsTracks(s: State, step: Step, version: nat, last: Change)
    requires Inv(s) && Enabled(s, step) && Tracks(s, version, last)
    ensures Inv(Do(s, step))
    ensures Tracks(Do(s, step), version, ChangeAfter(s, step, last))
  {
  }

  lemma {:induction false} RunKeepsTracks(s: State, steps: seq<Step>, version: nat, last: Change)
    requires Inv(s) && CanRun(s, steps) && Tracks(s, version, last)
    ensures Inv(Exec(s, steps)) && Tracks(Exec(s, steps), version, LastChange(s, steps, last))
    decreases |steps|
  {
    hide Inv, Tracks, Do, Enabled, ChangeAfter;
    if steps != [] {
      StepKeepsTracks(s, steps[0], version, last);
      RunKeepsTracks(Do(s, steps[0]), steps[1..], version, ChangeAfter(s, steps[0], last));
    }
  }

  /**
   In any interleaving, after the update of a version has returned, the next version generated is that same one
   exactly when the last change of the counter was a swap that stored it; otherwise it is strictly above.
   */
  lemma NextRepeatsExactly(s: State, steps: seq<Step>, version: nat)
    requires Inv(s) && CanRun(s, steps) && version !in s.finished && version in Exec(s, steps).finished
    ensures var t := Exec(s, steps);
            var next := Do(t, Generate).generated[|t.generated|];
            && next >= version
            && (next == version <==> LastChange(s, steps, Unchanged) == Stored(version))
  {
    RunKeepsTracks(s, steps, version, Unchanged);
    hide CanRun, LastChange, Exec;
  }

  /** While the call is in flight nobody else raises the counter: no version is generated, no other call swaps. */
  ghost predicate Undisturbed(s: State, steps: seq<Step>, call: nat)
    requires CanRun(s, steps)
    decreases |steps|
  {
    steps == [] ||
      (&& !steps[0].Generate? && !(steps[0].Begin? && steps[0].call == call)
       && (Swaps(s, steps[0]) ==> steps[0].call == call)
       && Undisturbed(Do(s, steps[0]), steps[1..], call))
  }

  /** The larger of the counter when the update began and the version; the guard of the loop decides. */
  function Raised(current: nat, version: nat): nat {
    if current > version then current else version
  }

  /** An undisturbed call has done nothing yet, or has returned and left the larger value. */
  ghost predicate OnItsOwn(s: State, call: nat, version: nat, began: nat) {
    if call in s.calls then
      s.calls[call].version == version && s.current == began
    else
      s.current == Raised(began, version)
  }

  lemma {:induction false} UndisturbedRun(s: State, steps: seq<Step>, call: nat, version: nat, began: nat)
    requires Inv(s) && CanRun(s, steps) && Undisturbed(s, steps, call) && OnItsOwn(s, call, version, began)
    ensures OnItsOwn(Exec(s, steps), call, version, began)
    decreases |steps|
  {
    if steps != [] {
      StepIsMonotone(s, steps[0]);
      UndisturbedStep(s, steps[0], call, version, began);
      hide Inv, OnItsOwn, Do, Enabled, Swaps;
      UndisturbedRun(Do(s, steps[0]), steps[1..], call, version, began);
    }
  }

  lemma UndisturbedStep(s: State, step: Step, call: nat, version: nat, began: nat)
    requires Inv(s) && Enabled(s, step) && OnItsOwn(s, call, version, began)
    requires !step.Generate? && !(step.Begin? && step.call == call) && (Swaps(s, step) ==> step.call == call)
    ensures OnItsOwn(Do(s, step), call, version, began)
  {
  }

  /**
   An update that nobody disturbs, seen from before it began: the next version is strictly above the updated one
   exactly when the counter already was, and otherwise it is that very version.
   */
  lemma UndisturbedUpdate(s: State, call: nat, version: nat, steps: seq<Step>)
    requires Inv(s) && call !in s.calls
    requires var begun := Do(s, Begin(call, version)); CanRun(begun, steps) && Undisturbed(begun, steps, call)
    requires call !in Exec(Do(s, Begin(call, version)), steps).calls
    ensures var t := Exec(Do(s, Begin(call, version)), steps);
            var next := Do(t, Generate).generated[|t.generated|];
            && (next > version <==> s.current > version)
            && (s.current <= version ==> next == version)
  {
    var begun := Do(s, Begin(call, version));
    StepIsMonotone(s, Begin(call, version));
    UndisturbedRun(begun, steps, call, version, s.current);
    hide CanRun, Exec, Undisturbed;
  }

  lemma UpdateThenGenerateCanRepeat(version: nat) returns (steps: seq<Step>)
    ensures CanRun(Init(version), steps)
    ensures version in Exec(Init(version), steps).finished && Exec(Init(version), steps).generated == [version]
  {
    var s0 := Init(version);
    var s1 := Do(s0, Begin(0, version));
    var s2 := Do(s1, Load(0));
    var s3 := Do(s2, CompareAndSwap(0, false));
    steps := [Begin(0, version), Load(0), CompareAndSwap(0, false), Generate];
    assert steps[1..] == [Load(0), CompareAndSwap(0, false), Generate];
    assert steps[1..][1..] == [CompareAndSwap(0, false), Generate];
    assert steps[1..][1..][1..] == [Generate] && [Generate][1..] == [];
    assert CanRun(s3, [Generate]) && CanRun(s2, steps[1..][1..]) && CanRun(s1, steps[1..]);
    assert Exec(s3, [Generate]) == Do(s3, Generate);
    assert Exec(s2, steps[1..][1..]) == Do(s3, Generate);
  }

  // ---------------------------------------------------------------- the counter as an object

  lemma {:induction false} RunAppend(s: State, a: seq<Step>, b: seq<Step>)
    requires CanRun(s, a) && CanRun(Exec(s, a), b)
    ensures CanRun(s, a + b) && Exec(s, a + b) == Exec(Exec(s, a), b)
    decreases |a|
  {
    hide Enabled, Do;
    if a == [] {
      assert a + b == b;
    } else {
      assert (a + b)[1..] == a[1..] + b;
      RunAppend(Do(s, a[0]), a[1..], b);
    }
  }

  lemma RunOneMore(s: State, steps: seq<Step>, step: Step)
    requires CanRun(s, steps) && Enabled(Exec(s, steps), step)
    ensures CanRun(s, steps + [step]) && Exec(s, steps + [step]) == Do(Exec(s, steps), step)
  {
    hide Enabled, Do;
    var t := Exec(s, steps);
    assert [step][1..] == [];
    assert CanRun(Do(t, step), [step][1..]);
    RunAppend(s, steps, [step]);
  }

  function Generates(n: nat): seq<Step> {
    seq(n, i => Generate)
  }

  /** `n` generations in a row hand out the next `n` numbers, each one above the last. */
  lemma {:induction false} GeneratesAreConsecutive(s: State, n: nat)
    ensures CanRun(s, Generates(n))
    ensures Exec(s, Generates(n)) ==
            s.(current := s.current + n, generated := s.generated + seq(n, i requires 0 <= i < n => s.current + i))
    decreases n
  {
    var steps := Generates(n);
    if n == 0 {
      assert s.generated + seq(n, i requires 0 <= i < n => s.current + i) == s.generated;
    } else {
      var m := s.(current := s.current + 1, generated := s.generated + [s.current]);
      assert Do(s, Generate) == m && steps[1..] == Generates(n - 1);
      GeneratesAreConsecutive(m, n - 1);
      assert s.generated + [s.current] + seq(n - 1, i requires 0 <= i < n - 1 => m.current + i) ==
             s.generated + seq(n, i requires 0 <= i < n => s.current + i);
    }
  }

  /** A run that began with the call, at whose end the call is about to load. */
  ghost predicate AboutToLoad(s: State, steps: seq<Step>, call: nat, version: nat, current: nat) {
    CanRun(s, steps) &&
    var t := Exec(s, steps);
    t.current == current && call in t.calls && t.calls[call] == Loading(version)
  }

  /** One attempt: the load, what others generate meanwhile, and the swap. */
  lemma Attempt(s: State, steps: seq<Step>, call: nat, version: nat, current: nat, others: nat, spurious: bool)
    returns (more: seq<Step>)
    requires AboutToLoad(s, steps, call, version, current) && current <= version
    ensures CanRun(s, more) && steps <= more
    ensures if others == 0 && !spurious then
              Exec(s, more).current == version && call !in Exec(s, more).calls && version in Exec(s, more).finished
            else
              AboutToLoad(s, more, call, version, current + others)
  {
    var t := Exec(s, steps);
    var loaded := Do(t, Load(call));
    RunOneMore(s, steps, Load(call));
    GeneratesAreConsecutive(loaded, others);
    RunAppend(s, steps + [Load(call)], Generates(others));
    var swap := CompareAndSwap(call, spurious);
    more := steps + [Load(call)] + Generates(others);
    assert Enabled(Exec(s, more), swap);
    RunOneMore(s, more, swap);
    more := more + [swap];
  }

  lemma LastLoad(s: State, steps: seq<Step>, call: nat, version: nat, current: nat) returns (more: seq<Step>)
    requires AboutToLoad(s, steps, call, version, current) && version < current
    ensures CanRun(s, more) && steps <= more
    ensures Exec(s, more).current == current && call !in Exec(s, more).calls && version in Exec(s, more).finished
  {
    RunOneMore(s, steps, Load(call));
    more := steps + [Load(call)];
  }

  class VersionNumberGenerator {
    var current: nat

    constructor (start: nat)
      ensures current == start
    {
      current := start;
    }

    /** `fetch_add(1)`: the step `Generate` of the machine, from any state with this counter. */
    method Generate() returns (version: nat)
      modifies this
      ensures version == old(current) && current == version + 1
      ensures forall s: State :: s.current == old(current) ==>
                Do(s, Step.Generate).current == current && Do(s, Step.Generate).generated == s.generated + [version]
    {
      version := current;
      current := current + 1;
    }

    /**
     `UpdateMaxVersion`. In attempt i, other threads generate `others[i]` versions between the load and the swap,
     and the swap fails spuriously when `spurious[i]` says so. The call is a run of the machine, from any state
     with this counter, at whose end it has returned.
     */
    method UpdateMaxVersion(version: nat, others: seq<nat>, spurious: seq<bool>, ghost s: State, ghost call: nat)
      returns (ghost steps: seq<Step>)
      requires |others| == |spurious|
      requires s.current == current && call !in s.calls
      modifies this
      ensures version <= current && old(current) <= current
      ensures CanRun(s, steps) && steps != [] && steps[0] == Begin(call, version)
      ensures Exec(s, steps).current == current && call !in Exec(s, steps).calls && version in Exec(s, steps).finished
      ensures (forall i :: 0 <= i < |others| ==> others[i] == 0) ==>
                current == if old(current) > version then old(current) else version
    {
      hide CanRun, Exec;
      var attempt := 0;
      steps := Begun(s, call, version);
      while true
        invariant attempt <= |others| && old(current) <= current
        invariant AboutToLoad(s, steps, call, version, current) && [Begin(call, version)] <= steps
        invariant (forall i :: 0 <= i < |others| ==> others[i] == 0) ==> current == old(current)
        decreases |others| - attempt
      {
        var seen := current;
        if seen > version {
          steps := LastLoad(s, steps, call, version, seen);
          return;
        }
        if attempt == |others| {
          steps := Attempt(s, steps, call, version, seen, 0, false);
          current := version;
          return;
        }
        steps := Attempt(s, steps, call, version, seen, others[attempt], spurious[attempt]);
        current := current + others[attempt];
        if current == seen && !spurious[attempt] {
          current := version;
          return;
        }
        attempt := attempt + 1;
      }
    }
  }

  lemma Begun(s: State, call: nat, version: nat) returns (steps: seq<Step>)
    requires call !in s.calls
    ensures steps == [Begin(call, version)] && AboutToLoad(s, steps, call, version, s.current)
  {
    steps := [Begin(call, version)];
    assert steps[1..] == [];
  }
}
