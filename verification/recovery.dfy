/** What recovery makes of the log files it visits, and when that is what the logs say. */
module Recovery {
  import opened Wrappers
  import opened Kv

  /** A log whose replay has more than `threshold` keys becomes a table; any other becomes the memory table. */
  predicate IsLarge(log: seq<Operation>, threshold: nat) {
    |Effect(log)| > threshold
  }

  /** The large logs, in the order in which they are visited. */
  function Larges(visited: seq<seq<Operation>>, threshold: nat): seq<seq<Operation>> {
    if visited == [] then
      []
    else
      var last := visited[|visited| - 1];
      Larges(visited[..|visited| - 1], threshold) + (if IsLarge(last, threshold) then [last] else [])
  }

  /** Each small log replaces the memory table and the log writer of the one before it. */
  function LastSmall(visited: seq<seq<Operation>>, threshold: nat): Option<seq<Operation>> {
    if visited == [] then
      None
    else
      var last := visited[|visited| - 1];
      if IsLarge(last, threshold) then LastSmall(visited[..|visited| - 1], threshold) else Some(last)
  }

  /** Which visit that is. */
  function KeptAt(visited: seq<seq<Operation>>, threshold: nat): (i: nat)
    requires LastSmall(visited, threshold).Some?
    ensures i < |visited|
  {
    var n := |visited| - 1;
    if IsLarge(visited[n], threshold) then KeptAt(visited[..n], threshold) else n
  }

  function Kept(visited: seq<seq<Operation>>, threshold: nat): seq<seq<Operation>> {
    var small := LastSmall(visited, threshold);
    if small.Some? then [small.value] else []
  }

  function Effects(logs: seq<seq<Operation>>): seq<Memory> {
    seq(|logs|, i requires 0 <= i < |logs| => Effect(logs[i]))
  }

  // ---------------------------------------------------------------- by the number of keys

  /** The visits of the logs that replay to more than `threshold` keys, in order. */
  ghost predicate AreLarge(visited: seq<seq<Operation>>, threshold: nat, at: seq<nat>) {
    && (forall j :: 0 <= j < |at| ==> at[j] < |visited|)
    && (forall j, l :: 0 <= j < l < |at| ==> at[j] < at[l])
    && (forall i :: 0 <= i < |visited| ==> (i in at <==> threshold < |Effect(visited[i])|))
  }

  /** The last visit of a log that replays to at most `threshold` keys. */
  ghost predicate IsLastSmall(visited: seq<seq<Operation>>, threshold: nat, i: nat) {
    && i < |visited| && |Effect(visited[i])| <= threshold
    && forall j :: i < j < |visited| ==> threshold < |Effect(visited[j])|
  }

  lemma OneMoreIsLarge(visited: seq<seq<Operation>>, threshold: nat, before: seq<nat>)
    requires visited != [] && AreLarge(visited[..|visited| - 1], threshold, before)
    ensures var n := |visited| - 1;
            AreLarge(visited, threshold, before + if threshold < |Effect(visited[n])| then [n] else [])
  {
    hide Effect;
    var n := |visited| - 1;
    var at := before + if threshold < |Effect(visited[n])| then [n] else [];
    forall i | 0 <= i < |visited|
      ensures i in at <==> threshold < |Effect(visited[i])|
    {
      if i < n {
        assert visited[..n][i] == visited[i];
      } else {
        assert n !in before;
      }
    }
  }

  /** Exactly the logs with more than `threshold` keys are large, each once and in the order of the visits. */
  lemma {:induction false} LargesExact(visited: seq<seq<Operation>>, threshold: nat) returns (at: seq<nat>)
    ensures AreLarge(visited, threshold, at)
    ensures |Larges(visited, threshold)| == |at|
    ensures forall j :: 0 <= j < |at| ==> Larges(visited, threshold)[j] == visited[at[j]]
  {
    hide Effect;
    if visited == [] {
      at := [];
    } else {
      var n := |visited| - 1;
      var before := LargesExact(visited[..n], threshold);
      OneMoreIsLarge(visited, threshold, before);
      assert forall j :: 0 <= j < |before| ==> before[j] < n;
      hide AreLarge;
      at := before + if threshold < |Effect(visited[n])| then [n] else [];
    }
  }

  /** The small log that is kept is the last one with at most `threshold` keys, and there is none if all have more. */
  lemma {:induction false} LastSmallExact(visited: seq<seq<Operation>>, threshold: nat)
    ensures LastSmall(visited, threshold).None? <==>
            forall i :: 0 <= i < |visited| ==> threshold < |Effect(visited[i])|
    ensures LastSmall(visited, threshold).Some? ==>
              var i := KeptAt(visited, threshold);
              IsLastSmall(visited, threshold, i) && LastSmall(visited, threshold) == Some(visited[i])
  {
    hide Effect;
    if visited != [] {
      var n := |visited| - 1;
      LastSmallExact(visited[..n], threshold);
      if IsLarge(visited[n], threshold) {
        LargeIsPassed(visited, threshold);
      }
    }
  }

  lemma LargeIsPassed(visited: seq<seq<Operation>>, threshold: nat)
    requires visited != [] && threshold < |Effect(visited[|visited| - 1])|
    ensures var before := visited[..|visited| - 1];
            && (forall i: nat :: IsLastSmall(before, threshold, i) ==> IsLastSmall(visited, threshold, i))
            && ((forall i :: 0 <= i < |before| ==> threshold < |Effect(before[i])|) <==>
                (forall i :: 0 <= i < |visited| ==> threshold < |Effect(visited[i])|))
  {
    hide Effect;
    var before := visited[..|visited| - 1];
    assert forall i :: 0 <= i < |before| ==> before[i] == visited[i];
  }

  // ---------------------------------------------------------------- the two maps

  /** The map a recovered engine answers from: the tables, the new tables, and the memory table. */
  function RecoveredMap(tables: seq<Memory>, visited: seq<seq<Operation>>, threshold: nat): Memory {
    var small := LastSmall(visited, threshold);
    Flatten(tables + Effects(Larges(visited, threshold))) + if small.Some? then Effect(small.value) else map[]
  }

  /** The map that the files hold: every log replayed, oldest first, over the tables. */
  function DurableMap(tables: seq<Memory>, logs: seq<seq<Operation>>): Memory {
    Flatten(tables) + Effect(Concat(logs))
  }

  lemma {:induction false} ConcatConcat(a: seq<seq<Operation>>, b: seq<seq<Operation>>)
    ensures Concat(a + b) == Concat(a) + Concat(b)
  {
    if b == [] {
      assert a + b == a;
    } else {
      var n := |b| - 1;
      ConcatConcat(a, b[..n]);
      assert (a + b)[..|a + b| - 1] == a + b[..n];
      ConcatIsAssociative(Concat(a), Concat(b[..n]), b[n]);
    }
  }

  lemma UnionIsAssociative(a: Memory, b: Memory, c: Memory)
    ensures a + b + c == a + (b + c)
  {
  }

  lemma {:induction false} FlattenEffects(logs: seq<seq<Operation>>)
    ensures Flatten(Effects(logs)) == Effect(Concat(logs))
  {
    if logs != [] {
      var n := |logs| - 1;
      FlattenEffects(logs[..n]);
      assert Effects(logs)[..n] == Effects(logs[..n]);
      EffectConcat(Concat(logs[..n]), logs[n]);
    }
  }

  /**
   Recovery always replays some logs over the tables: the large ones in the order visited, then the last
   small one. No condition is needed for this.
   */
  lemma RecoveryIsReplay(tables: seq<Memory>, visited: seq<seq<Operation>>, threshold: nat)
    ensures RecoveredMap(tables, visited, threshold) ==
            DurableMap(tables, Larges(visited, threshold) + Kept(visited, threshold))
  {
    var larges, small := Larges(visited, threshold), LastSmall(visited, threshold);
    FlattenConcat(tables, Effects(larges));
    FlattenEffects(larges);
    if small.Some? {
      ConcatSnoc(larges, small.value);
      EffectConcat(Concat(larges), small.value);
      UnionIsAssociative(Flatten(tables), Effect(Concat(larges)), Effect(small.value));
    } else {
      assert larges + [] == larges;
    }
  }

  // ---------------------------------------------------------------- a sufficient order

  /** `visit` names every log once; log 0 is the oldest. */
  ghost predicate IsDirectoryOrder(visit: seq<nat>, n: nat) {
    && (forall i :: 0 <= i < |visit| ==> visit[i] < n)
    && (forall i, j :: 0 <= i < j < |visit| ==> visit[i] != visit[j])
    && (forall k :: 0 <= k < n ==> k in visit)
  }

  function Visited(logs: seq<seq<Operation>>, visit: seq<nat>): seq<seq<Operation>>
    requires forall i :: 0 <= i < |visit| ==> visit[i] < |logs|
  {
    seq(|visit|, i requires 0 <= i < |visit| => logs[visit[i]])
  }

  /** The large logs are met oldest first. */
  ghost predicate OldestFirst(logs: seq<seq<Operation>>, visit: seq<nat>, threshold: nat)
    requires forall i :: 0 <= i < |visit| ==> visit[i] < |logs|
  {
    forall i, j ::
      0 <= i < j < |visit| && IsLarge(logs[visit[i]], threshold) && IsLarge(logs[visit[j]], threshold) ==>
        visit[i] < visit[j]
  }

  /**
   What recovery relies on: only the newest log may be small, and the large ones are met oldest first.
   Where the small one falls in the directory does not matter.
   */
  ghost predicate SafeOrder(logs: seq<seq<Operation>>, visit: seq<nat>, threshold: nat) {
    && IsDirectoryOrder(visit, |logs|)
    && (forall i :: 0 <= i < |logs| - 1 ==> IsLarge(logs[i], threshold))
    && OldestFirst(logs, visit, threshold)
  }

  function LargeIndices(logs: seq<seq<Operation>>, visit: seq<nat>, threshold: nat): seq<nat>
    requires forall i :: 0 <= i < |visit| ==> visit[i] < |logs|
  {
    if visit == [] then
      []
    else
      var last := visit[|visit| - 1];
      LargeIndices(logs, visit[..|visit| - 1], threshold) + (if IsLarge(logs[last], threshold) then [last] else [])
  }

  lemma {:induction false} LargeIndicesMembers(logs: seq<seq<Operation>>, visit: seq<nat>, threshold: nat)
    requires forall i :: 0 <= i < |visit| ==> visit[i] < |logs|
    ensures var ks := LargeIndices(logs, visit, threshold);
            forall k :: k in ks <==> k in visit && IsLarge(logs[k], threshold)
  {
    hide IsLarge;
    if visit != [] {
      var n := |visit| - 1;
      LargeIndicesMembers(logs, visit[..n], threshold);
      assert visit == visit[..n] + [visit[n]];
    }
  }

  lemma VisitedSnoc(logs: seq<seq<Operation>>, ks: seq<nat>, k: nat)
    requires (forall i :: 0 <= i < |ks| ==> ks[i] < |logs|) && k < |logs|
    ensures Visited(logs, ks + [k]) == Visited(logs, ks) + [logs[k]]
  {
  }

  lemma {:induction false} LargeIndicesAreLarges(logs: seq<seq<Operation>>, visit: seq<nat>, threshold: nat)
    requires forall i :: 0 <= i < |visit| ==> visit[i] < |logs|
    ensures var ks := LargeIndices(logs, visit, threshold);
            && (forall i :: 0 <= i < |ks| ==> ks[i] < |logs|)
            && Larges(Visited(logs, visit), threshold) == Visited(logs, ks)
            && (forall k :: k in ks <==> k in visit && IsLarge(logs[k], threshold))
  {
    hide IsLarge;
    LargeIndicesMembers(logs, visit, threshold);
    if visit == [] {
      assert Visited(logs, visit) == [];
    } else {
      var n := |visit| - 1;
      var visited := Visited(logs, visit);
      assert visited[..n] == Visited(logs, visit[..n]) && visited[n] == logs[visit[n]];
      hide Visited;
      LargeIndicesAreLarges(logs, visit[..n], threshold);
      LastIsLarge(visited, threshold);
      VisitedSnoc(logs, LargeIndices(logs, visit[..n], threshold), visit[n]);
      hide Larges;
    }
  }

  lemma LastIsLarge(visited: seq<seq<Operation>>, threshold: nat)
    requires visited != []
    ensures var n := |visited| - 1;
            Larges(visited, threshold) ==
            Larges(visited[..n], threshold) + if IsLarge(visited[n], threshold) then [visited[n]] else []
  {
  }

  lemma MetLater(logs: seq<seq<Operation>>, visit: seq<nat>, threshold: nat, n: nat, k: nat)
    requires forall i :: 0 <= i < |visit| ==> visit[i] < |logs|
    requires OldestFirst(logs, visit, threshold)
    requires n < |visit| && k in visit[..n] && IsLarge(logs[k], threshold) && IsLarge(logs[visit[n]], threshold)
    ensures k < visit[n]
  {
    hide IsLarge;
    var j :| 0 <= j < n && visit[j] == k;
  }

  lemma {:induction false} LargeIndicesAscend(logs: seq<seq<Operation>>, visit: seq<nat>, threshold: nat)
    requires forall i :: 0 <= i < |visit| ==> visit[i] < |logs|
    requires OldestFirst(logs, visit, threshold)
    ensures var ks := LargeIndices(logs, visit, threshold);
            forall i, j :: 0 <= i < j < |ks| ==> ks[i] < ks[j]
  {
    hide IsLarge, Larges, Visited;
    if visit != [] {
      var n := |visit| - 1;
      var before := LargeIndices(logs, visit[..n], threshold);
      LargeIndicesAscend(logs, visit[..n], threshold);
      LargeIndicesAreLarges(logs, visit[..n], threshold);
      forall i | 0 <= i < |before| && IsLarge(logs[visit[n]], threshold)
        ensures before[i] < visit[n]
      {
        assert before[i] in before;
        MetLater(logs, visit, threshold, n, before[i]);
      }
    }
  }

  lemma HasElement(ks: seq<nat>)
    ensures ks != [] ==> exists k: nat :: k in ks
  {
    if ks != [] {
      assert ks[0] in ks;
    }
  }

  /** An ascending list of exactly the numbers below `m` is 0, 1, ..., m - 1. */
  lemma {:induction false} AscendingIsCounting(ks: seq<nat>, m: nat)
    requires forall i, j :: 0 <= i < j < |ks| ==> ks[i] < ks[j]
    requires forall k: nat :: k in ks <==> k < m
    ensures |ks| == m && forall i :: 0 <= i < m ==> ks[i] == i
  {
    if m == 0 {
      HasElement(ks);
    } else {
      var n := |ks| - 1;
      assert m - 1 in ks && ks[n] in ks;
      forall k: nat
        ensures k in ks[..n] <==> k < m - 1
      {
        if k < m - 1 {
          assert k in ks;
          var i :| 0 <= i < |ks| && ks[i] == k;
          assert ks[..n][i] == k;
        }
      }
      AscendingIsCounting(ks[..n], m - 1);
    }
  }

  lemma {:induction false} LastSmallIsVisited(visited: seq<seq<Operation>>, threshold: nat)
    ensures LastSmall(visited, threshold).Some? ==>
              LastSmall(visited, threshold).value in visited && !IsLarge(LastSmall(visited, threshold).value, threshold)
    ensures LastSmall(visited, threshold).None? ==> forall i :: 0 <= i < |visited| ==> IsLarge(visited[i], threshold)
  {
    hide IsLarge;
    if visited != [] {
      LastSmallIsVisited(visited[..|visited| - 1], threshold);
    }
  }

  lemma KeptIsNewest(logs: seq<seq<Operation>>, visit: seq<nat>, threshold: nat)
    requires SafeOrder(logs, visit, threshold)
    ensures var small := LastSmall(Visited(logs, visit), threshold);
            if small.Some? then
              logs != [] && small.value == logs[|logs| - 1] && !IsLarge(small.value, threshold)
            else
              forall k :: 0 <= k < |logs| ==> IsLarge(logs[k], threshold)
  {
    hide IsLarge;
    var visited := Visited(logs, visit);
    LastSmallIsVisited(visited, threshold);
    var small := LastSmall(visited, threshold);
    if small.Some? {
      var i :| 0 <= i < |visited| && visited[i] == small.value;
      assert visit[i] == |logs| - 1;
    } else {
      forall k | 0 <= k < |logs|
        ensures IsLarge(logs[k], threshold)
      {
        assert k in visit;
        var i :| 0 <= i < |visit| && visit[i] == k;
        assert IsLarge(visited[i], threshold);
      }
    }
  }

  /** In a safe order, the large logs are met as number 0, 1, 2, ... */
  lemma LargeIndicesCount(logs: seq<seq<Operation>>, visit: seq<nat>, threshold: nat)
    requires SafeOrder(logs, visit, threshold)
    ensures var ks := LargeIndices(logs, visit, threshold);
            && |ks| == (if LastSmall(Visited(logs, visit), threshold).Some? then |logs| - 1 else |logs|)
            && forall i :: 0 <= i < |ks| ==> ks[i] == i
  {
    hide IsLarge, Larges, LargeIndices, LastSmall;
    LargeIndicesAreLarges(logs, visit, threshold);
    LargeIndicesAscend(logs, visit, threshold);
    KeptIsNewest(logs, visit, threshold);
    var m := if LastSmall(Visited(logs, visit), threshold).Some? then |logs| - 1 else |logs|;
    AscendingIsCounting(LargeIndices(logs, visit, threshold), m);
  }

  lemma {:induction false} LargeIndicesPrefix(logs: seq<seq<Operation>>, visit: seq<nat>, threshold: nat, k: nat)
    requires forall i :: 0 <= i < |visit| ==> visit[i] < |logs|
    requires k <= |visit|
    ensures LargeIndices(logs, visit[..k], threshold) <= LargeIndices(logs, visit, threshold)
  {
    hide IsLarge;
    if k == |visit| {
      assert visit[..k] == visit;
    } else {
      assert visit[..|visit| - 1][..k] == visit[..k];
      LargeIndicesPrefix(logs, visit[..|visit| - 1], threshold, k);
    }
  }

  /** After any part of a visit in a safe order, the large logs met so far are the oldest ones. */
  lemma FirstLarges(logs: seq<seq<Operation>>, visit: seq<nat>, threshold: nat, k: nat)
    requires SafeOrder(logs, visit, threshold) && k <= |visit|
    ensures var ks := LargeIndices(logs, visit[..k], threshold);
            && |ks| <= |logs| && (forall i :: 0 <= i < |ks| ==> ks[i] == i)
            && Larges(Visited(logs, visit)[..k], threshold) == logs[..|ks|]
  {
    hide IsLarge, Larges, LargeIndices, LastSmall;
    LargeIndicesCount(logs, visit, threshold);
    LargeIndicesPrefix(logs, visit, threshold, k);
    LargeIndicesAreLarges(logs, visit[..k], threshold);
    var ks := LargeIndices(logs, visit[..k], threshold);
    assert Visited(logs, visit)[..k] == Visited(logs, visit[..k]);
    assert Visited(logs, ks) == logs[..|ks|];
  }

  /** In a safe order, the logs that recovery replays are all the logs, oldest first. */
  lemma SafeOrderKeepsAll(logs: seq<seq<Operation>>, visit: seq<nat>, threshold: nat)
    requires SafeOrder(logs, visit, threshold)
    ensures var visited := Visited(logs, visit);
            Larges(visited, threshold) + Kept(visited, threshold) == logs
  {
    hide IsLarge, Larges, LargeIndices, LastSmall;
    var visited := Visited(logs, visit);
    var ks := LargeIndices(logs, visit, threshold);
    LargeIndicesAreLarges(logs, visit, threshold);
    LargeIndicesCount(logs, visit, threshold);
    KeptIsNewest(logs, visit, threshold);
    var m := |ks|;
    assert Visited(logs, ks) == logs[..m];
    assert logs[..m] + Kept(visited, threshold) == logs;
  }

  /** Recovery in a safe order rebuilds exactly the map that the files hold. */
  lemma RecoveryRebuilds(tables: seq<Memory>, logs: seq<seq<Operation>>, visit: seq<nat>, threshold: nat)
    requires SafeOrder(logs, visit, threshold)
    ensures RecoveredMap(tables, Visited(logs, visit), threshold) == DurableMap(tables, logs)
  {
    RecoveryIsReplay(tables, Visited(logs, visit), threshold);
    SafeOrderKeepsAll(logs, visit, threshold);
  }

  // ---------------------------------------------------------------- the exact condition

  lemma {:induction false} ConcatNames(logs: seq<seq<Operation>>, i: nat, key: Bytes)
    requires i < |logs| && key in Effect(logs[i])
    ensures key in Effect(Concat(logs))
  {
    var n := |logs| - 1;
    EffectConcat(Concat(logs[..n]), logs[n]);
    if i < n {
      ConcatNames(logs[..n], i, key);
    }
  }

  lemma {:induction false} NamedByOne(logs: seq<seq<Operation>>, key: Bytes)
    requires key in Effect(Concat(logs))
    ensures exists i :: 0 <= i < |logs| && key in Effect(logs[i])
  {
    if logs != [] {
      var n := |logs| - 1;
      EffectConcat(Concat(logs[..n]), logs[n]);
      if key !in Effect(logs[n]) {
        NamedByOne(logs[..n], key);
        var i :| 0 <= i < n && key in Effect(logs[..n][i]);
        assert key in Effect(logs[i]);
      }
    }
  }

  /** The logs that recovery replays, when it visits `logs` in the order `visit`. */
  function Replayed(logs: seq<seq<Operation>>, visit: seq<nat>, threshold: nat): seq<seq<Operation>>
    requires forall i :: 0 <= i < |visit| ==> visit[i] < |logs|
  {
    Larges(Visited(logs, visit), threshold) + Kept(Visited(logs, visit), threshold)
  }

  /**
   For one key, what recovery answers against what the logs say: when some log names the key, the newest
   such log must be the one whose entry wins among those replayed, or agree with it; and when none of
   those replayed names it, a table must already hold the entry.
   */
  predicate KeyRecovered(tables: seq<Memory>, logs: seq<seq<Operation>>, replayed: seq<seq<Operation>>, key: Bytes) {
    key in Effect(Concat(logs)) ==>
      if key in Effect(Concat(replayed)) then
        Effect(Concat(replayed))[key] == Effect(Concat(logs))[key]
      else
        Lookup(Flatten(tables), key) == Some(Effect(Concat(logs))[key])
  }

  lemma VisitedAreLogs(logs: seq<seq<Operation>>, visit: seq<nat>, log: seq<Operation>)
    requires (forall i :: 0 <= i < |visit| ==> visit[i] < |logs|) && log in Visited(logs, visit)
    ensures log in logs
  {
    var i :| 0 <= i < |visit| && Visited(logs, visit)[i] == log;
    assert log == logs[visit[i]];
  }

  lemma KeptAreVisited(visited: seq<seq<Operation>>, threshold: nat, log: seq<Operation>)
    requires log in Kept(visited, threshold)
    ensures log in visited
  {
    LastSmallIsVisited(visited, threshold);
    hide LastSmall, IsLarge;
  }

  lemma ReplayedAreLogs(logs: seq<seq<Operation>>, visit: seq<nat>, threshold: nat, log: seq<Operation>)
    requires forall i :: 0 <= i < |visit| ==> visit[i] < |logs|
    requires log in Replayed(logs, visit, threshold)
    ensures log in logs
  {
    hide Larges, LargeIndices, LastSmall, Kept, IsLarge, Visited;
    LargeIndicesAreLarges(logs, visit, threshold);
    if log in Larges(Visited(logs, visit), threshold) {
      VisitedAreLogs(logs, LargeIndices(logs, visit, threshold), log);
    } else {
      KeptAreVisited(Visited(logs, visit), threshold, log);
      VisitedAreLogs(logs, visit, log);
    }
  }

  /** Recovery is right, in any order and for any sizes, exactly when it is right for each logged key. */
  lemma RecoveryExact(tables: seq<Memory>, logs: seq<seq<Operation>>, visit: seq<nat>, threshold: nat)
    requires IsDirectoryOrder(visit, |logs|)
    ensures RecoveredMap(tables, Visited(logs, visit), threshold) == DurableMap(tables, logs)
       <==> forall key :: KeyRecovered(tables, logs, Replayed(logs, visit, threshold), key)
  {
    var replayed := Replayed(logs, visit, threshold);
    var base, rec, dur := Flatten(tables), Effect(Concat(replayed)), Effect(Concat(logs));
    RecoveryIsReplay(tables, Visited(logs, visit), threshold);
    forall key | key in rec
      ensures key in dur
    {
      NamedByOne(replayed, key);
      var i :| 0 <= i < |replayed| && key in Effect(replayed[i]);
      ReplayedAreLogs(logs, visit, threshold, replayed[i]);
      var j :| 0 <= j < |logs| && logs[j] == replayed[i];
      ConcatNames(logs, j, key);
    }
    if base + rec == base + dur {
      forall key | key in dur
        ensures KeyRecovered(tables, logs, replayed, key)
      {
        assert (base + rec)[key] == (base + dur)[key];
      }
    }
    if forall key :: KeyRecovered(tables, logs, replayed, key) {
      forall key
        ensures key in base + rec <==> key in base + dur
        ensures key in base + dur ==> (base + rec)[key] == (base + dur)[key]
      {
        assert KeyRecovered(tables, logs, replayed, key);
      }
    }
  }

  // ---------------------------------------------------------------- the exact order

  /** Only log `i` names the key, and no table holds its entry. */
  ghost predicate OwnKey(tables: seq<Memory>, logs: seq<seq<Operation>>, i: nat, key: Bytes)
    requires i < |logs|
  {
    && key in Effect(logs[i]) && Lookup(Flatten(tables), key) != Some(Effect(logs[i])[key])
    && forall k :: 0 <= k < |logs| && k != i ==> key !in Effect(logs[k])
  }

  /** Logs `i` and `j`, and no others, name the key, and they disagree on it. */
  ghost predicate SharedKey(logs: seq<seq<Operation>>, i: nat, j: nat, key: Bytes)
    requires i < |logs| && j < |logs|
  {
    && key in Effect(logs[i]) && key in Effect(logs[j]) && Effect(logs[i])[key] != Effect(logs[j])[key]
    && forall k :: 0 <= k < |logs| && k != i && k != j ==> key !in Effect(logs[k])
  }

  ghost predicate HasOwnKey(tables: seq<Memory>, logs: seq<seq<Operation>>, i: nat)
    requires i < |logs|
  {
    exists key :: OwnKey(tables, logs, i, key)
  }

  ghost predicate HasSharedKey(logs: seq<seq<Operation>>, i: nat, j: nat)
    requires i < |logs| && j < |logs|
  {
    exists key :: SharedKey(logs, i, j, key)
  }

  /** No log is redundant, and no two can be exchanged. */
  ghost predicate Distinguished(tables: seq<Memory>, logs: seq<seq<Operation>>) {
    && (forall i: nat :: i < |logs| ==> HasOwnKey(tables, logs, i))
    && (forall i: nat, j: nat :: i < j < |logs| ==> HasSharedKey(logs, i, j))
  }

  /** The number of the last small log that is visited. */
  function LastSmallIndex(logs: seq<seq<Operation>>, visit: seq<nat>, threshold: nat): Option<nat>
    requires forall i :: 0 <= i < |visit| ==> visit[i] < |logs|
  {
    if visit == [] then
      None
    else
      var last := visit[|visit| - 1];
      if IsLarge(logs[last], threshold) then LastSmallIndex(logs, visit[..|visit| - 1], threshold) else Some(last)
  }

  /** The numbers of the logs that recovery replays, in the order in which it does. */
  function ReplayedIndices(logs: seq<seq<Operation>>, visit: seq<nat>, threshold: nat): seq<nat>
    requires forall i :: 0 <= i < |visit| ==> visit[i] < |logs|
  {
    var small := LastSmallIndex(logs, visit, threshold);
    LargeIndices(logs, visit, threshold) + if small.Some? then [small.value] else []
  }

  lemma {:induction false} LastSmallIndexIsLastSmall(logs: seq<seq<Operation>>, visit: seq<nat>, threshold: nat)
    requires forall i :: 0 <= i < |visit| ==> visit[i] < |logs|
    ensures var small, index := LastSmall(Visited(logs, visit), threshold), LastSmallIndex(logs, visit, threshold);
            && (small.Some? <==> index.Some?)
            && (index.Some? ==> index.value < |logs| && index.value in visit && small.value == logs[index.value]
                                && !IsLarge(logs[index.value], threshold))
  {
    hide IsLarge;
    if visit == [] {
      assert Visited(logs, visit) == [];
    } else {
      var n := |visit| - 1;
      LastSmallIndexIsLastSmall(logs, visit[..n], threshold);
      var visited := Visited(logs, visit);
      assert visited[..n] == Visited(logs, visit[..n]) && visited[n] == logs[visit[n]];
      assert visit == visit[..n] + [visit[n]];
      hide Visited;
    }
  }

  lemma ReplayedIndicesAreReplayed(logs: seq<seq<Operation>>, visit: seq<nat>, threshold: nat)
    requires forall i :: 0 <= i < |visit| ==> visit[i] < |logs|
    ensures var r := ReplayedIndices(logs, visit, threshold);
            && (forall p :: 0 <= p < |r| ==> r[p] < |logs|)
            && Visited(logs, r) == Replayed(logs, visit, threshold)
  {
    LargeIndicesAreLarges(logs, visit, threshold);
    LastSmallIndexIsLastSmall(logs, visit, threshold);
    hide IsLarge, Larges, LargeIndices, LastSmall, LastSmallIndex;
    var ks, small := LargeIndices(logs, visit, threshold), LastSmallIndex(logs, visit, threshold);
    if small.Some? {
      VisitedSnoc(logs, ks, small.value);
    } else {
      AppendNothing(ks, []);
      AppendNothing(Larges(Visited(logs, visit), threshold), []);
    }
  }

  /** The last log that names a key decides it. */
  lemma {:induction false} LastNamer(logs: seq<seq<Operation>>, p: nat, key: Bytes)
    requires p < |logs| && key in Effect(logs[p])
    requires forall q :: p < q < |logs| ==> key !in Effect(logs[q])
    ensures key in Effect(Concat(logs)) && Effect(Concat(logs))[key] == Effect(logs[p])[key]
  {
    var n := |logs| - 1;
    EffectConcat(Concat(logs[..n]), logs[n]);
    hide Effect;
    if p < n {
      LastNamer(logs[..n], p, key);
    }
  }

  lemma {:induction false} LargeIndicesKeepOrder(logs: seq<seq<Operation>>, visit: seq<nat>, threshold: nat,
                                                 a: nat, b: nat) returns (p: nat, q: nat)
    requires forall i :: 0 <= i < |visit| ==> visit[i] < |logs|
    requires a < b < |visit| && IsLarge(logs[visit[a]], threshold) && IsLarge(logs[visit[b]], threshold)
    ensures var ks := LargeIndices(logs, visit, threshold);
            p < q < |ks| && ks[p] == visit[a] && ks[q] == visit[b]
  {
    hide IsLarge;
    var n := |visit| - 1;
    var before := LargeIndices(logs, visit[..n], threshold);
    if b < n {
      p, q := LargeIndicesKeepOrder(logs, visit[..n], threshold, a, b);
    } else {
      LargeIndicesMembers(logs, visit[..n], threshold);
      assert visit[..n][a] in visit[..n];
      assert visit[a] in before;
      p :| 0 <= p < |before| && before[p] == visit[a];
      q := |before|;
    }
  }

  /** When the recovered map is right, every log is replayed: none can do without its own key. */
  lemma EveryLogIsReplayed(tables: seq<Memory>, logs: seq<seq<Operation>>, r: seq<nat>, i: nat)
    requires (forall p :: 0 <= p < |r| ==> r[p] < |logs|) && i < |logs|
    requires forall key :: KeyRecovered(tables, logs, Visited(logs, r), key)
    requires HasOwnKey(tables, logs, i)
    ensures i in r
  {
    var key :| OwnKey(tables, logs, i, key);
    var replayed := Visited(logs, r);
    LastNamer(logs, i, key);
    assert KeyRecovered(tables, logs, replayed, key);
    hide Effect, Flatten;
    assert key in Effect(Concat(replayed));
    NamedByOne(replayed, key);
    var p :| 0 <= p < |replayed| && key in Effect(replayed[p]);
    assert r[p] == i;
  }

  /** When the recovered map is right, of two replayed logs the older one is replayed first. */
  lemma OlderIsReplayedFirst(tables: seq<Memory>, logs: seq<seq<Operation>>, r: seq<nat>, p: nat, q: nat)
    requires forall x :: 0 <= x < |r| ==> r[x] < |logs|
    requires forall x, y :: 0 <= x < y < |r| ==> r[x] != r[y]
    requires forall key :: KeyRecovered(tables, logs, Visited(logs, r), key)
    requires p < |r| && q < |r| && r[p] < r[q] && HasSharedKey(logs, r[p], r[q])
    ensures p < q
  {
    var key :| SharedKey(logs, r[p], r[q], key);
    var replayed := Visited(logs, r);
    LastNamer(logs, r[q], key);
    assert KeyRecovered(tables, logs, replayed, key);
    assert replayed[p] == logs[r[p]] && replayed[q] == logs[r[q]];
    hide Effect, Flatten, Concat;
    LastOfTwo(logs, r, p, q, key);
  }

  lemma LastOfTwo(logs: seq<seq<Operation>>, r: seq<nat>, p: nat, q: nat, key: Bytes)
    requires forall x :: 0 <= x < |r| ==> r[x] < |logs|
    requires forall x, y :: 0 <= x < y < |r| ==> r[x] != r[y]
    requires p < |r| && q < |r| && p != q && SharedKey(logs, r[p], r[q], key)
    ensures key in Effect(Concat(Visited(logs, r)))
    ensures Effect(Concat(Visited(logs, r)))[key] == Effect(logs[r[if p < q then q else p]])[key]
  {
    hide Effect, Concat;
    var replayed, last := Visited(logs, r), if p < q then q else p;
    forall x | last < x < |replayed|
      ensures key !in Effect(replayed[x])
    {
      assert r[x] != r[p] && r[x] != r[q];
    }
    LastNamer(replayed, last, key);
  }

  lemma NotMetBefore(visit: seq<nat>, n: nat, before: seq<nat>)
    requires n < |visit| && forall i, j :: 0 <= i < j < |visit| ==> visit[i] != visit[j]
    requires forall k :: k in before ==> k in visit[..n]
    ensures visit[n] !in before
  {
  }

  lemma {:induction false} LargeIndicesDistinct(logs: seq<seq<Operation>>, visit: seq<nat>, threshold: nat)
    requires forall i :: 0 <= i < |visit| ==> visit[i] < |logs|
    requires forall i, j :: 0 <= i < j < |visit| ==> visit[i] != visit[j]
    ensures var ks := LargeIndices(logs, visit, threshold); forall i, j :: 0 <= i < j < |ks| ==> ks[i] != ks[j]
  {
    hide IsLarge;
    if visit != [] {
      var n := |visit| - 1;
      LargeIndicesDistinct(logs, visit[..n], threshold);
      LargeIndicesMembers(logs, visit[..n], threshold);
      NotMetBefore(visit, n, LargeIndices(logs, visit[..n], threshold));
    }
  }

  lemma ReplayedIndicesDistinct(logs: seq<seq<Operation>>, visit: seq<nat>, threshold: nat)
    requires IsDirectoryOrder(visit, |logs|)
    ensures var r := ReplayedIndices(logs, visit, threshold); forall i, j :: 0 <= i < j < |r| ==> r[i] != r[j]
  {
    LargeIndicesDistinct(logs, visit, threshold);
    LargeIndicesMembers(logs, visit, threshold);
    LastSmallIndexIsLastSmall(logs, visit, threshold);
    hide IsLarge, LargeIndices, LastSmallIndex, LastSmall;
    var ks, small := LargeIndices(logs, visit, threshold), LastSmallIndex(logs, visit, threshold);
    forall i | 0 <= i < |ks| && small.Some?
      ensures ks[i] != small.value
    {
      assert ks[i] in ks;
    }
  }

  /** Everything replayed, and oldest first: then the order was safe. */
  lemma ReplayedInOrderIsSafe(logs: seq<seq<Operation>>, visit: seq<nat>, threshold: nat)
    requires IsDirectoryOrder(visit, |logs|)
    requires forall i: nat :: i < |logs| ==> i in ReplayedIndices(logs, visit, threshold)
    requires var r := ReplayedIndices(logs, visit, threshold);
             forall p: nat, q: nat :: p < |r| && q < |r| && r[p] < r[q] ==> p < q
    ensures SafeOrder(logs, visit, threshold)
  {
    var r, ks := ReplayedIndices(logs, visit, threshold), LargeIndices(logs, visit, threshold);
    LargeIndicesMembers(logs, visit, threshold);
    LastSmallIndexIsLastSmall(logs, visit, threshold);
    forall i | 0 <= i < |logs| - 1
      ensures IsLarge(logs[i], threshold)
    {
      assert i in r && |logs| - 1 in r;
      var p :| 0 <= p < |r| && r[p] == i;
      var q :| 0 <= q < |r| && r[q] == |logs| - 1;
      assert p < q && p < |ks| && r[p] == ks[p];
      assert ks[p] in ks;
    }
    forall a: nat, b: nat | a < b < |visit| && IsLarge(logs[visit[a]], threshold) && IsLarge(logs[visit[b]], threshold)
      ensures visit[a] < visit[b]
    {
      var p, q := LargeIndicesKeepOrder(logs, visit, threshold, a, b);
      assert r[p] == visit[a] && r[q] == visit[b];
    }
  }

  /**
   For logs of which none is redundant and no two can be exchanged, however many a series of failed swaps has
   left, recovery is right exactly in a safe order: only the newest log may be small, and the large ones must be
   met oldest first.
   */
  lemma SafeOrderExact(tables: seq<Memory>, logs: seq<seq<Operation>>, visit: seq<nat>, threshold: nat)
    requires IsDirectoryOrder(visit, |logs|) && Distinguished(tables, logs)
    ensures RecoveredMap(tables, Visited(logs, visit), threshold) == DurableMap(tables, logs)
       <==> SafeOrder(logs, visit, threshold)
  {
    if SafeOrder(logs, visit, threshold) {
      RecoveryRebuilds(tables, logs, visit, threshold);
    }
    if RecoveredMap(tables, Visited(logs, visit), threshold) == DurableMap(tables, logs) {
      RecoveryExact(tables, logs, visit, threshold);
      RightIsSafe(tables, logs, visit, threshold);
    }
  }

  lemma RightIsSafe(tables: seq<Memory>, logs: seq<seq<Operation>>, visit: seq<nat>, threshold: nat)
    requires IsDirectoryOrder(visit, |logs|) && Distinguished(tables, logs)
    requires forall key :: KeyRecovered(tables, logs, Replayed(logs, visit, threshold), key)
    ensures SafeOrder(logs, visit, threshold)
  {
    ReplayedIndicesAreReplayed(logs, visit, threshold);
    ReplayedIndicesDistinct(logs, visit, threshold);
    hide ReplayedIndices, Replayed, KeyRecovered, HasOwnKey, HasSharedKey, SafeOrder, Visited;
    var r := ReplayedIndices(logs, visit, threshold);
    forall i: nat | i < |logs|
      ensures i in r
    {
      EveryLogIsReplayed(tables, logs, r, i);
    }
    forall p: nat, q: nat | p < |r| && q < |r| && r[p] < r[q]
      ensures p < q
    {
      OlderIsReplayedFirst(tables, logs, r, p, q);
    }
    ReplayedInOrderIsSafe(logs, visit, threshold);
  }

  // ---------------------------------------------------------------- a crash in the middle of a swap

  function Swapped(a: seq<Operation>, b: seq<Operation>, inOrder: bool): seq<seq<Operation>> {
    if inOrder then [a, b] else [b, a]
  }

  lemma ReplayedOfTwo(first: seq<Operation>, second: seq<Operation>, threshold: nat)
    ensures Larges([first, second], threshold) + Kept([first, second], threshold) ==
            if IsLarge(first, threshold) then
              [first, second]
            else if IsLarge(second, threshold) then [second, first] else [second]
  {
    hide IsLarge;
    var both := [first, second];
    assert both[..1] == [first] && [first][..0] == [];
    assert Larges([first], threshold) == Larges([], threshold) + if IsLarge(first, threshold) then [first] else [];
    assert LastSmall([first], threshold) == if IsLarge(first, threshold) then None else Some(first);
  }

  lemma ConcatTwo(a: seq<Operation>, b: seq<Operation>)
    ensures Effect(Concat([a, b])) == Effect(a) + Effect(b)
    ensures Effect(Concat([a])) == Effect(a)
  {
    assert [a, b][..1] == [a] && [a][..0] == [];
    assert Concat([a]) == Concat([]) + a == a;
    assert Concat([a, b]) == Concat([a]) + b;
    EffectConcat(a, b);
  }

  /**
   A crash in the middle of a swap leaves two logs. When each holds something the other and the tables do
   not, and they disagree on some key, recovery is right exactly when the older one is large and, if the
   newer one is large too, the directory lists the older one first. Two small logs are never both kept.
   */
  lemma TwoLogsExact(tables: seq<Memory>, older: seq<Operation>, newer: seq<Operation>, inOrder: bool, threshold: nat,
                     olderKey: Bytes, newerKey: Bytes, sharedKey: Bytes)
    requires olderKey in Effect(older) && olderKey !in Effect(newer)
    requires newerKey in Effect(newer) && newerKey !in Effect(older)
    requires Lookup(Flatten(tables), olderKey) != Some(Effect(older)[olderKey])
    requires Lookup(Flatten(tables), newerKey) != Some(Effect(newer)[newerKey])
    requires sharedKey in Effect(older) && sharedKey in Effect(newer)
    requires Effect(older)[sharedKey] != Effect(newer)[sharedKey]
    ensures RecoveredMap(tables, Swapped(older, newer, inOrder), threshold) == DurableMap(tables, [older, newer])
       <==> IsLarge(older, threshold) && (IsLarge(newer, threshold) ==> inOrder)
  {
    var logs, visit := [older, newer], TwoVisits(inOrder);
    hide *;
    TwoInOrder(older, newer, inOrder, threshold);
    assert Distinguished(tables, logs) by {
      TwoDistinguished(tables, older, newer, olderKey, newerKey, sharedKey);
    }
    SafeOrderExact(tables, logs, visit, threshold);
  }

  function TwoVisits(inOrder: bool): seq<nat> {
    if inOrder then [0, 1] else [1, 0]
  }

  lemma TwoInOrder(older: seq<Operation>, newer: seq<Operation>, inOrder: bool, threshold: nat)
    ensures IsDirectoryOrder(TwoVisits(inOrder), |[older, newer]|)
    ensures Visited([older, newer], TwoVisits(inOrder)) == Swapped(older, newer, inOrder)
    ensures SafeOrder([older, newer], TwoVisits(inOrder), threshold)
       <==> IsLarge(older, threshold) && (IsLarge(newer, threshold) ==> inOrder)
  {
    hide IsLarge;
    var logs, visit := [older, newer], TwoVisits(inOrder);
    assert 0 in visit && 1 in visit;
    if SafeOrder(logs, visit, threshold) {
      assert IsLarge(logs[0], threshold);
      if IsLarge(newer, threshold) {
        assert IsLarge(logs[visit[0]], threshold) && IsLarge(logs[visit[1]], threshold);
      }
    }
  }

  lemma TwoDistinguished(tables: seq<Memory>, older: seq<Operation>, newer: seq<Operation>,
                         olderKey: Bytes, newerKey: Bytes, sharedKey: Bytes)
    requires olderKey in Effect(older) && olderKey !in Effect(newer)
    requires newerKey in Effect(newer) && newerKey !in Effect(older)
    requires Lookup(Flatten(tables), olderKey) != Some(Effect(older)[olderKey])
    requires Lookup(Flatten(tables), newerKey) != Some(Effect(newer)[newerKey])
    requires sharedKey in Effect(older) && sharedKey in Effect(newer)
    requires Effect(older)[sharedKey] != Effect(newer)[sharedKey]
    ensures Distinguished(tables, [older, newer])
  {
    hide Effect, Flatten;
    var logs := [older, newer];
    assert OwnKey(tables, logs, 0, olderKey) && OwnKey(tables, logs, 1, newerKey) && SharedKey(logs, 0, 1, sharedKey);
  }

  /** Two small logs: what only the one visited first names is forgotten, whichever of them is older. */
  lemma TwoSmallLogsLoseOne(tables: seq<Memory>, first: seq<Operation>, second: seq<Operation>, threshold: nat,
                            key: Bytes)
    requires !IsLarge(first, threshold) && !IsLarge(second, threshold)
    requires key in Effect(first) && key !in Effect(second) && key !in Flatten(tables)
    ensures key in DurableMap(tables, [first, second]) && key in DurableMap(tables, [second, first])
    ensures key !in RecoveredMap(tables, [first, second], threshold)
  {
    ConcatTwo(first, second);
    ConcatTwo(second, first);
    ReplayedOfTwo(first, second, threshold);
    RecoveryIsReplay(tables, [first, second], threshold);
    hide IsLarge, Effect, Larges, Kept, Flatten;
  }
}
