/** What the wave sort of agents/react_loop.py achieves, for every batch of calls and every dependency map. */
module WaveTheory {
  import opened Dependencies
  import opened Waves

  // ---------------------------------------------------------------- partition and order

  lemma {:induction false} PlacedGrows(calls: seq<Call>, waves: seq<seq<nat>>, j: nat, k: nat)
    requires j <= k <= |waves|
    ensures Placed(calls, waves, j) <= Placed(calls, waves, k)
  {
    if j < k {
      PlacedGrows(calls, waves, j, k - 1);
    }
  }

  lemma {:induction false} PlacedByAWave(calls: seq<Call>, waves: seq<seq<nat>>, k: nat, name: string) returns (j: nat)
    requires k <= |waves| && name in Placed(calls, waves, k)
    ensures j < k && name in NamesIn(calls, waves[j])
  {
    if name in NamesIn(calls, waves[k - 1]) {
      j := k - 1;
    } else {
      j := PlacedByAWave(calls, waves, k - 1, name);
    }
  }

  /** Call `i` is in wave `k`. */
  ghost predicate InWave(waves: seq<seq<nat>>, k: nat, i: nat) {
    k < |waves| && i in waves[k]
  }

  ghost predicate HasWave(waves: seq<seq<nat>>, i: nat) {
    exists k: nat :: InWave(waves, k, i)
  }

  lemma EveryCallHasAWave(calls: seq<Call>, deps: Deps, waves: seq<seq<nat>>, i: nat) returns (k: nat)
    requires IsWaveSort(calls, deps, waves) && i < |calls|
    ensures InWave(waves, k, i)
  {
    assert calls[i] in calls;
    k := PlacedByAWave(calls, waves, |waves|, calls[i].name);
    assert IsWave(calls, deps, Placed(calls, waves, k), waves[k]);
    CallsOfOneNameShareAWave(calls, deps, Placed(calls, waves, k), waves[k]);
  }

  lemma WavesAreDisjoint(calls: seq<Call>, deps: Deps, waves: seq<seq<nat>>, j: nat, k: nat, i: nat)
    requires IsWaveSort(calls, deps, waves) && j < k && InWave(waves, j, i)
    ensures !InWave(waves, k, i)
  {
    if InWave(waves, k, i) {
      assert IsWave(calls, deps, Placed(calls, waves, k), waves[k]);
      assert calls[i].name in Placed(calls, waves, j + 1);
      PlacedGrows(calls, waves, j + 1, k);
    }
  }

  /** The waves partition the batch: every call is in exactly one wave, once, and each wave keeps the call order. */
  lemma WavesPartitionCalls(calls: seq<Call>, deps: Deps, waves: seq<seq<nat>>)
    requires IsWaveSort(calls, deps, waves)
    ensures forall i: nat :: i < |calls| ==> HasWave(waves, i)
    ensures forall j: nat, k: nat, i: nat :: InWave(waves, j, i) && InWave(waves, k, i) ==> j == k && i < |calls|
    ensures forall k :: 0 <= k < |waves| ==> Ascending(waves[k]) && waves[k] != []
  {
    forall i: nat | i < |calls|
      ensures HasWave(waves, i)
    {
      var k := EveryCallHasAWave(calls, deps, waves, i);
    }
    forall j: nat, k: nat, i: nat | InWave(waves, j, i) && InWave(waves, k, i)
      ensures j == k && i < |calls|
    {
      assert IsWave(calls, deps, Placed(calls, waves, j), waves[j]);
      if j < k {
        WavesAreDisjoint(calls, deps, waves, j, k, i);
      } else if k < j {
        WavesAreDisjoint(calls, deps, waves, k, j, i);
      }
    }
    forall k | 0 <= k < |waves|
      ensures Ascending(waves[k]) && waves[k] != []
    {
      assert IsWave(calls, deps, Placed(calls, waves, k), waves[k]);
    }
  }

  /** Outside the fallback wave, every called dependency of a call sits in a strictly earlier wave. */
  lemma DependenciesComeFirst(calls: seq<Call>, deps: Deps, waves: seq<seq<nat>>, k: nat, i: nat, d: nat)
    requires IsWaveSort(calls, deps, waves) && InWave(waves, k, i)
    requires !IsFallback(calls, deps, waves, k)
    requires i < |calls| && d < |calls| && calls[d].name in DepsOf(deps, calls[i].name)
    ensures exists j :: 0 <= j < k && InWave(waves, j, d)
  {
    assert calls[d] in calls;
    WaveCallsAreReady(calls, deps, waves, k, i);
    var j := PlacedByAWave(calls, waves, k, calls[d].name);
    assert IsWave(calls, deps, Placed(calls, waves, j), waves[j]);
    CallsOfOneNameShareAWave(calls, deps, Placed(calls, waves, j), waves[j]);
    assert InWave(waves, j, d);
  }

  lemma WaveCallsAreReady(calls: seq<Call>, deps: Deps, waves: seq<seq<nat>>, k: nat, i: nat)
    requires IsWaveSort(calls, deps, waves) && InWave(waves, k, i)
    requires !IsFallback(calls, deps, waves, k)
    ensures i < |calls| && Ready(Names(calls), deps, Placed(calls, waves, k), calls[i].name)
  {
    assert IsWave(calls, deps, Placed(calls, waves, k), waves[k]);
  }

  // ---------------------------------------------------------------- the fallback branch

  lemma FallbackPlacesTheRest(calls: seq<Call>, deps: Deps, waves: seq<seq<nat>>, k: nat)
    requires IsWaveSort(calls, deps, waves) && k < |waves| && IsFallback(calls, deps, waves, k)
    ensures Names(calls) <= Placed(calls, waves, k + 1)
  {
    assert IsWave(calls, deps, Placed(calls, waves, k), waves[k]);
    forall n | n in Names(calls) && n !in Placed(calls, waves, k)
      ensures n in NamesIn(calls, waves[k])
    {
      var i: nat :| i < |calls| && calls[i].name == n;
      assert i in waves[k];
    }
  }

  lemma AWaveNeedsPendingCalls(calls: seq<Call>, deps: Deps, waves: seq<seq<nat>>, k: nat)
    requires IsWaveSort(calls, deps, waves) && k < |waves|
    ensures !(Names(calls) <= Placed(calls, waves, k))
  {
    assert IsWave(calls, deps, Placed(calls, waves, k), waves[k]);
    var i := waves[k][0];
    assert i in waves[k] && calls[i] in calls;
  }

  /** The fallback places everything that is left, so it fires at most once and yields the last wave. */
  lemma FallbackIsLast(calls: seq<Call>, deps: Deps, waves: seq<seq<nat>>, k: nat)
    requires IsWaveSort(calls, deps, waves) && k < |waves| && IsFallback(calls, deps, waves, k)
    ensures k == |waves| - 1
  {
    FallbackPlacesTheRest(calls, deps, waves, k);
    if k + 1 < |waves| {
      AWaveNeedsPendingCalls(calls, deps, waves, k + 1);
    }
  }

  /** A name on a cycle waits for another name on the cycle. */
  lemma CycleNameWaits(called: set<string>, deps: Deps, p: seq<string>, placed: set<string>, x: string)
    requires IsCycle(called, deps, p) && x in p
    requires forall y :: y in p ==> y !in placed
    ensures !Ready(called, deps, placed, x)
  {
    var i :| 0 <= i < |p| && p[i] == x;
    var before := if i == 0 then |p| - 2 else i - 1;
    assert p[before] in DepsOf(deps, p[before + 1]) && p[before + 1] == x;
    assert p[before] in p;
  }

  /** No wave before the fallback places a name on a cycle. */
  lemma {:induction false} CyclesAreNeverPlaced(
    calls: seq<Call>, deps: Deps, waves: seq<seq<nat>>, k: nat, p: seq<string>)
    requires IsWaveSort(calls, deps, waves) && k <= |waves|
    requires forall j: nat :: j < k ==> !IsFallback(calls, deps, waves, j)
    requires IsCycle(Names(calls), deps, p)
    ensures forall x :: x in p ==> x !in Placed(calls, waves, k)
    ensures Placed(calls, waves, k) != Names(calls)
  {
    assert p[0] in p && p[0] in Names(calls);
    if k > 0 {
      CyclesAreNeverPlaced(calls, deps, waves, k - 1, p);
      forall x | x in p
        ensures x !in Placed(calls, waves, k)
      {
        CycleNameWaits(Names(calls), deps, p, Placed(calls, waves, k - 1), x);
        ReadyIffPlaced(calls, deps, waves, k, x);
      }
    }
  }

  /** The fallback branch fires if and only if the called names have a dependency cycle. */
  lemma FallbackIffCyclic(calls: seq<Call>, deps: Deps, waves: seq<seq<nat>>)
    requires IsWaveSort(calls, deps, waves)
    ensures (exists k: nat :: k < |waves| && IsFallback(calls, deps, waves, k)) <==> Cyclic(Names(calls), deps)
  {
    if k: nat :| k < |waves| && IsFallback(calls, deps, waves, k) {
      FallbackMeansCycle(Names(calls), deps, Placed(calls, waves, k));
    } else if Cyclic(Names(calls), deps) {
      var p :| IsCycle(Names(calls), deps, p);
      CyclesAreNeverPlaced(calls, deps, waves, |waves|, p);
    }
  }

  lemma FallbackMeansCycle(called: set<string>, deps: Deps, placed: set<string>)
    requires Stuck(called, deps, placed)
    ensures Cyclic(called, deps)
  {
    var pending := called - placed;
    var m :| m in called && m !in placed;
    assert m in pending;
    forall n {:trigger Blocked(deps, pending, n)} | n in pending
      ensures Blocked(deps, pending, n)
    {
      assert !Ready(called, deps, placed, n);
    }
    BlockedSetHasCycle(called, deps, pending);
  }

  // ---------------------------------------------------------------- longest chains and optimality

  /** Before any fallback, the first `k` waves place exactly the names all of whose dependency chains have length at
    * most `k`. */
  lemma {:induction false} PlacedIffChainsShort(
    calls: seq<Call>, deps: Deps, waves: seq<seq<nat>>, k: nat, name: string)
    requires IsWaveSort(calls, deps, waves) && k <= |waves| && name in Names(calls)
    requires forall j: nat :: j < k ==> !IsFallback(calls, deps, waves, j)
    ensures name in Placed(calls, waves, k) <==> ChainsWithin(Names(calls), deps, name, k)
    decreases k
  {
    var called := Names(calls);
    if k == 0 {
      assert ChainTo(called, deps, [name], name);
    } else {
      var placed := Placed(calls, waves, k - 1);
      forall d | d in DepsOf(deps, name) && d in called
        ensures d in placed <==> ChainsWithin(called, deps, d, k - 1)
      {
        PlacedIffChainsShort(calls, deps, waves, k - 1, d);
      }
      PlacedIffChainsShort(calls, deps, waves, k - 1, name);
      ReadyIffPlaced(calls, deps, waves, k, name);
      ChainsThroughDeps(called, deps, name, k);
      ShortChainsGrow(called, deps, name, k);
    }
  }

  /** Every dependency chain of called names that ends at `name` has at most `k` names. */
  ghost predicate ChainsWithin(called: set<string>, deps: Deps, name: string, k: nat) {
    forall p :: ChainTo(called, deps, p, name) ==> |p| <= k
  }

  lemma ShortChainsGrow(called: set<string>, deps: Deps, name: string, k: nat)
    requires k > 0
    ensures ChainsWithin(called, deps, name, k - 1) ==> ChainsWithin(called, deps, name, k)
  {}

  lemma ReadyIffPlaced(calls: seq<Call>, deps: Deps, waves: seq<seq<nat>>, k: nat, name: string)
    requires IsWaveSort(calls, deps, waves) && 0 < k <= |waves| && name in Names(calls)
    requires !IsFallback(calls, deps, waves, k - 1)
    ensures
      var placed := Placed(calls, waves, k - 1);
      name in Placed(calls, waves, k) <==> name in placed || Ready(Names(calls), deps, placed, name)
  {
    assert IsWave(calls, deps, Placed(calls, waves, k - 1), waves[k - 1]);
    var i: nat :| i < |calls| && calls[i].name == name;
    CallsOfOneNameShareAWave(calls, deps, Placed(calls, waves, k - 1), waves[k - 1]);
  }

  /** The chains into `name` are `[name]` and the chains into its called dependencies, extended by `name`. */
  lemma ChainsThroughDeps(called: set<string>, deps: Deps, name: string, k: nat)
    requires k > 0 && name in called
    ensures ChainsWithin(called, deps, name, k) <==>
      forall d :: d in DepsOf(deps, name) && d in called ==> ChainsWithin(called, deps, d, k - 1)
  {
    if ChainsWithin(called, deps, name, k) {
      forall d, p | d in DepsOf(deps, name) && d in called && ChainTo(called, deps, p, d)
        ensures |p| <= k - 1
      {
        assert ChainTo(called, deps, p + [name], name);
      }
    }
    if forall d :: d in DepsOf(deps, name) && d in called ==> ChainsWithin(called, deps, d, k - 1) {
      forall p | ChainTo(called, deps, p, name)
        ensures |p| <= k
      {
        if |p| > 1 {
          var d := p[|p| - 2];
          assert d in DepsOf(deps, p[|p| - 1]);
          assert ChainTo(called, deps, p[..|p| - 1], d);
        }
      }
    }
  }

  /** Without a cycle, the wave of a call is the length of the longest dependency chain of called tools ending at it. */
  lemma WaveIsLongestChain(calls: seq<Call>, deps: Deps, waves: seq<seq<nat>>, k: nat, i: nat)
    requires IsWaveSort(calls, deps, waves) && !Cyclic(Names(calls), deps)
    requires InWave(waves, k, i) && i < |calls|
    ensures ChainsWithin(Names(calls), deps, calls[i].name, k + 1)
    ensures exists p :: ChainTo(Names(calls), deps, p, calls[i].name) && |p| == k + 1
  {
    FallbackIffCyclic(calls, deps, waves);
    PlacedExactlyIn(calls, deps, waves, k, i);
    assert calls[i] in calls;
    PlacedIffChainsShort(calls, deps, waves, k, calls[i].name);
    PlacedIffChainsShort(calls, deps, waves, k + 1, calls[i].name);
  }

  lemma PlacedExactlyIn(calls: seq<Call>, deps: Deps, waves: seq<seq<nat>>, k: nat, i: nat)
    requires IsWaveSort(calls, deps, waves) && InWave(waves, k, i) && i < |calls|
    ensures calls[i].name !in Placed(calls, waves, k) && calls[i].name in Placed(calls, waves, k + 1)
  {
    assert IsWave(calls, deps, Placed(calls, waves, k), waves[k]);
  }

  /** An assignment of the calls to rounds in which every call runs strictly after its called dependencies. */
  ghost predicate Respects(calls: seq<Call>, deps: Deps, round: seq<nat>) {
    && |round| == |calls|
    && forall i, d :: 0 <= i < |calls| && 0 <= d < |calls| && calls[d].name in DepsOf(deps, calls[i].name)
         ==> round[d] < round[i]
  }

  lemma {:induction false} ChainDelays(calls: seq<Call>, deps: Deps, round: seq<nat>, p: seq<string>, i: nat)
    requires Respects(calls, deps, round)
    requires i < |calls| && ChainTo(Names(calls), deps, p, calls[i].name)
    ensures |p| - 1 <= round[i]
    decreases |p|
  {
    if |p| > 1 {
      var d := p[|p| - 2];
      assert d in DepsOf(deps, p[|p| - 1]);
      assert d in Names(calls);
      var j: nat :| j < |calls| && calls[j].name == d;
      assert ChainTo(Names(calls), deps, p[..|p| - 1], d);
      ChainDelays(calls, deps, round, p[..|p| - 1], j);
    }
  }

  /** No schedule that respects the dependencies runs any call in an earlier round, so none uses fewer rounds. */
  lemma WavesAreOptimal(calls: seq<Call>, deps: Deps, waves: seq<seq<nat>>, round: seq<nat>)
    requires IsWaveSort(calls, deps, waves) && !Cyclic(Names(calls), deps)
    requires Respects(calls, deps, round)
    ensures forall k: nat, i: nat :: InWave(waves, k, i) ==> i < |calls| && k <= round[i]
    ensures waves != [] ==> exists i :: 0 <= i < |calls| && round[i] >= |waves| - 1
  {
    WavesPartitionCalls(calls, deps, waves);
    forall k: nat, i: nat | InWave(waves, k, i)
      ensures i < |calls| && k <= round[i]
    {
      WaveIsLongestChain(calls, deps, waves, k, i);
      var p :| ChainTo(Names(calls), deps, p, calls[i].name) && |p| == k + 1;
      ChainDelays(calls, deps, round, p, i);
    }
    if waves != [] {
      var last := waves[|waves| - 1];
      assert InWave(waves, |waves| - 1, last[0]) && round[last[0]] >= |waves| - 1;
    }
  }
}
