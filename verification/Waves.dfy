/** The topological wave sort of agents/react_loop.py. */
module Waves {
  import opened Dependencies

  /** Every dependency of `name` that is called in this batch has already been placed. */
  predicate Ready(called: set<string>, deps: Deps, placed: set<string>, name: string) {
    forall d :: d in DepsOf(deps, name) ==> d !in called || d in placed
  }

  /** The "nothing ready" condition: some call is pending, and no pending call is ready. */
  ghost predicate Stuck(called: set<string>, deps: Deps, placed: set<string>) {
    && (exists n :: n in called && n !in placed)
    && (forall n {:trigger Ready(called, deps, placed, n)} ::
          n in called && n !in placed ==> !Ready(called, deps, placed, n))
  }

  ghost predicate Ascending(s: seq<nat>) {
    forall a, b :: 0 <= a < b < |s| ==> s[a] < s[b]
  }

  /** `wave` holds, in call order, the pending calls that are ready, or all pending calls when none is. */
  ghost predicate IsWave(calls: seq<Call>, deps: Deps, placed: set<string>, wave: seq<nat>) {
    && wave != []
    && Ascending(wave)
    && forall i: nat :: i in wave <==>
         && i < |calls|
         && calls[i].name !in placed
         && (Ready(Names(calls), deps, placed, calls[i].name) || Stuck(Names(calls), deps, placed))
  }

  function NamesIn(calls: seq<Call>, wave: seq<nat>): set<string> {
    set i | i in wave && i < |calls| :: calls[i].name
  }

  /** The names placed by the first `k` waves. */
  ghost function Placed(calls: seq<Call>, waves: seq<seq<nat>>, k: nat): set<string>
    requires k <= |waves|
  {
    if k == 0 then {} else Placed(calls, waves, k - 1) + NamesIn(calls, waves[k - 1])
  }

  ghost predicate IsWaveSort(calls: seq<Call>, deps: Deps, waves: seq<seq<nat>>) {
    IsWavePrefix(calls, deps, waves) && Placed(calls, waves, |waves|) == Names(calls)
  }

  ghost predicate IsWavePrefix(calls: seq<Call>, deps: Deps, waves: seq<seq<nat>>) {
    forall k {:trigger IsWave(calls, deps, Placed(calls, waves, k), waves[k])} ::
      0 <= k < |waves| ==> IsWave(calls, deps, Placed(calls, waves, k), waves[k])
  }

  /** Wave `k` was produced by the fallback branch. */
  ghost predicate IsFallback(calls: seq<Call>, deps: Deps, waves: seq<seq<nat>>, k: nat)
    requires k < |waves|
  {
    Stuck(Names(calls), deps, Placed(calls, waves, k))
  }

  predicate InRange(calls: seq<Call>, wave: seq<nat>) {
    forall k :: 0 <= k < |wave| ==> wave[k] < |calls|
  }

  /** The calls at the positions of a wave. */
  function Kept(calls: seq<Call>, wave: seq<nat>): seq<Call>
    requires InRange(calls, wave)
  {
    seq(|wave|, k requires 0 <= k < |wave| => calls[wave[k]])
  }

  lemma AscendingBounds(calls: seq<Call>, wave: seq<nat>)
    requires Ascending(wave) && InRange(calls, wave)
    ensures forall k :: 0 <= k < |wave| ==> k <= wave[k] <= |calls| - |wave| + k
    ensures |wave| <= |calls|
  {
    var n := 0;
    while n < |wave|
      invariant 0 <= n <= |wave|
      invariant forall k :: 0 <= k < n ==> wave[k] >= k
    {
      assert n == 0 || wave[n - 1] < wave[n];
      n := n + 1;
    }
    n := 0;
    while n < |wave|
      invariant 0 <= n <= |wave|
      invariant forall k :: |wave| - n <= k < |wave| ==> wave[k] <= |calls| - |wave| + k
    {
      var m := |wave| - 1 - n;
      assert n == 0 || wave[m] < wave[m + 1];
      n := n + 1;
    }
    assert wave == [] || wave[|wave| - 1] < |calls|;
  }

  // ---------------------------------------------------------------- the algorithm

  function ReadyAmong(calls: seq<Call>, deps: Deps, completed: set<string>, remaining: seq<nat>): seq<nat> {
    var called := Names(calls);
    Select(remaining, set i: nat | i in remaining && i < |calls| && Ready(called, deps, completed, calls[i].name))
  }

  function Rest(remaining: seq<nat>, taken: seq<nat>): seq<nat> {
    Select(remaining, set i | i in remaining && i !in taken)
  }

  lemma {:induction false} SelectKeepsOrder(s: seq<nat>, ids: set<nat>)
    requires Ascending(s)
    ensures Ascending(Select(s, ids))
  {
    if s != [] {
      var front := s[..|s| - 1];
      SelectKeepsOrder(front, ids);
      forall b | 0 <= b < |Select(front, ids)|
        ensures Select(front, ids)[b] < s[|s| - 1]
      {
        assert Select(front, ids)[b] in front;
      }
    }
  }

  method ExecutionWaves(calls: seq<Call>, deps: Deps) returns (waves: seq<seq<nat>>)
    ensures IsWaveSort(calls, deps, waves)
  {
    var remaining: seq<nat> := seq(|calls|, (i: nat) => i);
    AllPending(calls, remaining);
    var completed: set<string> := {};
    waves := [];
    while remaining != []
      invariant Ascending(remaining) && IsPending(calls, completed, remaining)
      invariant completed == Placed(calls, waves, |waves|)
      invariant IsWavePrefix(calls, deps, waves)
      decreases |remaining|
    {
      var ready := ReadyAmong(calls, deps, completed, remaining);
      if ready == [] {
        ready := remaining;
      }
      ChosenIsWave(calls, deps, completed, remaining, ready);
      RestIsPending(calls, deps, completed, remaining, ready);
      ExtendPrefix(calls, deps, waves, ready);
      waves := waves + [ready];
      completed := completed + NamesIn(calls, ready);
      remaining := Rest(remaining, ready);
    }
    AllPlaced(calls, completed, remaining);
    PlacedAreCalled(calls, waves, |waves|);
  }

  lemma AllPending(calls: seq<Call>, remaining: seq<nat>)
    requires remaining == seq(|calls|, (i: nat) => i)
    ensures Ascending(remaining) && IsPending(calls, {}, remaining)
  {
    forall i: nat | i < |calls|
      ensures i in remaining
    {
      assert remaining[i] == i;
    }
  }

  lemma AllPlaced(calls: seq<Call>, completed: set<string>, remaining: seq<nat>)
    requires IsPending(calls, completed, remaining) && remaining == []
    ensures Names(calls) <= completed
  {
    forall n | n in Names(calls)
      ensures n in completed
    {
      var i: nat :| i < |calls| && calls[i].name == n;
      assert i !in remaining;
    }
  }

  lemma {:induction false} PlacedAreCalled(calls: seq<Call>, waves: seq<seq<nat>>, k: nat)
    requires k <= |waves|
    ensures Placed(calls, waves, k) <= Names(calls)
  {
    if k > 0 {
      PlacedAreCalled(calls, waves, k - 1);
    }
  }

  /** One round of the loop: the chosen calls form a wave. */
  lemma ChosenIsWave(calls: seq<Call>, deps: Deps, completed: set<string>, remaining: seq<nat>, wave: seq<nat>)
    requires remaining != [] && Ascending(remaining) && IsPending(calls, completed, remaining)
    requires
      var ready := ReadyAmong(calls, deps, completed, remaining);
      wave == if ready == [] then remaining else ready
    ensures IsWave(calls, deps, completed, wave)
  {
    var ids := set i: nat | i in remaining && i < |calls| && Ready(Names(calls), deps, completed, calls[i].name);
    SelectKeepsOrder(remaining, ids);
    NothingReady(calls, deps, completed, remaining, Select(remaining, ids));
  }

  /** Dropping a wave from the pending calls leaves exactly the calls that are still pending. */
  lemma RestIsPending(calls: seq<Call>, deps: Deps, completed: set<string>, remaining: seq<nat>, wave: seq<nat>)
    requires Ascending(remaining) && IsPending(calls, completed, remaining)
    requires IsWave(calls, deps, completed, wave)
    ensures
      var rest := Rest(remaining, wave);
      && |rest| < |remaining|
      && Ascending(rest)
      && IsPending(calls, completed + NamesIn(calls, wave), rest)
  {
    var ids := set i | i in remaining && i !in wave;
    SelectKeepsOrder(remaining, ids);
    assert wave[0] in wave && wave[0] in remaining && wave[0] !in ids;
    CallsOfOneNameShareAWave(calls, deps, completed, wave);
  }

  lemma ExtendPrefix(calls: seq<Call>, deps: Deps, waves: seq<seq<nat>>, wave: seq<nat>)
    requires IsWavePrefix(calls, deps, waves)
    requires IsWave(calls, deps, Placed(calls, waves, |waves|), wave)
    ensures IsWavePrefix(calls, deps, waves + [wave])
    ensures Placed(calls, waves + [wave], |waves| + 1) == Placed(calls, waves, |waves|) + NamesIn(calls, wave)
  {
    var more := waves + [wave];
    PlacedPrefix(calls, waves, more);
    forall k | 0 <= k < |more|
      ensures IsWave(calls, deps, Placed(calls, more, k), more[k])
    {
      if k < |waves| {
        assert IsWave(calls, deps, Placed(calls, waves, k), waves[k]);
      }
    }
  }

  lemma CallsOfOneNameShareAWave(calls: seq<Call>, deps: Deps, placed: set<string>, wave: seq<nat>)
    requires IsWave(calls, deps, placed, wave)
    ensures forall i: nat :: i < |calls| ==> (calls[i].name in NamesIn(calls, wave) <==> i in wave)
  {
    forall i: nat | i < |calls| && calls[i].name in NamesIn(calls, wave)
      ensures i in wave
    {
      var j: nat :| j in wave && j < |calls| && calls[j].name == calls[i].name;
    }
  }

  /** `remaining` is exactly the calls whose names are not completed. */
  ghost predicate IsPending(calls: seq<Call>, completed: set<string>, remaining: seq<nat>) {
    forall i: nat :: i in remaining <==> i < |calls| && calls[i].name !in completed
  }

  lemma NothingReady(calls: seq<Call>, deps: Deps, completed: set<string>, remaining: seq<nat>, ready: seq<nat>)
    requires remaining != [] && IsPending(calls, completed, remaining)
    requires forall i: nat :: i in ready <==>
      i in remaining && i < |calls| && Ready(Names(calls), deps, completed, calls[i].name)
    ensures ready == [] <==> Stuck(Names(calls), deps, completed)
  {
    assert remaining[0] in remaining;
    assert calls[remaining[0]] in calls;
    if ready != [] {
      assert ready[0] in ready;
      assert calls[ready[0]] in calls;
    } else {
      forall n | n in Names(calls) && n !in completed
        ensures !Ready(Names(calls), deps, completed, n)
      {
        var i: nat :| i < |calls| && calls[i].name == n;
        assert i in remaining && i !in ready;
      }
    }
  }

  lemma {:induction false} PlacedPrefix(calls: seq<Call>, waves: seq<seq<nat>>, more: seq<seq<nat>>)
    requires waves <= more
    ensures forall k :: 0 <= k <= |waves| ==> Placed(calls, waves, k) == Placed(calls, more, k)
  {
    var m := 0;
    while m < |waves|
      invariant m <= |waves|
      invariant forall k :: 0 <= k <= m ==> Placed(calls, waves, k) == Placed(calls, more, k)
    {
      m := m + 1;
    }
  }
}
