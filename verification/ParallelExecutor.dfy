/** The second scheduler, executor/parallel_executor.py: it keys calls by name and never runs a call with a missing
  * dependency. */
module ParallelExecutor {
  import opened Prelude
  import opened Dependencies
  import Waves
  import WaveTheory

  /** The tools, as oracles, and the two error texts. */
  datatype Tools = Tools(
    known: set<string>, run: Call -> ToolOutcome, notFound: string -> string, failed: string -> string)
  {
    function Text(call: Call): string {
      if call.name !in known then notFound(call.name)
      else match run(call)
        case Returned(text) => text
        case Raised(error) => failed(error)
    }
  }

  // ---------------------------------------------------------------- the pending dictionary

  /** The names in order of first occurrence: the key order of `{tc["name"]: tc for tc in tool_calls}`. */
  function Order(calls: seq<Call>): (r: seq<string>)
    ensures forall n :: n in r <==> n in Names(calls)
  {
    if calls == [] then []
    else
      var front, last := calls[..|calls| - 1], calls[|calls| - 1];
      assert calls == front + [last];
      if last.name in Order(front) then Order(front) else Order(front) + [last.name]
  }

  /** The call kept for a name: a later call replaces an earlier one. */
  function LastNamed(calls: seq<Call>, name: string): (r: Call)
    requires name in Names(calls)
    ensures r.name == name
    ensures exists i :: 0 <= i < |calls| && calls[i] == r && (forall j :: i < j < |calls| ==> calls[j].name != name)
  {
    var front, last := calls[..|calls| - 1], calls[|calls| - 1];
    assert calls == front + [last];
    if last.name == name then last else LastNamed(front, name)
  }

  // ---------------------------------------------------------------- specification

  predicate AllDone(deps: Deps, done: set<string>, name: string) {
    forall d :: d in DepsOf(deps, name) ==> d in done
  }

  /** `s` holds every called name whose dependencies it holds. */
  ghost predicate Closed(called: set<string>, deps: Deps, s: set<string>) {
    forall n {:trigger AllDone(deps, s, n)} :: n in called && AllDone(deps, s, n) ==> n in s
  }

  ghost predicate IsLeastClosed(called: set<string>, deps: Deps, s: set<string>) {
    && s <= called
    && Closed(called, deps, s)
    && forall t :: Closed(called, deps, t) ==> s <= t
  }

  function Able(called: set<string>, deps: Deps, done: set<string>): set<string> {
    set n | n in called && AllDone(deps, done, n)
  }

  function Pending(calls: seq<Call>, done: set<string>): seq<string> {
    Select(Order(calls), Names(calls) - done)
  }

  /** The pending names whose dependencies all have results, in dictionary order. */
  function NextRound(calls: seq<Call>, deps: Deps, done: set<string>): seq<string> {
    Select(Pending(calls, done), Able(Names(calls), deps, done))
  }

  ghost function Done(rounds: seq<seq<string>>, k: nat): set<string>
    requires k <= |rounds|
  {
    if k == 0 then {} else Done(rounds, k - 1) + Elems(rounds[k - 1])
  }

  ghost predicate IsRoundPrefix(calls: seq<Call>, deps: Deps, rounds: seq<seq<string>>) {
    forall k {:trigger IsRound(calls, deps, rounds, k)} :: 0 <= k < |rounds| ==> IsRound(calls, deps, rounds, k)
  }

  ghost predicate IsRound(calls: seq<Call>, deps: Deps, rounds: seq<seq<string>>, k: nat)
    requires k < |rounds|
  {
    rounds[k] != [] && rounds[k] == NextRound(calls, deps, Done(rounds, k))
  }

  ghost predicate IsRounds(calls: seq<Call>, deps: Deps, rounds: seq<seq<string>>) {
    IsRoundPrefix(calls, deps, rounds) && NextRound(calls, deps, Done(rounds, |rounds|)) == []
  }

  // ---------------------------------------------------------------- the algorithm

  class DependencyAwareExecutor {
    const dependencyMap: Deps

    constructor (deps: Deps)
      ensures dependencyMap == deps
    {
      dependencyMap := deps;
    }

    method Execute(calls: seq<Call>, tools: Tools)
      returns (results: map<string, string>, ghost rounds: seq<seq<string>>)
      ensures IsLeastClosed(Names(calls), dependencyMap, results.Keys)
      ensures forall n :: n in results ==> results[n] == tools.Text(LastNamed(calls, n))
      ensures IsRounds(calls, dependencyMap, rounds) && Done(rounds, |rounds|) == results.Keys
    {
      var called := Names(calls);
      var pending := Order(calls);
      NothingDone(calls);
      results, rounds := map[], [];
      assert results.Keys == {};
      while pending != []
        invariant pending == Pending(calls, results.Keys)
        invariant results.Keys <= called
        invariant forall n :: n in results ==> results[n] == tools.Text(LastNamed(calls, n))
        invariant IsRoundPrefix(calls, dependencyMap, rounds) && Done(rounds, |rounds|) == results.Keys
        invariant IsForced(called, dependencyMap, results.Keys)
        decreases |pending|
      {
        var ready := Select(pending, Able(called, dependencyMap, results.Keys));
        if ready == [] {
          break;
        }
        assert ready[0] in ready;
        RoundAppend(calls, dependencyMap, rounds, ready);
        RoundIsForced(calls, dependencyMap, results.Keys, ready);
        rounds := rounds + [ready];
        ghost var before := results;
        results := results + RunRound(calls, tools, ready);
        PendingShrinks(calls, before.Keys, ready);
        pending := Select(pending, called - Elems(ready));
      }
      StopsClosed(calls, dependencyMap, results.Keys);
    }
  }

  /** The results of one round: the tools of a round do not see each other's results. */
  function RunRound(calls: seq<Call>, tools: Tools, ready: seq<string>): map<string, string>
    requires forall n :: n in ready ==> n in Names(calls)
  {
    map n | n in ready :: tools.Text(LastNamed(calls, n))
  }

  lemma {:induction false} SelectAll(s: seq<string>, keep: set<string>)
    requires forall n :: n in s ==> n in keep
    ensures Select(s, keep) == s
  {
    if s != [] {
      SelectAll(s[..|s| - 1], keep);
    }
  }

  lemma {:induction false} SelectNone(s: seq<string>)
    ensures Select(s, {}) == []
  {
    if s != [] {
      SelectNone(s[..|s| - 1]);
    }
  }

  lemma NothingDone(calls: seq<Call>)
    ensures Pending(calls, {}) == Order(calls)
  {
    SelectAll(Order(calls), Names(calls) - {});
  }

  /** Every closed set contains `done`. */
  ghost predicate IsForced(called: set<string>, deps: Deps, done: set<string>) {
    forall t :: Closed(called, deps, t) ==> done <= t
  }

  lemma RoundIsForced(calls: seq<Call>, deps: Deps, done: set<string>, ready: seq<string>)
    requires IsForced(Names(calls), deps, done) && ready == NextRound(calls, deps, done)
    ensures IsForced(Names(calls), deps, done + Elems(ready))
  {
    forall t, n | Closed(Names(calls), deps, t) && n in ready
      ensures n in t
    {
      assert AllDone(deps, t, n);
    }
  }

  lemma RoundAppend(calls: seq<Call>, deps: Deps, rounds: seq<seq<string>>, ready: seq<string>)
    requires IsRoundPrefix(calls, deps, rounds)
    requires ready != [] && ready == NextRound(calls, deps, Done(rounds, |rounds|))
    ensures IsRoundPrefix(calls, deps, rounds + [ready])
    ensures Done(rounds + [ready], |rounds| + 1) == Done(rounds, |rounds|) + Elems(ready)
  {
    var more := rounds + [ready];
    DonePrefix(rounds, more, |rounds|);
    forall k | 0 <= k < |more|
      ensures IsRound(calls, deps, more, k)
    {
      DonePrefix(rounds, more, k);
      assert k == |rounds| || IsRound(calls, deps, rounds, k);
    }
  }

  lemma {:induction false} DonePrefix(rounds: seq<seq<string>>, more: seq<seq<string>>, k: nat)
    requires rounds <= more && k <= |rounds|
    ensures Done(rounds, k) == Done(more, k)
  {
    if k > 0 {
      DonePrefix(rounds, more, k - 1);
    }
  }

  lemma PendingShrinks(calls: seq<Call>, done: set<string>, ready: seq<string>)
    requires forall n :: n in ready ==> n in Pending(calls, done)
    requires ready != []
    ensures
      var rest := Select(Pending(calls, done), Names(calls) - Elems(ready));
      rest == Pending(calls, done + Elems(ready)) && |rest| < |Pending(calls, done)|
  {
    var gone := Elems(ready);
    SelectSelect(Order(calls), Names(calls) - done, Names(calls) - gone);
    assert (Names(calls) - done) * (Names(calls) - gone) == Names(calls) - (done + gone);
    assert ready[0] in ready && ready[0] in gone;
  }

  lemma StopsClosed(calls: seq<Call>, deps: Deps, done: set<string>)
    requires NextRound(calls, deps, done) == []
    ensures Closed(Names(calls), deps, done)
  {
    forall n {:trigger AllDone(deps, done, n)} | n in Names(calls) && AllDone(deps, done, n)
      ensures n in done
    {
      assert n !in NextRound(calls, deps, done);
    }
  }

  // ---------------------------------------------------------------- agreement with the wave sort

  function NamesOf(calls: seq<Call>): seq<string> {
    seq(|calls|, i requires 0 <= i < |calls| => calls[i].name)
  }

  ghost predicate Distinct(calls: seq<Call>) {
    forall i, j :: 0 <= i < j < |calls| ==> calls[i].name != calls[j].name
  }

  /** Every dependency of a called tool is itself called. */
  ghost predicate DependencyClosed(calls: seq<Call>, deps: Deps) {
    forall n, d :: n in Names(calls) && d in DepsOf(deps, n) ==> d in Names(calls)
  }

  lemma {:induction false} OrderOfDistinct(calls: seq<Call>)
    requires Distinct(calls)
    ensures Order(calls) == NamesOf(calls)
  {
    if calls != [] {
      OrderOfDistinct(calls[..|calls| - 1]);
    }
  }

  /** Extending a batch at the end does not change the names of a wave of the shorter batch. */
  lemma RoundOfFront(front: seq<Call>, last: Call, round: seq<string>, wave: seq<nat>)
    requires RoundIsWave(front, round, wave)
    ensures RoundIsWave(front + [last], round, wave)
    ensures RoundIsWave(front + [last], round + [last.name], wave + [|front|])
  {}

  lemma SelectOfSnoc(front: seq<Call>, last: Call, keep: set<string>)
    ensures Select(NamesOf(front + [last]), keep)
      == Select(NamesOf(front), keep) + if last.name in keep then [last.name] else []
  {
    assert NamesOf(front + [last])[..|front|] == NamesOf(front);
  }

  /** `wave` holds exactly the calls whose names are in `keep`. */
  ghost predicate Picks(calls: seq<Call>, wave: seq<nat>, keep: set<string>) {
    && Waves.Ascending(wave)
    && Waves.InRange(calls, wave)
    && forall i: nat :: i in wave <==> i < |calls| && calls[i].name in keep
  }

  lemma PicksOfFront(front: seq<Call>, last: Call, wave: seq<nat>, keep: set<string>) returns (w: seq<nat>)
    requires Picks(front + [last], wave, keep)
    ensures Picks(front, w, keep)
    ensures wave == if last.name in keep then w + [|front|] else w
  {
    var calls := front + [last];
    assert calls[|front|] == last && forall i :: 0 <= i < |front| ==> calls[i] == front[i];
    Waves.AscendingBounds(calls, wave);
    if last.name in keep {
      var k :| 0 <= k < |wave| && wave[k] == |front|;
      w := wave[..k];
      assert wave == w + [|front|];
    } else {
      w := wave;
      assert forall k :: 0 <= k < |w| ==> w[k] in w;
    }
  }

  /** An ascending wave, read as names, is a selection from the names of the batch. */
  lemma {:induction false} WaveIsSelection(calls: seq<Call>, wave: seq<nat>, keep: set<string>)
    requires Picks(calls, wave, keep)
    ensures RoundIsWave(calls, Select(NamesOf(calls), keep), wave)
  {
    if calls == [] {
      Waves.AscendingBounds(calls, wave);
    } else {
      var front, last := calls[..|calls| - 1], calls[|calls| - 1];
      assert calls == front + [last];
      var w := PicksOfFront(front, last, wave, keep);
      WaveIsSelection(front, w, keep);
      SelectOfSnoc(front, last, keep);
      RoundOfFront(front, last, Select(NamesOf(front), keep), w);
    }
  }

  /** The hypotheses under which the two schedulers agree: distinct names, no cycle, every dependency called. */
  ghost predicate SelfContained(calls: seq<Call>, deps: Deps) {
    Distinct(calls) && DependencyClosed(calls, deps) && !Cyclic(Names(calls), deps)
  }

  lemma {:induction false} RoundsFollowWaves(
    calls: seq<Call>, deps: Deps, waves: seq<seq<nat>>, rounds: seq<seq<string>>, k: nat)
    requires SelfContained(calls, deps) && Waves.IsWaveSort(calls, deps, waves) && IsRounds(calls, deps, rounds)
    requires k <= |waves|
    ensures k <= |rounds| && Done(rounds, k) == Waves.Placed(calls, waves, k)
  {
    if k > 0 {
      RoundsFollowWaves(calls, deps, waves, rounds, k - 1);
      RoundTakesWave(calls, deps, waves, Done(rounds, k - 1), k - 1);
      RoundsGoOn(calls, deps, rounds, k - 1);
    }
  }

  /** The executor goes on while a round has tools to run. */
  lemma RoundsGoOn(calls: seq<Call>, deps: Deps, rounds: seq<seq<string>>, k: nat)
    requires IsRounds(calls, deps, rounds) && k <= |rounds| && NextRound(calls, deps, Done(rounds, k)) != []
    ensures k < |rounds| && Done(rounds, k + 1) == Done(rounds, k) + Elems(NextRound(calls, deps, Done(rounds, k)))
  {
    assert k == |rounds| || IsRound(calls, deps, rounds, k);
  }

  /** On a dependency-closed, acyclic batch with distinct names, the rounds of this executor are the waves of the
    * wave sort. */
  lemma RoundsAreWaves(calls: seq<Call>, deps: Deps, waves: seq<seq<nat>>, rounds: seq<seq<string>>)
    requires SelfContained(calls, deps) && Waves.IsWaveSort(calls, deps, waves) && IsRounds(calls, deps, rounds)
    ensures |rounds| == |waves|
    ensures forall k :: 0 <= k < |waves| ==> RoundIsWave(calls, rounds[k], waves[k])
  {
    RoundsFollowWaves(calls, deps, waves, rounds, |waves|);
    EverythingPlaced(calls, deps, Done(rounds, |waves|));
    assert |waves| == |rounds| || IsRound(calls, deps, rounds, |waves|);
    forall k | 0 <= k < |waves|
      ensures RoundIsWave(calls, rounds[k], waves[k])
    {
      RoundsFollowWaves(calls, deps, waves, rounds, k);
      WaveIsNextRound(calls, deps, waves, k);
      assert IsRound(calls, deps, rounds, k);
    }
  }

  lemma EverythingPlaced(calls: seq<Call>, deps: Deps, done: set<string>)
    requires done == Names(calls)
    ensures NextRound(calls, deps, done) == []
  {
    assert Names(calls) - done == {};
    SelectNone(Order(calls));
  }

  ghost predicate RoundIsWave(calls: seq<Call>, round: seq<string>, wave: seq<nat>) {
    Waves.InRange(calls, wave) && round == NamesOf(Waves.Kept(calls, wave))
  }

  lemma WaveIsNextRound(calls: seq<Call>, deps: Deps, waves: seq<seq<nat>>, k: nat)
    requires SelfContained(calls, deps) && Waves.IsWaveSort(calls, deps, waves) && k < |waves|
    ensures
      var round := NextRound(calls, deps, Waves.Placed(calls, waves, k));
      && round != []
      && RoundIsWave(calls, round, waves[k])
      && Elems(round) == Waves.NamesIn(calls, waves[k])
  {
    var called, placed := Names(calls), Waves.Placed(calls, waves, k);
    WaveTheory.FallbackIffCyclic(calls, deps, waves);
    assert !Waves.IsFallback(calls, deps, waves, k);
    assert Waves.IsWave(calls, deps, placed, waves[k]);
    OrderOfDistinct(calls);
    SelectSelect(Order(calls), called - placed, Able(called, deps, placed));
    var keep := (called - placed) * Able(called, deps, placed);
    forall i: nat | i < |calls|
      ensures calls[i].name in keep <==> i in waves[k]
    {
      assert calls[i] in calls;
      assert Waves.Ready(called, deps, placed, calls[i].name) <==> AllDone(deps, placed, calls[i].name);
    }
    WaveInRange(calls, deps, placed, waves[k]);
    WaveIsSelection(calls, waves[k], keep);
    RoundNames(calls, Select(NamesOf(calls), keep), waves[k]);
  }

  lemma WaveInRange(calls: seq<Call>, deps: Deps, placed: set<string>, wave: seq<nat>)
    requires Waves.IsWave(calls, deps, placed, wave)
    ensures Waves.InRange(calls, wave)
  {
    forall j | 0 <= j < |wave|
      ensures wave[j] < |calls|
    {
      assert wave[j] in wave;
    }
  }

  lemma RoundTakesWave(calls: seq<Call>, deps: Deps, waves: seq<seq<nat>>, done: set<string>, k: nat)
    requires SelfContained(calls, deps) && Waves.IsWaveSort(calls, deps, waves) && k < |waves|
    requires done == Waves.Placed(calls, waves, k)
    ensures NextRound(calls, deps, done) != []
    ensures done + Elems(NextRound(calls, deps, done)) == Waves.Placed(calls, waves, k + 1)
  {
    WaveIsNextRound(calls, deps, waves, k);
  }

  lemma RoundNames(calls: seq<Call>, round: seq<string>, wave: seq<nat>)
    requires RoundIsWave(calls, round, wave)
    ensures Elems(round) == Waves.NamesIn(calls, wave)
  {
    forall n | n in Waves.NamesIn(calls, wave)
      ensures n in round
    {
      var i :| i in wave && i < |calls| && calls[i].name == n;
      var j :| 0 <= j < |wave| && wave[j] == i;
      assert round[j] == n;
    }
    forall n | n in round
      ensures n in Waves.NamesIn(calls, wave)
    {
      var j :| 0 <= j < |round| && round[j] == n;
      assert wave[j] in wave;
    }
  }

  /** The result of a tool: its own text, or an error for an unknown tool or one that raises. */
  lemma ResultsCarryOutcomes(calls: seq<Call>, tools: Tools, name: string)
    requires name in Names(calls)
    ensures
      var call := LastNamed(calls, name);
      && (name !in tools.known ==> tools.Text(call) == tools.notFound(name))
      && (name in tools.known && tools.run(call).Returned? ==> tools.Text(call) == tools.run(call).text)
      && (name in tools.known && tools.run(call).Raised? ==> tools.Text(call) == tools.failed(tools.run(call).error))
  {}
}
