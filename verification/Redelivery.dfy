/** A consumer that starts again and is left alone settles every offset from the committed one on. */
module Redelivery {
  import opened Consumer

  /** The step that an undisturbed session takes next; workflows complete. */
  function Next(s: System): Action {
    match s.stage
    case Down => Boot
    case Polling => Fetch
    case Guarding(_) => Guard
    case Executing(_) => Finish(Completed)
    case Settling(_) => Settle
    case Failing(_) => WriteError
    case Failed(_) => Settle
    case Committing => Commit
  }

  /** Nothing is left to fetch. */
  predicate Drained(s: System) {
    s.stage.Polling? && s.position >= |s.log|
  }

  /** Steps from the fetch of a message to its commit. */
  function Place(stage: Stage): nat {
    match stage
    case Down => 6
    case Polling => 0
    case Guarding(_) => 4
    case Executing(_) => 3
    case Settling(_) => 2
    case Failing(_) => 3
    case Failed(_) => 2
    case Committing => 1
  }

  function Unfetched(s: System): nat {
    if s.position <= |s.log| then |s.log| - s.position else 0
  }

  lemma FetchComesCloser(s: System)
    requires s.stage.Polling? && !Drained(s)
    ensures
      var t := Act(s, Fetch);
      !t.stage.Down? && t.log == s.log && t.position == s.position + 1 && Place(t.stage) <= 4
  {}

  lemma WorkComesCloser(s: System)
    requires InProgress(s.stage)
    ensures
      var t := Act(s, Next(s));
      !t.stage.Down? && t.log == s.log && t.position == s.position && Place(t.stage) < Place(s.stage)
  {}

  lemma NextComesCloser(s: System)
    requires !s.stage.Down? && !Drained(s)
    ensures
      var t := Act(s, Next(s));
      !t.stage.Down? && t.log == s.log && 5 * Unfetched(t) + Place(t.stage) < 5 * Unfetched(s) + Place(s.stage)
  {
    if s.stage.Polling? {
      FetchComesCloser(s);
    } else {
      WorkComesCloser(s);
    }
  }

  /** The session left alone: steps until nothing is left to fetch. */
  function Drain(s: System): (r: System)
    requires !s.stage.Down?
    ensures Drained(r) && r.log == s.log
    decreases 5 * Unfetched(s) + Place(s.stage)
  {
    if Drained(s) then s
    else
      NextComesCloser(s);
      Drain(Act(s, Next(s)))
  }

  /** The session stays within the log, has not raised, and has committed everything before the message in progress. */
  ghost predicate Clean(s: System) {
    && !s.stage.Down? && s.raised == {} && s.position <= |s.log|
    && s.committed == (if InProgress(s.stage) then s.position - 1 else s.position)
  }

  lemma NextKeepsClean(s: System)
    requires OffsetsOk(s) && Clean(s) && !Drained(s)
    ensures OffsetsOk(Act(s, Next(s))) && Clean(Act(s, Next(s)))
    ensures Safe(Act(s, Next(s))) <==> Safe(s)
  {
    ActKeepsOffsets(s, Next(s));
    if Safe(s) {
      StepIsSafeIffClean(s, Next(s));
    } else {
      UnsafeStays(s, Next(s));
    }
  }

  lemma {:induction false} DrainCommitsAll(s: System)
    requires OffsetsOk(s) && Clean(s)
    ensures Drain(s).committed == |s.log| && (Safe(Drain(s)) <==> Safe(s))
    decreases 5 * Unfetched(s) + Place(s.stage)
  {
    if !Drained(s) {
      NextComesCloser(s);
      NextKeepsClean(s);
      DrainCommitsAll(Act(s, Next(s)));
    }
  }

  /** Offsets stay within the log. */
  ghost predicate WithinLog(s: System) {
    s.committed <= |s.log| && s.position <= |s.log|
  }

  lemma ActKeepsWithinLog(s: System, a: Action)
    requires WithinLog(s)
    ensures WithinLog(Act(s, a))
  {}

  lemma {:induction false} WithinLogInEveryRun(actions: seq<Action>)
    ensures WithinLog(Play(actions))
  {
    if actions != [] {
      WithinLogInEveryRun(actions[..|actions| - 1]);
      ActKeepsWithinLog(Play(actions[..|actions| - 1]), actions[|actions| - 1]);
    }
  }

  ghost predicate AllSettled(s: System) {
    forall o: nat :: o < |s.log| ==> o in s.settled
  }

  /** After any history, a restarted session left alone commits the whole log; all of it is settled iff nothing was
    * passed over. */
  lemma RestartSettlesAllIffSafe(actions: seq<Action>)
    ensures
      var s := Play(actions);
      var r := Drain(Act(s, Boot));
      r.log == s.log && r.committed == |s.log| && (AllSettled(r) <==> CleanCommits(actions))
  {
    var s := Play(actions);
    OffsetsInEveryRun(actions);
    WithinLogInEveryRun(actions);
    ActKeepsOffsets(s, Boot);
    DrainCommitsAll(Act(s, Boot));
    SafeIffCleanCommits(actions);
    assert Safe(Act(s, Boot)) <==> Safe(s);
  }

  // ---------------------------------------------------------------- what is executed, and what it leaves

  /** The task that a stage works on. */
  predicate WorksOn(stage: Stage, t: TaskId) {
    match stage
    case Guarding(u) => u == t
    case Executing(u) => u == t
    case Settling(u) => u == t
    case Failing(u) => u == t
    case Failed(u) => u == t
    case _ => false
  }

  /** The handler works only on the refund event just fetched; messages without a task or marked for a human never
    * start it. */
  ghost predicate WorksOnFetched(s: System) {
    forall t {:trigger WorksOn(s.stage, t)} :: WorksOn(s.stage, t) ==>
      0 < s.position <= |s.log| && s.log[s.position - 1] == Refund(t)
  }

  lemma ActKeepsWorksOnFetched(s: System, a: Action)
    requires WorksOnFetched(s)
    ensures WorksOnFetched(Act(s, a))
  {
    var s1 := Act(s, a);
    forall t | WorksOn(s1.stage, t)
      ensures 0 < s1.position <= |s1.log| && s1.log[s1.position - 1] == Refund(t)
    {
      assert s1.position == s.position ==> WorksOn(s.stage, t);
    }
  }

  lemma {:induction false} WorksOnFetchedInEveryRun(actions: seq<Action>)
    ensures WorksOnFetched(Play(actions))
  {
    if actions != [] {
      WorksOnFetchedInEveryRun(actions[..|actions| - 1]);
      ActKeepsWorksOnFetched(Play(actions[..|actions| - 1]), actions[|actions| - 1]);
    }
  }

  /** The task has a result that is not an error. */
  predicate HasResult(s: System, t: TaskId) {
    t in s.records && !s.records[t].Error?
  }

  /** The offset up to which the events were worked on. */
  function WorkedUpTo(s: System): int {
    if InProgress(s.stage) && !s.stage.Committing? then s.position - 1 else s.position
  }

  /** Every refund event from offset `from` on that is no longer in progress has a result. */
  ghost predicate ResultsFrom(s: System, from: nat) {
    && (forall o: nat :: from <= o < WorkedUpTo(s) && o < |s.log| && s.log[o].Refund? ==>
          HasResult(s, s.log[o].task))
    && (s.stage.Settling? ==> HasResult(s, s.stage.task))
    && !s.stage.Failing? && !s.stage.Failed?
  }

  lemma NextKeepsResults(s: System, from: nat)
    requires ResultsFrom(s, from) && WorksOnFetched(s) && !s.stage.Down? && !Drained(s) && s.position <= |s.log|
    ensures ResultsFrom(Act(s, Next(s)), from) && Act(s, Next(s)).position <= |s.log|
  {
    var s1 := Act(s, Next(s));
    assert forall t :: HasResult(s, t) ==> HasResult(s1, t);
    if s.stage.Guarding? || s.stage.Settling? || s.stage.Executing? {
      assert WorksOn(s.stage, s.stage.task);
    }
  }

  lemma {:induction false} DrainLeavesResults(s: System, from: nat)
    requires ResultsFrom(s, from) && WorksOnFetched(s) && !s.stage.Down? && s.position <= |s.log|
    ensures ResultsFrom(Drain(s), from)
    decreases 5 * Unfetched(s) + Place(s.stage)
  {
    if !Drained(s) {
      NextComesCloser(s);
      NextKeepsResults(s, from);
      ActKeepsWorksOnFetched(s, Next(s));
      DrainLeavesResults(Act(s, Next(s)), from);
    }
  }

  /** A restarted session left alone leaves every refund from the committed offset on with a result, also those
    * whose earlier execution had ended in an error. */
  lemma RestartFinishesTasks(actions: seq<Action>, o: nat)
    requires Play(actions).committed <= o < |Play(actions).log| && Play(actions).log[o].Refund?
    ensures HasResult(Drain(Act(Play(actions), Boot)), Play(actions).log[o].task)
  {
    var s := Act(Play(actions), Boot);
    WithinLogInEveryRun(actions);
    DrainLeavesResults(s, s.committed);
  }
}
