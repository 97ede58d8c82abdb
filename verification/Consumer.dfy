/** The consume loop of task_queue_store/kafka_events.py running the handler `_process_refund` of main.py. */
module Consumer {

  type TaskId = nat

  /** An event on the topic: without a task id, marked as waiting for a human, or a refund to process. */
  datatype Event = NoTask | HitlMarked(task: TaskId) | Refund(task: TaskId)

  /** The record under `task:<id>` in Redis. */
  datatype Result = Completed | HitlPending | Error

  /** Where the consumer process stands; a stage names the next await. */
  datatype Stage =
    | Down
    | Polling
    | Guarding(task: TaskId)            // read the Redis record
    | Executing(task: TaskId)           // run the workflow, then write the final record
    | Settling(task: TaskId)            // the final record is written; status and result tables follow
    | Failing(task: TaskId)             // the except branch is about to write the error record
    | Failed(task: TaskId)              // the error record is written; status and result tables follow
    | Committing                        // the handler has returned, or the message is skipped on purpose

  datatype System = System(
    log: seq<Event>,
    committed: nat,
    position: nat,                      // the next offset this session fetches
    stage: Stage,
    records: map<TaskId, Result>,
    settled: set<nat>,                  // history: offsets handled to the end or skipped on purpose
    raised: set<nat>,                   // history: offsets whose handler raised since the consumer started
    finals: map<TaskId, nat>,           // history: final records that executions wrote since expiry or resolution
    lost: map<TaskId, nat>)             // history: how many of those were overwritten by an error record

  datatype Action =
    | Publish(e: Event)
    | Boot                              // a consumer starts, or reconnects, at the committed offset
    | Fetch
    | Guard
    | Finish(r: Result)                 // the workflow ends and its final record is written
    | Fail                              // the current await raises inside the handler's try block
    | WriteError
    | Settle                            // the writes after a record succeed, and the handler returns
    | Raise                             // the handler raises: before its try block, or in the except branch
    | Commit
    | CommitFails
    | Crash
    | Expire(task: TaskId)              // the Redis record expires
    | Resolve(task: TaskId)             // a human denies or compensates: the record becomes final

  const EMPTY := System([], 0, 0, Down, map[], {}, {}, map[], map[])

  function Count(m: map<TaskId, nat>, t: TaskId): nat {
    if t in m then m[t] else 0
  }

  predicate IsFinal(records: map<TaskId, Result>, t: TaskId) {
    t in records && (records[t].Completed? || records[t].HitlPending?)
  }

  function Act(s: System, a: Action): System {
    match a
    case Publish(e) => s.(log := s.log + [e])
    case Boot => s.(stage := Polling, position := s.committed, raised := {})
    case Crash => s.(stage := Down)
    case Expire(t) => s.(records := s.records - {t}, finals := s.finals - {t}, lost := s.lost - {t})
    case Resolve(t) => s.(records := s.records[t := Completed], finals := s.finals - {t}, lost := s.lost - {t})
    case Fetch =>
      if s.stage.Polling? && s.position < |s.log| then
        match s.log[s.position]
        case Refund(t) => s.(stage := Guarding(t), position := s.position + 1)
        case _ => s.(stage := Committing, position := s.position + 1, settled := s.settled + {s.position})
      else s
    case Guard =>
      if s.stage.Guarding? then
        if IsFinal(s.records, s.stage.task) then Return(s) else s.(stage := Executing(s.stage.task))
      else s
    case Finish(r) =>
      if s.stage.Executing? && !r.Error? then
        var t := s.stage.task;
        s.(stage := Settling(t), records := s.records[t := r], finals := s.finals[t := Count(s.finals, t) + 1])
      else s
    case Fail =>
      if s.stage.Guarding? || s.stage.Executing? || s.stage.Settling? then s.(stage := Failing(s.stage.task)) else s
    case WriteError =>
      if s.stage.Failing? then
        var t := s.stage.task;
        s.(stage := Failed(t), records := s.records[t := Error], lost := s.lost[t := Count(s.finals, t)])
      else s
    case Settle => if s.stage.Settling? || s.stage.Failed? then Return(s) else s
    case Raise =>
      if (s.stage.Guarding? || s.stage.Failing? || s.stage.Failed?) && s.position > 0
      then s.(stage := Polling, raised := s.raised + {s.position - 1}) else s
    case Commit => if s.stage.Committing? then s.(stage := Polling, committed := s.position) else s
    case CommitFails => if s.stage.Committing? then s.(stage := Polling) else s
  }

  /** The handler returns: the current offset is settled. */
  function Return(s: System): System {
    s.(stage := Committing, settled := if s.position > 0 then s.settled + {s.position - 1} else s.settled)
  }

  /** The system after any sequence of steps, failures, crashes and restarts. */
  function Play(actions: seq<Action>): System {
    if actions == [] then EMPTY else Act(Play(actions[..|actions| - 1]), actions[|actions| - 1])
  }

  // ---------------------------------------------------------------- offsets

  predicate InProgress(stage: Stage) {
    !stage.Down? && !stage.Polling?
  }

  /** Every offset below the committed one has been handled to the end or skipped on purpose. */
  ghost predicate Safe(s: System) {
    forall o: nat :: o < s.committed ==> o in s.settled
  }

  /** In a running session every offset since the committed one is settled, has raised, or is in progress. */
  ghost predicate OffsetsOk(s: System) {
    !s.stage.Down? ==>
      && s.committed <= s.position
      && (InProgress(s.stage) ==> s.committed < s.position)
      && (s.stage.Committing? ==> s.position - 1 in s.settled)
      && (forall o :: o in s.raised ==> o < s.position)
      && (forall o: nat :: s.committed <= o < s.position ==>
            o in s.settled || o in s.raised || (o == s.position - 1 && InProgress(s.stage)))
  }

  lemma ActKeepsOffsets(s: System, a: Action)
    requires OffsetsOk(s)
    ensures OffsetsOk(Act(s, a))
  {}

  lemma {:induction false} OffsetsInEveryRun(actions: seq<Action>)
    ensures OffsetsOk(Play(actions))
  {
    if actions != [] {
      OffsetsInEveryRun(actions[..|actions| - 1]);
      ActKeepsOffsets(Play(actions[..|actions| - 1]), actions[|actions| - 1]);
    }
  }

  /** The step, if it commits, finds no offset that raised in this session and is still not settled. */
  ghost predicate CleanStep(s: System, a: Action) {
    a.Commit? && s.stage.Committing? ==> s.raised <= s.settled
  }

  ghost predicate CleanCommits(actions: seq<Action>) {
    actions == [] ||
    (CleanCommits(actions[..|actions| - 1]) && CleanStep(Play(actions[..|actions| - 1]), actions[|actions| - 1]))
  }

  lemma StepIsSafeIffClean(s: System, a: Action)
    requires OffsetsOk(s) && Safe(s)
    ensures Safe(Act(s, a)) <==> CleanStep(s, a)
  {
    if a.Commit? && s.stage.Committing? && !(s.raised <= s.settled) {
      var o :| o in s.raised && o !in s.settled;
      assert o < Act(s, a).committed;
    }
  }

  /** What a commit has passed without settling it is never delivered again. */
  lemma UnsafeStays(s: System, a: Action)
    requires OffsetsOk(s) && !Safe(s)
    ensures !Safe(Act(s, a))
  {
    var o: nat :| o < s.committed && o !in s.settled;
    assert o < Act(s, a).committed && o !in Act(s, a).settled;
  }

  /** Nothing is lost below the committed offset if and only if no commit followed an unsettled raise of the same
    * session. */
  lemma {:induction false} SafeIffCleanCommits(actions: seq<Action>)
    ensures Safe(Play(actions)) <==> CleanCommits(actions)
  {
    if actions != [] {
      var front, a := actions[..|actions| - 1], actions[|actions| - 1];
      SafeIffCleanCommits(front);
      OffsetsInEveryRun(front);
      if Safe(Play(front)) {
        StepIsSafeIffClean(Play(front), a);
      } else {
        UnsafeStays(Play(front), a);
      }
    }
  }

  ghost predicate NeverRaises(actions: seq<Action>) {
    forall k :: 0 <= k < |actions| ==> !actions[k].Raise?
  }

  lemma StepRaisesNothing(s: System, a: Action)
    requires s.raised == {} && !a.Raise?
    ensures Act(s, a).raised == {} && CleanStep(s, a)
  {}

  lemma {:induction false} NothingRaised(actions: seq<Action>)
    requires NeverRaises(actions)
    ensures Play(actions).raised == {} && CleanCommits(actions)
  {
    if actions != [] {
      NothingRaised(actions[..|actions| - 1]);
      StepRaisesNothing(Play(actions[..|actions| - 1]), actions[|actions| - 1]);
    }
  }

  /** If the handler either returns or dies with the process, every offset below the committed one is settled,
    * whatever crashes. */
  lemma AtLeastOnce(actions: seq<Action>)
    requires NeverRaises(actions)
    ensures Safe(Play(actions))
  {
    NothingRaised(actions);
    SafeIffCleanCommits(actions);
  }

  /** A known run goes on with action `a`. */
  lemma Extend(run: seq<Action>, s: System, a: Action, t: System) returns (longer: seq<Action>)
    requires Play(run) == s && Act(s, a) == t
    ensures longer == run + [a] && Play(longer) == t
  {
    longer := run + [a];
    assert longer[..|run|] == run;
  }

  const TWO_REFUNDS: seq<Action> := [Publish(Refund(1)), Publish(Refund(2)), Boot, Fetch]

  const FIRST_RAISES: seq<Action> := [Guard, Fail, Raise, Fetch]

  const SECOND_SUCCEEDS: seq<Action> := [Guard, Finish(Completed), Settle, Commit]

  lemma TwoRefunds()
    ensures Play(TWO_REFUNDS) == EMPTY.(log := [Refund(1), Refund(2)], position := 1, stage := Guarding(1))
  {
    var s1 := EMPTY.(log := [Refund(1)]);
    var s2 := EMPTY.(log := [Refund(1), Refund(2)]);
    var run := Extend([], EMPTY, Publish(Refund(1)), s1);
    run := Extend(run, s1, Publish(Refund(2)), s2);
    run := Extend(run, s2, Boot, s2.(stage := Polling));
    run := Extend(run, s2.(stage := Polling), Fetch, s2.(stage := Guarding(1), position := 1));
    assert run == TWO_REFUNDS;
  }

  lemma FirstRaises()
    ensures Play(TWO_REFUNDS + FIRST_RAISES) ==
      EMPTY.(log := [Refund(1), Refund(2)], position := 2, stage := Guarding(2), raised := {0})
  {
    TwoRefunds();
    var s := EMPTY.(log := [Refund(1), Refund(2)], position := 1);
    var run := Extend(TWO_REFUNDS, s.(stage := Guarding(1)), Guard, s.(stage := Executing(1)));
    run := Extend(run, s.(stage := Executing(1)), Fail, s.(stage := Failing(1)));
    run := Extend(run, s.(stage := Failing(1)), Raise, s.(stage := Polling, raised := {0}));
    var t := s.(stage := Polling, raised := {0});
    run := Extend(run, t, Fetch, t.(stage := Guarding(2), position := 2));
    assert run == TWO_REFUNDS + FIRST_RAISES;
  }

  /** A handler that raises without a crash is passed over: the next message's commit covers its offset. */
  lemma RaisedOffsetIsPassed()
    ensures
      var s := Play(TWO_REFUNDS + FIRST_RAISES + SECOND_SUCCEEDS);
      s.committed == 2 && 0 !in s.settled && !Safe(s)
  {
    FirstRaises();
    var s := EMPTY.(log := [Refund(1), Refund(2)], position := 2, raised := {0});
    var t := s.(records := map[2 := Completed], finals := map[2 := 1]);
    var u := t.(stage := Committing, settled := {1});
    var run := Extend(TWO_REFUNDS + FIRST_RAISES, s.(stage := Guarding(2)), Guard, s.(stage := Executing(2)));
    run := Extend(run, s.(stage := Executing(2)), Finish(Completed), t.(stage := Settling(2)));
    run := Extend(run, t.(stage := Settling(2)), Settle, u);
    run := Extend(run, u, Commit, u.(stage := Polling, committed := 2));
    assert run == TWO_REFUNDS + FIRST_RAISES + SECOND_SUCCEEDS;
  }

  // ---------------------------------------------------------------- results

  /** Finals not overwritten number at most one, none while the record is not final, and none while the task is
    * executing. */
  ghost predicate ResultsOk(s: System) {
    && (forall t {:trigger Count(s.finals, t)} :: Count(s.lost, t) <= Count(s.finals, t) <= Count(s.lost, t) + 1)
    && (forall t {:trigger Count(s.finals, t)} :: !IsFinal(s.records, t) ==> Count(s.finals, t) == Count(s.lost, t))
    && (s.stage.Executing? ==> Count(s.finals, s.stage.task) == Count(s.lost, s.stage.task))
  }

  /** The bounds of `ResultsOk` for one task. */
  ghost predicate ResultOk(s: System, t: TaskId) {
    && Count(s.lost, t) <= Count(s.finals, t) <= Count(s.lost, t) + 1
    && (!IsFinal(s.records, t) ==> Count(s.finals, t) == Count(s.lost, t))
  }

  /** Only these actions touch the records and their counts. */
  predicate Writes(a: Action) {
    a.Finish? || a.WriteError? || a.Expire? || a.Resolve?
  }

  lemma OtherActionsKeepRecords(s: System, a: Action)
    requires !Writes(a)
    ensures
      var s1 := Act(s, a);
      && s1.records == s.records && s1.finals == s.finals && s1.lost == s.lost
      && (s1.stage.Executing? && !s.stage.Executing? ==> !IsFinal(s.records, s1.stage.task))
      && (s1.stage.Executing? && s.stage.Executing? ==> s1.stage == s.stage)
  {}

  lemma WriteKeepsResult(s: System, a: Action, t: TaskId)
    requires ResultOk(s, t) && Writes(a)
    requires s.stage.Executing? && s.stage.task == t ==> Count(s.finals, t) == Count(s.lost, t)
    ensures ResultOk(Act(s, a), t)
    ensures
      var s1 := Act(s, a);
      s1.stage.Executing? && s1.stage.task == t ==> Count(s1.finals, t) == Count(s1.lost, t)
  {}

  lemma ActKeepsResults(s: System, a: Action)
    requires ResultsOk(s)
    ensures ResultsOk(Act(s, a))
  {
    var s1 := Act(s, a);
    if Writes(a) {
      forall t
        ensures ResultOk(s1, t)
        ensures s1.stage.Executing? && s1.stage.task == t ==> Count(s1.finals, t) == Count(s1.lost, t)
      {
        assert Count(s.lost, t) <= Count(s.finals, t) <= Count(s.lost, t) + 1;
        WriteKeepsResult(s, a, t);
      }
    } else {
      OtherActionsKeepRecords(s, a);
      if s1.stage.Executing? {
        assert Count(s.lost, s1.stage.task) <= Count(s.finals, s1.stage.task);
      }
    }
  }

  lemma {:induction false} ResultsInEveryRun(actions: seq<Action>)
    ensures ResultsOk(Play(actions))
  {
    if actions != [] {
      ResultsInEveryRun(actions[..|actions| - 1]);
      ActKeepsResults(Play(actions[..|actions| - 1]), actions[|actions| - 1]);
    }
  }

  /** Since the last expiry or resolution, executions wrote at most one final record more than error records
    * overwrote. */
  lemma AtMostOneSurvivingResult(actions: seq<Action>, t: TaskId)
    ensures
      var s := Play(actions);
      Count(s.finals, t) <= 1 + Count(s.lost, t)
  {
    ResultsInEveryRun(actions);
  }

  /** An execution's final record is the first since the last expiry or resolution exactly when none has been
    * overwritten. */
  lemma FirstResultIffNoneLost(actions: seq<Action>, r: Result)
    requires Play(actions).stage.Executing? && !r.Error?
    ensures
      var t := Play(actions).stage.task;
      var s := Act(Play(actions), Finish(r));
      Count(s.finals, t) == 1 <==> Count(s.lost, t) == 0
  {
    ResultsInEveryRun(actions);
  }

  /** The step, if it writes a final record, does so for a task none of whose final records has been overwritten. */
  ghost predicate CleanFinish(s: System, a: Action) {
    a.Finish? && s.stage.Executing? && !a.r.Error? ==> Count(s.lost, s.stage.task) == 0
  }

  ghost predicate CleanFinishes(actions: seq<Action>) {
    actions == [] ||
    (CleanFinishes(actions[..|actions| - 1]) && CleanFinish(Play(actions[..|actions| - 1]), actions[|actions| - 1]))
  }

  ghost predicate Single(s: System) {
    forall t {:trigger Count(s.finals, t)} :: Count(s.finals, t) <= 1
  }

  /** At every point of the run, executions have written at most one final record per task since its last expiry or
    * resolution. */
  ghost predicate AlwaysSingle(actions: seq<Action>) {
    Single(Play(actions)) && (actions == [] || AlwaysSingle(actions[..|actions| - 1]))
  }

  lemma StepIsSingleIffClean(s: System, a: Action)
    requires ResultsOk(s) && Single(s)
    ensures Single(Act(s, a)) <==> CleanFinish(s, a)
  {
    if a.Finish? && s.stage.Executing? && !a.r.Error? {
      var t, s1 := s.stage.task, Act(s, a);
      assert Count(s.finals, t) == Count(s.lost, t);
      forall u | u != t
        ensures Count(s1.finals, u) == Count(s.finals, u)
      {}
      assert Count(s1.finals, t) == Count(s.lost, t) + 1;
    } else {
      forall u
        ensures Count(Act(s, a).finals, u) <= Count(s.finals, u)
      {}
    }
  }

  /** One final record per task, all along the run, if and only if no execution finishes after an error record
    * overwrote one. */
  lemma {:induction false} AlwaysSingleIffCleanFinishes(actions: seq<Action>)
    ensures AlwaysSingle(actions) <==> CleanFinishes(actions)
  {
    if actions != [] {
      var front := actions[..|actions| - 1];
      AlwaysSingleIffCleanFinishes(front);
      ResultsInEveryRun(front);
      if Single(Play(front)) {
        StepIsSingleIffClean(Play(front), actions[|actions| - 1]);
      }
      assert AlwaysSingle(front) ==> Single(Play(front));
    }
  }

  /** No await raises while the guard reads, or after a final record is written. */
  ghost predicate FailsOnlyWhileExecuting(actions: seq<Action>) {
    actions == [] ||
    (FailsOnlyWhileExecuting(actions[..|actions| - 1]) &&
     (actions[|actions| - 1].Fail? ==>
        !Play(actions[..|actions| - 1]).stage.Guarding? && !Play(actions[..|actions| - 1]).stage.Settling?))
  }

  ghost predicate NoneLost(s: System) {
    && ResultsOk(s)
    && (forall t {:trigger Count(s.lost, t)} :: Count(s.lost, t) == 0)
    && (s.stage.Failing? ==> Count(s.finals, s.stage.task) == 0)
  }

  lemma StepOverwritesNothing(s: System, a: Action)
    requires NoneLost(s) && (a.Fail? ==> !s.stage.Guarding? && !s.stage.Settling?)
    ensures NoneLost(Act(s, a))
  {
    ActKeepsResults(s, a);
    var s1 := Act(s, a);
    forall t
      ensures Count(s1.lost, t) == 0
    {
      assert Count(s.lost, t) == 0;
    }
  }

  lemma {:induction false} NothingOverwritten(actions: seq<Action>)
    requires FailsOnlyWhileExecuting(actions)
    ensures NoneLost(Play(actions))
  {
    if actions != [] {
      NothingOverwritten(actions[..|actions| - 1]);
      StepOverwritesNothing(Play(actions[..|actions| - 1]), actions[|actions| - 1]);
    }
  }

  /** Then, across crashes and redeliveries, at most one execution per task writes a final record before expiry or
    * resolution. */
  lemma AtMostOneResult(actions: seq<Action>, t: TaskId)
    requires FailsOnlyWhileExecuting(actions)
    ensures Count(Play(actions).finals, t) <= 1
  {
    NothingOverwritten(actions);
    assert Count(Play(actions).lost, t) == 0;
  }

  const ONE_FINISHES: seq<Action> := [Guard, Finish(Completed), Fail, WriteError]

  const REDELIVERED: seq<Action> := [Crash, Boot, Fetch, Guard]

  /** Two refunds are on the topic; the error record of the first one's execution stands over its final record. */
  function Overwritten(): System {
    EMPTY.(log := [Refund(1), Refund(2)], position := 1, stage := Failed(1),
           records := map[1 := Error], finals := map[1 := 1], lost := map[1 := 1])
  }

  lemma OneFinishes()
    ensures Play(TWO_REFUNDS + ONE_FINISHES) == Overwritten()
  {
    TwoRefunds();
    var s := EMPTY.(log := [Refund(1), Refund(2)], position := 1);
    var t := s.(records := map[1 := Completed], finals := map[1 := 1]);
    var run := Extend(TWO_REFUNDS, s.(stage := Guarding(1)), Guard, s.(stage := Executing(1)));
    run := Extend(run, s.(stage := Executing(1)), Finish(Completed), t.(stage := Settling(1)));
    run := Extend(run, t.(stage := Settling(1)), Fail, t.(stage := Failing(1)));
    run := Extend(run, t.(stage := Failing(1)), WriteError, Overwritten());
    assert run == TWO_REFUNDS + ONE_FINISHES;
  }

  lemma Redelivered()
    ensures Play(TWO_REFUNDS + ONE_FINISHES + REDELIVERED) == Overwritten().(stage := Executing(1))
  {
    OneFinishes();
    var s := Overwritten();
    var run := Extend(TWO_REFUNDS + ONE_FINISHES, s, Crash, s.(stage := Down));
    run := Extend(run, s.(stage := Down), Boot, s.(stage := Polling, position := 0));
    run := Extend(run, s.(stage := Polling, position := 0), Fetch, s.(stage := Guarding(1)));
    run := Extend(run, s.(stage := Guarding(1)), Guard, s.(stage := Executing(1)));
    assert run == TWO_REFUNDS + ONE_FINISHES + REDELIVERED;
  }

  /** A failure after the final record overwrites it with an error, and a redelivery then writes a second final
    * record. */
  lemma OverwrittenResultIsRewritten()
    ensures Count(Play(TWO_REFUNDS + ONE_FINISHES + REDELIVERED + [Finish(Completed)]).finals, 1) == 2
  {
    Redelivered();
    var s := Overwritten().(stage := Executing(1));
    var run := Extend(TWO_REFUNDS + ONE_FINISHES + REDELIVERED, s, Finish(Completed),
      s.(stage := Settling(1), records := map[1 := Completed], finals := map[1 := 2]));
  }
}
