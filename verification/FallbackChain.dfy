/** The model fallback chain of executor/resilience.py: circuit breakers and a retry budget around several models. Tasks
  * share the chain; between two of its own locked steps, a task lets the others take any steps of theirs. */
module FallbackChain {
  import Breaker = CircuitBreaker
  import Budget = RetryBudget
  import opened FallbackLog
  import opened SharedHistory

  class ModelFallbackChain {
    const models: seq<string>                          // in priority order
    const breakers: map<string, Breaker.CircuitBreaker>
    const budget: Budget.RetryBudget
    var clock: real                                    // the latest reading of the monotonic clock
    ghost var past: Past

    ghost const limits: Limits                         // the configurations, by position
    ghost const parts: set<object>                     // the breakers and the budget

    // Totals over the life of the chain.
    ghost var calls: nat
    ghost var requests: nat
    ghost var grants: nat

    ghost predicate Valid() {
      && (forall m :: m in breakers ==> breakers[m] in parts)
      && (forall m, n :: m in breakers && n in breakers && m != n ==> breakers[m] != breakers[n])
      && budget in parts && this !in parts && budget.cfg.Valid()
      && |limits.breakers| == |models| && limits.budget == budget.cfg
      && forall i :: 0 <= i < |models| ==> models[i] in breakers && limits.breakers[i] == breakers[models[i]].cfg
    }

    /** The breaker of model `m` is in the state that its history leads to. */
    ghost predicate BreakerLinked(m: string)
      requires m in breakers
      reads this`past, breakers[m]
    {
      m in past.breakers && Breaker.Run(breakers[m].cfg, past.breakers[m]) == breakers[m].View()
    }

    /** The budget is in the state that its history leads to, and the clock has not run backwards. */
    ghost predicate BudgetLinked()
      reads this`past, this`clock, budget
    {
      && Budget.Monotone(past.budget, clock)
      && Budget.Replay(budget.cfg, past.budget).state == budget.View()
    }

    ghost predicate Linked()
      requires Valid()
      reads this, parts
    {
      BudgetLinked() && forall m {:trigger BreakerLinked(m)} :: m in breakers ==> BreakerLinked(m)
    }

    ghost predicate Accounted()
      reads this
    {
      calls <= requests + grants
    }

    constructor (names: seq<string>, breakerConfig: Breaker.Config, budgetConfig: Budget.Config, now: real)
      requires budgetConfig.Valid()
      ensures Valid() && Linked() && Accounted() && models == names
      ensures limits.budget == budgetConfig && forall i :: 0 <= i < |names| ==> limits.breakers[i] == breakerConfig
      ensures fresh(parts)
    {
      var made: map<string, Breaker.CircuitBreaker> := map[];
      for i := 0 to |names|
        invariant forall j :: 0 <= j < i ==> names[j] in made
        invariant forall m :: m in made ==> made[m].cfg == breakerConfig && made[m].View() == Breaker.INITIAL
        invariant forall m :: m in made ==> fresh(made[m])
        invariant forall m, n :: m in made && n in made && m != n ==> made[m] != made[n]
      {
        var b := new Breaker.CircuitBreaker(breakerConfig);
        made := made[names[i] := b];
      }
      var b := new Budget.RetryBudget(budgetConfig);
      models, breakers, budget := names, made, b;
      clock, calls, requests, grants := now, 0, 0, 0;
      past := Past([], map m | m in made :: []);
      limits := Limits(seq(|names|, i => breakerConfig), budgetConfig);
      parts := (set m | m in made :: made[m]) + {b};
    }

    // -------------------------------------------------------------- locked steps

    /** `time.monotonic()`. */
    method Now() returns (t: real)
      requires Valid() && Linked()
      modifies this`clock
      ensures Linked() && old(clock) <= t == clock
    {
      t := *;
      if t < clock {
        t := clock;
      }
      clock := t;
      assert BudgetLinked();
      forall m | m in breakers
        ensures BreakerLinked(m)
      {
        assert old(BreakerLinked(m));
      }
    }

    /** The other breakers stay linked when one of them takes a step. */
    twostate lemma OthersStayLinked(m: string)
      requires Valid() && m in breakers && old(Linked()) && BudgetLinked() && BreakerLinked(m)
      requires forall n :: n in breakers && n != m ==> breakers[n].View() == old(breakers[n].View())
      requires forall n :: n in old(past.breakers) && n != m ==>
        n in past.breakers && past.breakers[n] == old(past.breakers)[n]
      ensures Linked()
    {
      forall n | n in breakers && n != m
        ensures BreakerLinked(n)
      {
        assert old(BreakerLinked(n));
      }
    }

    /** Write a step of the breaker of model `m` into the history. */
    ghost method Extend(m: string, e: Breaker.Event)
      requires m in past.breakers
      modifies this`past
      ensures past == old(past).(breakers := old(past.breakers)[m := old(past.breakers)[m] + [e]])
    {
      past := past.(breakers := past.breakers[m := past.breakers[m] + [e]]);
    }

    /** `_before_call` of the breaker of model `m`. */
    method Begin(m: string) returns (admitted: bool, ghost seen: Breaker.State, at: real)
      requires Valid() && Linked() && m in breakers
      modifies breakers[m], this`past, this`clock
      ensures Linked() && Later(old(past), past) && m in past.breakers
      ensures Began(breakers[m].cfg, past.breakers[m], Length(old(past), m), seen, at)
      ensures admitted <==> Breaker.Admits(breakers[m].cfg, seen, at)
    {
      assert BreakerLinked(m);
      ghost var cfg, trace := breakers[m].cfg, past.breakers[m];
      at := Now();
      seen := breakers[m].View();
      admitted := breakers[m].BeforeCall(at);
      Extend(m, Breaker.Begin(at));
      Breaker.RunAppend(cfg, trace, Breaker.Begin(at));
      OthersStayLinked(m);
      BeganLast(cfg, trace, seen, at);
    }

    /** `_on_success` of the breaker of model `m`. */
    method Succeed(m: string)
      requires Valid() && Linked() && m in breakers
      modifies breakers[m], this`past
      ensures Linked() && Later(old(past), past)
      ensures Reported(old(past), past, m, true)
    {
      assert BreakerLinked(m);
      ghost var cfg, trace := breakers[m].cfg, past.breakers[m];
      breakers[m].OnSuccess();
      Extend(m, Breaker.Success);
      Breaker.RunAppend(cfg, trace, Breaker.Success);
      OthersStayLinked(m);
    }

    /** `_on_failure` of the breaker of model `m`. */
    method Fail(m: string)
      requires Valid() && Linked() && m in breakers
      modifies breakers[m], this`past, this`clock
      ensures Linked() && Later(old(past), past)
      ensures Reported(old(past), past, m, false)
    {
      assert BreakerLinked(m);
      ghost var cfg, trace := breakers[m].cfg, past.breakers[m];
      var now := Now();
      breakers[m].OnFailure(now);
      Extend(m, Breaker.Failure(now));
      Breaker.RunAppend(cfg, trace, Breaker.Failure(now));
      OthersStayLinked(m);
    }

    /** The breakers stay linked when the budget takes a step. */
    twostate lemma BreakersStayLinked()
      requires Valid() && old(Linked()) && BudgetLinked() && past.breakers == old(past.breakers)
      requires forall m :: m in breakers ==> breakers[m].View() == old(breakers[m].View())
      ensures Linked()
    {
      forall m | m in breakers
        ensures BreakerLinked(m)
      {
        assert old(BreakerLinked(m));
      }
    }

    /** `acquire` of the budget. */
    method Acquire() returns (granted: bool, ghost seen: Budget.State, at: real)
      requires Valid() && Linked()
      modifies budget, this`past, this`clock
      ensures Linked() && Later(old(past), past) && Asked(budget.cfg, past.budget, |old(past.budget)|, seen, at)
      ensures granted <==> Budget.Grants(budget.cfg, seen, at)
    {
      ghost var history := past.budget;
      at := Now();
      seen := budget.View();
      granted := budget.TryAcquire(at);
      past := past.(budget := history + [Budget.Acquire(at)]);
      assert BudgetLinked() by {
        StepAppend(budget.cfg, history, Budget.Acquire(at));
      }
      BreakersStayLinked();
      AskedLast(budget.cfg, history, seen, at);
    }

    /** `record_request` of the budget. */
    method RecordRequest()
      requires Valid() && Linked()
      modifies budget, this`past, this`clock
      ensures Linked() && Later(old(past), past) && NextIsRequest(old(past), past)
    {
      ghost var history := past.budget;
      var now := Now();
      budget.RecordRequest(now);
      past := past.(budget := history + [Budget.Request(now)]);
      assert BudgetLinked() by {
        StepAppend(budget.cfg, history, Budget.Request(now));
      }
      BreakersStayLinked();
    }

    // -------------------------------------------------------------- other tasks

    /** One locked step of another task. */
    method OtherStep()
      requires Valid() && Linked()
      modifies parts, this`past, this`clock
      ensures Linked() && Later(old(past), past)
    {
      var kind: int := *;
      if kind == 0 {
        RecordRequest();
      } else if kind == 1 {
        var granted, _, at := Acquire();
      } else {
        var m: string := *;
        if m in breakers {
          if kind == 2 {
            var admitted, _, at := Begin(m);
          } else if kind == 3 {
            Succeed(m);
          } else {
            Fail(m);
          }
        }
      }
    }

    /** While this task awaits, other tasks take any number of locked steps. */
    method Yield()
      requires Valid() && Linked()
      modifies parts, this`past, this`clock
      ensures Linked() && Later(old(past), past)
    {
      var n: int := *;
      if n < 0 {
        n := 0;
      }
      for i := 0 to n
        invariant Linked() && Later(old(past), past)
      {
        OtherStep();
      }
    }

    // -------------------------------------------------------------- one model

    /** Ask the budget for one retry before the next model or attempt. */
    method AskRetry() returns (granted: bool, ghost retry: Retry)
      requires Valid() && Linked()
      modifies parts, this`past, this`clock, this`grants
      ensures Linked() && Later(old(past), past)
      ensures if granted then retry.Granted? else retry.Denied?
      ensures RetryExplained(budget.cfg, retry) && RetryRecorded(budget.cfg, past.budget, |old(past.budget)|, retry)
      ensures grants == old(grants) + if granted then 1 else 0
    {
      Yield();
      ghost var seen;
      var at;
      granted, seen, at := Acquire();
      retry := if granted then Granted(seen, at) else Denied(seen, at);
      if granted {
        grants := grants + 1;
      }
    }

    /** The model at position `i`: skip it, or call it inside its breaker and on failure ask for a retry. */
    method Visit(i: nat, outcome: Outcome) returns (ghost v: Visit, result: Result, done: bool)
      requires Valid() && Linked() && i < |models|
      modifies parts, this`past, this`clock, this`calls, this`grants
      ensures Linked() && Later(old(past), past)
      ensures Explained(limits, outcome, i, v) && Recorded(limits, i, models[i], old(past), past, v)
      ensures calls == old(calls) + v.Calls() && grants == old(grants) + v.Grants()
      ensures done <==> Ends(v)
      ensures done ==> result == ResultOf(outcome)
    {
      result, done := AllFailed, false;
      Yield();
      var m := models[i];
      assert BreakerLinked(m);
      if breakers[m].phase == Breaker.Open {
        var now := Now();
        if now - breakers[m].lastFailureTime < breakers[m].cfg.recoveryTimeout {
          v := Skipped(breakers[m].View(), now);
          WasLast(breakers[m].cfg, past.breakers[m], Length(old(past), m), breakers[m].View());
          return;
        }
      }
      Yield();
      ghost var before := past;
      v, result, done := Call(i, outcome);
      RecordedSinceEarlier(limits, i, m, old(past), before, past, v);
    }

    /** The guarded call of the model at position `i`. */
    method Call(i: nat, outcome: Outcome) returns (ghost v: Visit, result: Result, done: bool)
      requires Valid() && Linked() && i < |models|
      modifies parts, this`past, this`clock, this`calls, this`grants
      ensures Linked() && Later(old(past), past) && !v.Skipped?
      ensures Explained(limits, outcome, i, v) && Recorded(limits, i, models[i], old(past), past, v)
      ensures calls == old(calls) + v.Calls() && grants == old(grants) + v.Grants()
      ensures done <==> Ends(v)
      ensures done ==> result == ResultOf(outcome)
    {
      var m := models[i];
      ghost var seen;
      var admitted, at;
      admitted, seen, at := Begin(m);
      if !admitted {
        v, result, done := Rejected(seen, at), AllFailed, false;
        return;
      }
      ghost var begun := past;
      Yield();
      BeganLater(limits.breakers[i], begun.breakers[m], past.breakers[m], Length(old(past), m), seen, at);
      v, result, done := Conclude(i, outcome, old(past), seen, at);
    }

    /** The end of a call that was admitted: the model's reply or failure. */
    method Conclude(i: nat, outcome: Outcome, ghost from: Past, ghost seen: Breaker.State, ghost at: real)
      returns (ghost v: Visit, result: Result, done: bool)
      requires Valid() && Linked() && i < |models| && models[i] in past.breakers && Later(from, past)
      requires Breaker.Admits(limits.breakers[i], seen, at)
      requires Began(limits.breakers[i], past.breakers[models[i]], Length(from, models[i]), seen, at)
      modifies parts, this`past, this`clock, this`calls, this`grants
      ensures Linked() && Later(old(past), past) && !v.Skipped?
      ensures Explained(limits, outcome, i, v) && Recorded(limits, i, models[i], from, past, v)
      ensures calls == old(calls) + v.Calls() && grants == old(grants) + v.Grants()
      ensures done <==> Ends(v)
      ensures done ==> result == ResultOf(outcome)
    {
      if outcome.Replies? {
        calls := calls + 1;
        Succeed(models[i]);
        v, result, done := Replied(seen, at), Reply(outcome.text), true;
        ReplyIsRecorded(limits, i, models[i], from, old(past), past, seen, at);
      } else {
        calls := calls + if outcome.Raises? then 1 else 0;
        ghost var retry;
        retry, done := GiveUp(i);
        result := if done then BudgetExhausted else AllFailed;
        v := Failed(seen, at, outcome.Raises?, retry);
        FailureIsRecorded(limits, i, models[i], from, old(past), past, seen, at, outcome.Raises?, retry);
      }
    }

    /** After a failure: report it to the breaker, and ask for a retry unless this was the last model. */
    method GiveUp(i: nat) returns (ghost retry: Retry, denied: bool)
      requires Valid() && Linked() && i < |models|
      modifies parts, this`past, this`clock, this`grants
      ensures Linked() && Later(old(past), past) && Reported(old(past), past, models[i], false)
      ensures RetryExplained(limits.budget, retry)
      ensures RetryRecorded(limits.budget, past.budget, |old(past.budget)|, retry)
      ensures (retry.LastModel? <==> i == |models| - 1) && (denied <==> retry.Denied?)
      ensures grants == old(grants) + if retry.Granted? then 1 else 0
    {
      Fail(models[i]);
      ghost var failed := past;
      retry, denied := LastModel, false;
      if i < |models| - 1 {
        var canRetry;
        canRetry, retry := AskRetry();
        denied := !canRetry;
        ReportedLater(old(past), failed, past, models[i], false);
      }
    }

    // -------------------------------------------------------------- invocations

    /** `invoke`: record the request, then try the models. */
    method Invoke(env: nat -> Outcome) returns (result: Result, ghost log: seq<Visit>)
      requires Valid() && Linked() && Accounted()
      modifies parts, this`past, this`clock, this`calls, this`grants, this`requests
      ensures Linked() && Later(old(past), past) && Accounted()
      ensures NextIsRequest(old(past), past)
      ensures IsLog(limits, env, log, result) && AllRecorded(limits, models, old(past), past, log)
      ensures calls == old(calls) + Calls(log) && grants == old(grants) + Grants(log) && requests == old(requests) + 1
    {
      RecordRequest();
      requests := requests + 1;
      ghost var before := past;
      result, log := TryModels(env);
      AllRecordedSinceEarlier(limits, models, old(past), before, past, log);
      CallsWithinGrants(limits, env, log, result);
    }

    /** The loop of `invoke` over the models in priority order. */
    method TryModels(env: nat -> Outcome) returns (result: Result, ghost log: seq<Visit>)
      requires Valid() && Linked()
      modifies parts, this`past, this`clock, this`calls, this`grants
      ensures Linked() && Later(old(past), past)
      ensures IsLog(limits, env, log, result) && AllRecorded(limits, models, old(past), past, log)
      ensures calls == old(calls) + Calls(log) && grants == old(grants) + Grants(log)
    {
      log := [];
      for i := 0 to |models|
        invariant Linked() && Later(old(past), past)
        invariant |log| == i && IsProgress(limits, env, log) && AllRecorded(limits, models, old(past), past, log)
        invariant calls == old(calls) + Calls(log) && grants == old(grants) + Grants(log)
      {
        ghost var before := past;
        ghost var v;
        var done;
        v, result, done := Visit(i, env(i));
        OneMoreVisit(limits, models, env, old(past), before, past, log, v);
        log := log + [v];
        if done {
          return;
        }
      }
      result := AllFailed;
    }

    /** One attempt of `invoke_with_retry`, and the retry asked for after it unless it is the last or ends the run. */
    method Attempt(
      env: Attempts, n: nat, last: bool, ghost from: Past, ghost logs: seq<seq<Visit>>, ghost asked: seq<Retry>)
      returns (result: Result, done: bool, ghost log: seq<Visit>, ghost retries: seq<Retry>)
      requires Valid() && Linked() && Accounted() && |logs| == n
      requires AllFailedSoFar(limits, env, logs, asked)
      requires Later(from, past) && AttemptsRecorded(limits, models, from, past, logs, asked)
      modifies parts, this`past, this`clock, this`calls, this`grants, this`requests
      ensures Linked() && Later(old(past), past) && AttemptsRecorded(limits, models, from, past, logs + [log], retries)
      ensures Accounted() && calls - old(calls) <= 1 + (grants - old(grants)) && requests == old(requests) + 1
      ensures if done then IsRetryLog(limits, env, logs + [log], retries, result)
              else AllFailedSoFar(limits, env, logs + [log], retries)
      ensures if result.AllFailed? then done == last else done
    {
      ghost var before := past;
      result, log := Invoke(env(n));
      CallsWithinGrants(limits, env(n), log, result);
      AttemptRecorded(limits, models, from, before, past, logs, asked, log);
      retries, done := asked, true;
      if !result.AllFailed? || last {
        LastAttempt(limits, env, logs, asked, log, result);
        return;
      }
      before := past;
      ghost var retry;
      var canRetry;
      canRetry, retry := AskRetry();
      RetryAsked(limits, env, logs, asked, log, retry);
      AskRecorded(limits, models, from, before, past, logs + [log], asked, retry);
      retries, done := asked + [retry], !canRetry;
      if !canRetry {
        result := BudgetExhausted;
      }
    }

    /** `invoke_with_retry`: whole invocations, with one more retry asked for between two of them. */
    method InvokeWithRetry(maxAttempts: nat, env: Attempts)
      returns (result: Result, ghost logs: seq<seq<Visit>>, ghost asked: seq<Retry>)
      requires Valid() && Linked() && Accounted()
      modifies parts, this`past, this`clock, this`calls, this`grants, this`requests
      ensures Linked() && Later(old(past), past) && AttemptsRecorded(limits, models, old(past), past, logs, asked)
      ensures Accounted() && calls - old(calls) <= |logs| + (grants - old(grants))
      ensures |logs| <= maxAttempts && requests == old(requests) + |logs|
      ensures if maxAttempts == 0 then logs == [] && result.AllFailed? else IsRetryLog(limits, env, logs, asked, result)
      ensures result.AllFailed? ==> |logs| == maxAttempts
    {
      logs, asked, result := [], [], AllFailed;
      for attempt := 0 to maxAttempts
        invariant Linked() && Later(old(past), past) && AttemptsRecorded(limits, models, old(past), past, logs, asked)
        invariant |logs| == attempt && requests == old(requests) + attempt && result.AllFailed?
        invariant calls - old(calls) <= attempt + (grants - old(grants)) && Accounted()
        invariant AllFailedSoFar(limits, env, logs, asked) && (attempt == maxAttempts ==> attempt == 0)
      {
        ghost var log;
        var done;
        result, done, log, asked := Attempt(env, attempt, attempt == maxAttempts - 1, old(past), logs, asked);
        logs := logs + [log];
        if done {
          return;
        }
      }
    }

    // -------------------------------------------------------------- what the shared limits guarantee

    /** After any runs of the chain by any tasks: every interval as long as the window contains at most the limit of
      * granted retries. */
    lemma GrantsPerWindow(from: real, to: real)
      requires Valid() && Linked() && to == from + budget.cfg.window
      ensures Budget.CountIn(Budget.Replay(budget.cfg, past.budget).granted, from, to) <= budget.cfg.maxRetries
    {
      Budget.RollingWindowCap(budget.cfg, past.budget, clock, from, to);
    }
  }

  /** The next step of model `m`'s breaker after `p` reports a success or a failure. */
  ghost predicate Reported(p: Past, q: Past, m: string, success: bool) {
    && m in p.breakers && m in q.breakers && p.breakers[m] < q.breakers[m]
    && Reports(q.breakers[m][|p.breakers[m]|], success)
  }

  lemma ReportedLater(p: Past, q: Past, r: Past, m: string, success: bool)
    requires Reported(p, q, m, success) && Later(q, r)
    ensures Reported(p, r, m, success)
  {}

  /** The budget's next step after `p` records a request. */
  ghost predicate NextIsRequest(p: Past, q: Past) {
    p.budget < q.budget && q.budget[|p.budget|].Request?
  }

  lemma BeganLast(cfg: Breaker.Config, trace: seq<Breaker.Event>, s: Breaker.State, at: real)
    requires Breaker.Run(cfg, trace) == s
    ensures Began(cfg, trace + [Breaker.Begin(at)], |trace|, s, at)
  {
    assert (trace + [Breaker.Begin(at)])[..|trace|] == trace;
    assert BeginsAt(cfg, trace + [Breaker.Begin(at)], |trace|, s, at);
  }

  lemma AskedLast(cfg: Budget.Config, history: seq<Budget.Event>, b: Budget.State, at: real)
    requires Budget.Replay(cfg, history).state == b
    ensures Asked(cfg, history + [Budget.Acquire(at)], |history|, b, at)
  {
    assert (history + [Budget.Acquire(at)])[..|history|] == history;
    assert AsksAt(cfg, history + [Budget.Acquire(at)], |history|, b, at);
  }

  /** A step now keeps the history monotone and moves the budget by one step. */
  lemma StepAppend(cfg: Budget.Config, history: seq<Budget.Event>, e: Budget.Event)
    requires Budget.Monotone(history, e.now)
    ensures Budget.Monotone(history + [e], e.now)
    ensures Budget.Replay(cfg, history + [e]).state == Budget.Step(cfg, Budget.Replay(cfg, history).state, e)
  {
    assert (history + [e])[..|history|] == history;
  }

  lemma WasLast(cfg: Breaker.Config, trace: seq<Breaker.Event>, from: nat, s: Breaker.State)
    requires Breaker.Run(cfg, trace) == s && from <= |trace|
    ensures Was(cfg, trace, from, s)
  {
    assert trace[..|trace|] == trace;
    assert WasAt(cfg, trace, |trace|, s);
  }

  lemma ReplyIsRecorded(
    limits: Limits, i: nat, m: string, from: Past, p: Past, q: Past, s: Breaker.State, at: real)
    requires i < |limits.breakers| && Reported(p, q, m, true)
    requires Began(limits.breakers[i], p.breakers[m], Length(from, m), s, at)
    ensures Recorded(limits, i, m, from, q, Replied(s, at))
  {
    CallEnds(limits.breakers[i], p.breakers[m], q.breakers[m], Length(from, m), s, at, true);
  }

  lemma FailureIsRecorded(
    limits: Limits, i: nat, m: string, from: Past, p: Past, q: Past,
    s: Breaker.State, at: real, called: bool, retry: Retry)
    requires i < |limits.breakers| && Reported(p, q, m, false) && Later(from, p)
    requires Began(limits.breakers[i], p.breakers[m], Length(from, m), s, at)
    requires RetryRecorded(limits.budget, q.budget, |p.budget|, retry)
    ensures Recorded(limits, i, m, from, q, Failed(s, at, called, retry))
  {
    CallEnds(limits.breakers[i], p.breakers[m], q.breakers[m], Length(from, m), s, at, false);
    LengthGrows(from, p, m);
  }

  lemma OneMoreVisit(
    limits: Limits, models: seq<string>, env: nat -> Outcome, from: Past, p: Past, q: Past, log: seq<Visit>, v: Visit)
    requires IsProgress(limits, env, log) && AllRecorded(limits, models, from, p, log) && Later(from, p) && Later(p, q)
    requires |log| < |models| && Explained(limits, env(|log|), |log|, v)
    requires Recorded(limits, |log|, models[|log|], p, q, v)
    ensures AllRecorded(limits, models, from, q, log + [v])
    ensures Calls(log + [v]) == Calls(log) + v.Calls() && Grants(log + [v]) == Grants(log) + v.Grants()
    ensures if Ends(v) then IsLog(limits, env, log + [v], ResultOf(env(|log|))) else IsProgress(limits, env, log + [v])
  {
    AllRecordedLater(limits, models, from, p, q, log);
    RecordedSinceEarlier(limits, |log|, models[|log|], from, p, q, v);
    AllRecordedAppend(limits, models, from, q, log, v);
    LogAppend(log, v);
    VisitAdds(limits, env, log, v);
  }

  /** The visits of all attempts and the retries between them stand in the common history. */
  ghost predicate AttemptsRecorded(
    limits: Limits, models: seq<string>, from: Past, past: Past, logs: seq<seq<Visit>>, asked: seq<Retry>)
  {
    && (forall a :: 0 <= a < |logs| ==> AllRecorded(limits, models, from, past, logs[a]))
    && (forall a :: 0 <= a < |asked| ==> RetryRecorded(limits.budget, past.budget, |from.budget|, asked[a]))
  }

  lemma AttemptsRecordedLater(
    limits: Limits, models: seq<string>, from: Past, p: Past, q: Past, logs: seq<seq<Visit>>, asked: seq<Retry>)
    requires AttemptsRecorded(limits, models, from, p, logs, asked) && Later(p, q)
    ensures AttemptsRecorded(limits, models, from, q, logs, asked)
  {
    forall a | 0 <= a < |logs|
      ensures AllRecorded(limits, models, from, q, logs[a])
    {
      AllRecordedLater(limits, models, from, p, q, logs[a]);
    }
    forall a | 0 <= a < |asked|
      ensures RetryRecorded(limits.budget, q.budget, |from.budget|, asked[a])
    {
      RetryLater(limits.budget, p.budget, q.budget, |from.budget|, asked[a]);
    }
  }

  lemma AttemptRecorded(
    limits: Limits, models: seq<string>, from: Past, p: Past, q: Past,
    logs: seq<seq<Visit>>, asked: seq<Retry>, log: seq<Visit>)
    requires AttemptsRecorded(limits, models, from, p, logs, asked) && Later(from, p) && Later(p, q)
    requires AllRecorded(limits, models, p, q, log)
    ensures AttemptsRecorded(limits, models, from, q, logs + [log], asked)
  {
    AttemptsRecordedLater(limits, models, from, p, q, logs, asked);
    AllRecordedSinceEarlier(limits, models, from, p, q, log);
  }

  lemma AskRecorded(
    limits: Limits, models: seq<string>, from: Past, p: Past, q: Past,
    logs: seq<seq<Visit>>, asked: seq<Retry>, r: Retry)
    requires AttemptsRecorded(limits, models, from, p, logs, asked) && Later(from, p) && Later(p, q)
    requires RetryRecorded(limits.budget, q.budget, |p.budget|, r)
    ensures AttemptsRecorded(limits, models, from, q, logs, asked + [r])
  {
    AttemptsRecordedLater(limits, models, from, p, q, logs, asked);
  }
}
