/** What one run of the model fallback chain of executor/resilience.py looks like, visit by visit. */
module FallbackLog {
  import Breaker = CircuitBreaker
  import Budget = RetryBudget

  /** What calling a model would do; `NoClient` is an unsupported provider, which fails before any model call. */
  datatype Outcome = Replies(text: string) | Raises | NoClient

  datatype Result = Reply(text: string) | BudgetExhausted | AllFailed

  /** What the budget, in the state that was seen, said to a retry; after the last model it is not asked. */
  datatype Retry = Granted(budget: Budget.State, at: real) | Denied(budget: Budget.State, at: real) | LastModel

  /** What happened at one position, with the breaker state that decided it and the time. */
  datatype Visit =
    | Skipped(seen: Breaker.State, at: real)
    | Rejected(seen: Breaker.State, at: real)
    | Replied(seen: Breaker.State, at: real)
    | Failed(seen: Breaker.State, at: real, called: bool, retry: Retry)
  {
    /** Number of model calls made. */
    ghost function Calls(): nat {
      if Replied? || (Failed? && called) then 1 else 0
    }

    /** Number of retries granted. */
    ghost function Grants(): nat {
      if Failed? && retry.Granted? then 1 else 0
    }

    /** The chain moves on to the next model after this visit. */
    ghost predicate MovesOn() {
      Skipped? || Rejected? || (Failed? && retry.Granted?)
    }
  }

  ghost function Calls(log: seq<Visit>): nat {
    if log == [] then 0 else Calls(log[..|log| - 1]) + log[|log| - 1].Calls()
  }

  ghost function Grants(log: seq<Visit>): nat {
    if log == [] then 0 else Grants(log[..|log| - 1]) + log[|log| - 1].Grants()
  }

  /** The configurations of the breakers, in priority order, and of the budget. */
  datatype Limits = Limits(breakers: seq<Breaker.Config>, budget: Budget.Config)

  /** The retry was granted or denied as the budget's two limits say. */
  ghost predicate RetryExplained(cfg: Budget.Config, retry: Retry) {
    match retry
    case Granted(b, at) => Budget.Grants(cfg, b, at)
    case Denied(b, at) => !Budget.Grants(cfg, b, at)
    case LastModel => true
  }

  /** The visit at position `i` agrees with the model's behaviour, and with what its breaker and the budget said. */
  ghost predicate Explained(limits: Limits, outcome: Outcome, i: nat, v: Visit)
    requires i < |limits.breakers|
  {
    var cfg := limits.breakers[i];
    match v
    case Skipped(s, at) => s.phase.Open? && at - s.lastFailureTime < cfg.recoveryTimeout
    case Rejected(s, at) => !Breaker.Admits(cfg, s, at)
    case Replied(s, at) => Breaker.Admits(cfg, s, at) && outcome.Replies?
    case Failed(s, at, called, retry) =>
      && Breaker.Admits(cfg, s, at)
      && !outcome.Replies?
      && called == outcome.Raises?
      && (retry.LastModel? <==> i == |limits.breakers| - 1)
      && RetryExplained(limits.budget, retry)
  }

  /** A log visits the models in priority order, each at most once, and stops as the result says. */
  ghost predicate IsLog(limits: Limits, env: nat -> Outcome, log: seq<Visit>, result: Result) {
    var n := |limits.breakers|;
    && |log| <= n
    && (forall i :: 0 <= i < |log| ==> Explained(limits, env(i), i, log[i]))
    && (forall i :: 0 <= i < |log| - 1 ==> log[i].MovesOn())
    && match result
       case Reply(text) => log != [] && log[|log| - 1].Replied? && env(|log| - 1) == Replies(text)
       case BudgetExhausted => log != [] && log[|log| - 1].Failed? && log[|log| - 1].retry.Denied?
       case AllFailed =>
         |log| == n && (log != [] ==> log[n - 1].Skipped? || log[n - 1].Rejected? || IsLastFailure(log[n - 1]))
  }

  ghost predicate IsLastFailure(v: Visit) {
    v.Failed? && v.retry.LastModel?
  }

  lemma LogAppend(log: seq<Visit>, v: Visit)
    ensures Calls(log + [v]) == Calls(log) + v.Calls() && Grants(log + [v]) == Grants(log) + v.Grants()
  {
    assert (log + [v])[..|log|] == log;
  }

  lemma {:induction false} MovingOnIsPaid(log: seq<Visit>)
    requires forall i :: 0 <= i < |log| ==> log[i].MovesOn()
    ensures Calls(log) <= Grants(log)
  {
    if log != [] {
      MovingOnIsPaid(log[..|log| - 1]);
    }
  }

  /** One `invoke` makes at most one model call more than it is granted retries. */
  lemma CallsWithinGrants(limits: Limits, env: nat -> Outcome, log: seq<Visit>, result: Result)
    requires IsLog(limits, env, log, result)
    ensures Calls(log) <= 1 + Grants(log)
  {
    if log != [] {
      MovingOnIsPaid(log[..|log| - 1]);
    }
  }

  /** When a model replies, every model before it was open or failed, and each of those failures was granted one
    * retry. */
  lemma ReplyExplainsEarlierModels(limits: Limits, env: nat -> Outcome, log: seq<Visit>, text: string)
    requires IsLog(limits, env, log, Reply(text))
    ensures forall i :: 0 <= i < |log| - 1 ==>
      match log[i]
      case Skipped(s, at) => s.phase.Open? && at - s.lastFailureTime < limits.breakers[i].recoveryTimeout
      case Rejected(s, at) => s.phase.Open? && at - s.lastFailureTime < limits.breakers[i].recoveryTimeout
      case Replied(_, _) => false
      case Failed(s, at, _, retry) =>
        && Breaker.Admits(limits.breakers[i], s, at) && !env(i).Replies?
        && retry.Granted? && Budget.Grants(limits.budget, retry.budget, retry.at)
    ensures log != [] && env(|log| - 1) == Replies(text)
    ensures
      var n := |log| - 1;
      log[n].Replied? && Breaker.Admits(limits.breakers[n], log[n].seen, log[n].at)
  {
    forall i | 0 <= i < |log| - 1
      ensures log[i].MovesOn() && Explained(limits, env(i), i, log[i])
    {}
  }

  // ---------------------------------------------------------------- growing a log

  /** The log of a chain that has not stopped yet. */
  ghost predicate IsProgress(limits: Limits, env: nat -> Outcome, log: seq<Visit>) {
    var n := |limits.breakers|;
    && |log| <= n
    && (forall i :: 0 <= i < |log| ==> Explained(limits, env(i), i, log[i]))
    && (forall i :: 0 <= i < |log| ==> log[i].MovesOn() || (i == n - 1 && IsLastFailure(log[i])))
  }

  /** The visit ends the invocation: a reply, or a denied retry. */
  predicate Ends(v: Visit) {
    v.Replied? || (v.Failed? && v.retry.Denied?)
  }

  function ResultOf(outcome: Outcome): Result {
    if outcome.Replies? then Reply(outcome.text) else BudgetExhausted
  }

  lemma VisitAdds(limits: Limits, env: nat -> Outcome, log: seq<Visit>, v: Visit)
    requires IsProgress(limits, env, log) && |log| < |limits.breakers|
    requires Explained(limits, env(|log|), |log|, v)
    ensures if Ends(v) then IsLog(limits, env, log + [v], ResultOf(env(|log|))) else IsProgress(limits, env, log + [v])
  {
    var more := log + [v];
    forall i | 0 <= i < |more|
      ensures Explained(limits, env(i), i, more[i]) && (i < |log| ==> more[i].MovesOn())
    {
      assert i < |log| ==> more[i] == log[i];
    }
  }

  // ---------------------------------------------------------------- several attempts

  /** The models' behaviour in every attempt. */
  type Attempts = nat -> (nat -> Outcome)

  /** All attempts so far found every model failing, and the budget granted a retry after each. */
  ghost predicate AllFailedSoFar(limits: Limits, env: Attempts, logs: seq<seq<Visit>>, asked: seq<Retry>) {
    && |asked| == |logs|
    && (forall a :: 0 <= a < |logs| ==> IsLog(limits, env(a), logs[a], AllFailed))
    && (forall a :: 0 <= a < |asked| ==> asked[a].Granted? && RetryExplained(limits.budget, asked[a]))
  }

  /** The last attempt ends as `result` says; between two attempts the budget granted a retry. */
  ghost predicate IsRetryLog(
    limits: Limits, env: Attempts, logs: seq<seq<Visit>>, asked: seq<Retry>, result: Result)
  {
    logs != [] &&
    (var n := |logs| - 1;
     && n <= |asked| && AllFailedSoFar(limits, env, logs[..n], asked[..n])
     && ((|asked| == n && IsLog(limits, env(n), logs[n], result))
         || (|asked| == n + 1 && IsLog(limits, env(n), logs[n], AllFailed)
             && asked[n].Denied? && RetryExplained(limits.budget, asked[n]) && result.BudgetExhausted?)))
  }

  lemma LastAttempt(
    limits: Limits, env: Attempts, logs: seq<seq<Visit>>, asked: seq<Retry>, log: seq<Visit>, result: Result)
    requires AllFailedSoFar(limits, env, logs, asked) && IsLog(limits, env(|logs|), log, result)
    ensures IsRetryLog(limits, env, logs + [log], asked, result)
  {
    assert (logs + [log])[..|logs|] == logs && asked[..|logs|] == asked;
  }

  lemma RetryAsked(
    limits: Limits, env: Attempts, logs: seq<seq<Visit>>, asked: seq<Retry>, log: seq<Visit>, r: Retry)
    requires AllFailedSoFar(limits, env, logs, asked) && IsLog(limits, env(|logs|), log, AllFailed)
    requires !r.LastModel? && RetryExplained(limits.budget, r)
    ensures if r.Granted? then AllFailedSoFar(limits, env, logs + [log], asked + [r])
            else IsRetryLog(limits, env, logs + [log], asked + [r], BudgetExhausted)
  {
    assert (logs + [log])[..|logs|] == logs && (asked + [r])[..|logs|] == asked;
  }
}
