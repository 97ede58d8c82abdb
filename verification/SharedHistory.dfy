/** The common history of all tasks that share the breakers and the retry budget of one fallback chain, and where the
  * visits of a log stand in it. */
module SharedHistory {
  import Breaker = CircuitBreaker
  import Budget = RetryBudget
  import opened FallbackLog

  /** Every locked step of the budget and of the breakers, by any task. */
  datatype Past = Past(budget: seq<Budget.Event>, breakers: map<string, seq<Breaker.Event>>)

  /** `q` is `p` with more steps. */
  ghost predicate Later(p: Past, q: Past) {
    && p.budget <= q.budget
    && forall m :: m in p.breakers ==> m in q.breakers && p.breakers[m] <= q.breakers[m]
  }

  /** How many steps the breaker of model `m` had taken. */
  ghost function Length(p: Past, m: string): nat {
    if m in p.breakers then |p.breakers[m]| else 0
  }

  /** Step `k` of the history is a call that begins at time `at` and finds the breaker in state `s`. */
  ghost predicate BeginsAt(cfg: Breaker.Config, trace: seq<Breaker.Event>, k: nat, s: Breaker.State, at: real) {
    k < |trace| && trace[k] == Breaker.Begin(at) && Breaker.Run(cfg, trace[..k]) == s
  }

  /** Such a call began at or after step `from`. */
  ghost predicate Began(cfg: Breaker.Config, trace: seq<Breaker.Event>, from: nat, s: Breaker.State, at: real) {
    exists k: nat :: from <= k && BeginsAt(cfg, trace, k, s, at)
  }

  /** The event that reports how a call ended. */
  predicate Reports(e: Breaker.Event, success: bool) {
    if success then e.Success? else e.Failure?
  }

  ghost predicate CalledAt(
    cfg: Breaker.Config, trace: seq<Breaker.Event>, k: nat, j: nat, s: Breaker.State, at: real, success: bool)
  {
    BeginsAt(cfg, trace, k, s, at) && k < j < |trace| && Reports(trace[j], success)
  }

  /** Such a call began at or after step `from`, and afterwards its success or failure was reported to the breaker. */
  ghost predicate Called(
    cfg: Breaker.Config, trace: seq<Breaker.Event>, from: nat, s: Breaker.State, at: real, success: bool)
  {
    exists k: nat, j: nat :: from <= k && CalledAt(cfg, trace, k, j, s, at, success)
  }

  /** The breaker was in state `s` after `k` steps of the history. */
  ghost predicate WasAt(cfg: Breaker.Config, trace: seq<Breaker.Event>, k: nat, s: Breaker.State) {
    k <= |trace| && Breaker.Run(cfg, trace[..k]) == s
  }

  ghost predicate Was(cfg: Breaker.Config, trace: seq<Breaker.Event>, from: nat, s: Breaker.State) {
    exists k: nat :: from <= k && WasAt(cfg, trace, k, s)
  }

  /** Step `k` of the history asks for a retry at time `at` and finds the budget in state `b`. */
  ghost predicate AsksAt(cfg: Budget.Config, history: seq<Budget.Event>, k: nat, b: Budget.State, at: real) {
    k < |history| && history[k] == Budget.Acquire(at) && Budget.Replay(cfg, history[..k]).state == b
  }

  ghost predicate Asked(cfg: Budget.Config, history: seq<Budget.Event>, from: nat, b: Budget.State, at: real) {
    exists k: nat :: from <= k && AsksAt(cfg, history, k, b, at)
  }

  ghost predicate RetryRecorded(cfg: Budget.Config, history: seq<Budget.Event>, from: nat, r: Retry) {
    !r.LastModel? ==> Asked(cfg, history, from, r.budget, r.at)
  }

  /** The visit of model `m` at position `i` stands in the common history, after what had happened at `from`: the states
    * it saw, the call it began, the success or failure it reported, and the retry it asked for. */
  ghost predicate Recorded(limits: Limits, i: nat, m: string, from: Past, past: Past, v: Visit)
    requires i < |limits.breakers|
  {
    var cfg, n := limits.breakers[i], Length(from, m);
    m in past.breakers &&
    match v
    case Skipped(s, _) => Was(cfg, past.breakers[m], n, s)
    case Rejected(s, at) => Began(cfg, past.breakers[m], n, s, at)
    case Replied(s, at) => Called(cfg, past.breakers[m], n, s, at, true)
    case Failed(s, at, _, retry) =>
      Called(cfg, past.breakers[m], n, s, at, false) && RetryRecorded(limits.budget, past.budget, |from.budget|, retry)
  }

  ghost predicate AllRecorded(limits: Limits, models: seq<string>, from: Past, past: Past, log: seq<Visit>) {
    && |log| <= |models| == |limits.breakers|
    && forall i :: 0 <= i < |log| ==> Recorded(limits, i, models[i], from, past, log[i])
  }

  // ---------------------------------------------------------------- a later history records what an earlier one did

  lemma BeganLater(
    cfg: Breaker.Config, trace: seq<Breaker.Event>, more: seq<Breaker.Event>, from: nat, s: Breaker.State, at: real)
    requires Began(cfg, trace, from, s, at) && trace <= more
    ensures Began(cfg, more, from, s, at)
  {
    var k: nat :| from <= k && BeginsAt(cfg, trace, k, s, at);
    assert more[..k] == trace[..k];
    assert BeginsAt(cfg, more, k, s, at);
  }

  /** A call that began is over once its end is reported. */
  lemma CallEnds(
    cfg: Breaker.Config, trace: seq<Breaker.Event>, more: seq<Breaker.Event>, from: nat, s: Breaker.State, at: real,
    success: bool)
    requires Began(cfg, trace, from, s, at) && trace < more && Reports(more[|trace|], success)
    ensures Called(cfg, more, from, s, at, success)
  {
    var k: nat :| from <= k && BeginsAt(cfg, trace, k, s, at);
    assert more[..k] == trace[..k];
    assert CalledAt(cfg, more, k, |trace|, s, at, success);
  }

  lemma CalledLater(
    cfg: Breaker.Config, trace: seq<Breaker.Event>, more: seq<Breaker.Event>, from: nat, s: Breaker.State, at: real,
    success: bool)
    requires Called(cfg, trace, from, s, at, success) && trace <= more
    ensures Called(cfg, more, from, s, at, success)
  {
    var k: nat, j: nat :| from <= k && CalledAt(cfg, trace, k, j, s, at, success);
    assert more[..k] == trace[..k];
    assert CalledAt(cfg, more, k, j, s, at, success);
  }

  lemma WasLater(
    cfg: Breaker.Config, trace: seq<Breaker.Event>, more: seq<Breaker.Event>, from: nat, s: Breaker.State)
    requires Was(cfg, trace, from, s) && trace <= more
    ensures Was(cfg, more, from, s)
  {
    var k: nat :| from <= k && WasAt(cfg, trace, k, s);
    assert more[..k] == trace[..k];
    assert WasAt(cfg, more, k, s);
  }

  lemma RetryLater(cfg: Budget.Config, history: seq<Budget.Event>, more: seq<Budget.Event>, from: nat, r: Retry)
    requires RetryRecorded(cfg, history, from, r) && history <= more
    ensures RetryRecorded(cfg, more, from, r)
  {
    if !r.LastModel? {
      var k: nat :| from <= k && AsksAt(cfg, history, k, r.budget, r.at);
      assert more[..k] == history[..k];
      assert AsksAt(cfg, more, k, r.budget, r.at);
    }
  }

  lemma RecordedLater(limits: Limits, i: nat, m: string, from: Past, p: Past, q: Past, v: Visit)
    requires i < |limits.breakers| && Recorded(limits, i, m, from, p, v) && Later(p, q)
    ensures Recorded(limits, i, m, from, q, v)
  {
    var cfg, n := limits.breakers[i], Length(from, m);
    match v
    case Skipped(s, _) => WasLater(cfg, p.breakers[m], q.breakers[m], n, s);
    case Rejected(s, at) => BeganLater(cfg, p.breakers[m], q.breakers[m], n, s, at);
    case Replied(s, at) => CalledLater(cfg, p.breakers[m], q.breakers[m], n, s, at, true);
    case Failed(s, at, _, retry) =>
      CalledLater(cfg, p.breakers[m], q.breakers[m], n, s, at, false);
      RetryLater(limits.budget, p.budget, q.budget, |from.budget|, retry);
  }

  lemma LengthGrows(p: Past, q: Past, m: string)
    requires Later(p, q)
    ensures Length(p, m) <= Length(q, m) && |p.budget| <= |q.budget|
  {}

  /** What is recorded after a point is recorded after every earlier point. */
  lemma RecordedSinceEarlier(limits: Limits, i: nat, m: string, first: Past, from: Past, past: Past, v: Visit)
    requires i < |limits.breakers| && Recorded(limits, i, m, from, past, v) && Later(first, from)
    ensures Recorded(limits, i, m, first, past, v)
  {
    LengthGrows(first, from, m);
  }

  lemma AllRecordedLater(limits: Limits, models: seq<string>, from: Past, p: Past, q: Past, log: seq<Visit>)
    requires AllRecorded(limits, models, from, p, log) && Later(p, q)
    ensures AllRecorded(limits, models, from, q, log)
  {
    forall i | 0 <= i < |log|
      ensures Recorded(limits, i, models[i], from, q, log[i])
    {
      RecordedLater(limits, i, models[i], from, p, q, log[i]);
    }
  }

  lemma AllRecordedSinceEarlier(
    limits: Limits, models: seq<string>, first: Past, from: Past, past: Past, log: seq<Visit>)
    requires AllRecorded(limits, models, from, past, log) && Later(first, from)
    ensures AllRecorded(limits, models, first, past, log)
  {
    forall i | 0 <= i < |log|
      ensures Recorded(limits, i, models[i], first, past, log[i])
    {
      RecordedSinceEarlier(limits, i, models[i], first, from, past, log[i]);
    }
  }

  lemma AllRecordedAppend(limits: Limits, models: seq<string>, from: Past, past: Past, log: seq<Visit>, v: Visit)
    requires AllRecorded(limits, models, from, past, log) && |log| < |models|
    requires Recorded(limits, |log|, models[|log|], from, past, v)
    ensures AllRecorded(limits, models, from, past, log + [v])
  {}

  // ---------------------------------------------------------------- what the limits mean for a log

  /** Step `k` is a call that begins at least a recovery timeout after the latest failure before it. */
  ghost predicate Rested(cfg: Breaker.Config, trace: seq<Breaker.Event>, k: nat) {
    k < |trace| && trace[k].Begin? && trace[k].now - Breaker.LatestFailure(trace[..k]) >= cfg.recoveryTimeout
  }

  /** Whenever the breaker was open before step `k`, some call between then and step `k` came after the timeout. */
  ghost predicate OnlyAfterRest(cfg: Breaker.Config, trace: seq<Breaker.Event>, k: nat) {
    forall j {:trigger trace[..j]} :: 0 <= j <= k < |trace| && Breaker.Run(cfg, trace[..j]).phase.Open?
      ==> exists i :: j <= i <= k && Rested(cfg, trace, i)
  }

  lemma SplitTrace(trace: seq<Breaker.Event>, j: nat, k: nat, n: nat)
    requires j <= k < |trace| && n <= k - j
    ensures
      var later := trace[j..k + 1];
      trace[..j] + later[..n] == trace[..j + n] && later[n] == trace[j + n]
  {}

  lemma AdmittedAfterRest(cfg: Breaker.Config, trace: seq<Breaker.Event>, k: nat, j: nat)
    requires j <= k < |trace| && trace[k].Begin? && Breaker.Admits(cfg, Breaker.Run(cfg, trace[..k]), trace[k].now)
    requires Breaker.Run(cfg, trace[..j]).phase.Open?
    ensures exists i :: j <= i <= k && Rested(cfg, trace, i)
  {
    var before, later := trace[..j], trace[j..k + 1];
    SplitTrace(trace, j, k, k - j);
    if Breaker.TooEarly(cfg, before, later) {
      Breaker.OpenAdmitsNothingEarly(cfg, before, later);
    } else {
      var n :| 0 <= n < |later| && later[n].Begin?
        && later[n].now - Breaker.LatestFailure(before + later[..n]) >= cfg.recoveryTimeout;
      SplitTrace(trace, j, k, n);
      assert Rested(cfg, trace, j + n);
    }
  }

  /** A model is called only if, since its breaker was last seen open, some call came a recovery timeout after the
    * latest failure: whatever the other tasks do, an opened model rests. */
  lemma CalledModelHasRested(
    limits: Limits, outcome: Outcome, i: nat, m: string, from: Past, past: Past, v: Visit) returns (k: nat)
    requires i < |limits.breakers| && Explained(limits, outcome, i, v) && Recorded(limits, i, m, from, past, v)
    requires v.Replied? || v.Failed?
    ensures Length(from, m) <= k && BeginsAt(limits.breakers[i], past.breakers[m], k, v.seen, v.at)
    ensures OnlyAfterRest(limits.breakers[i], past.breakers[m], k)
  {
    var cfg, trace := limits.breakers[i], past.breakers[m];
    var end: nat;
    k, end :| Length(from, m) <= k && CalledAt(cfg, trace, k, end, v.seen, v.at, v.Replied?);
    assert trace[k] == Breaker.Begin(v.at) && Breaker.Run(cfg, trace[..k]) == v.seen;
    forall j {:trigger trace[..j]} | 0 <= j <= k && Breaker.Run(cfg, trace[..j]).phase.Open?
      ensures exists i :: j <= i <= k && Rested(cfg, trace, i)
    {
      AdmittedAfterRest(cfg, trace, k, j);
    }
  }

  /** Every call of the chain reports to the model's breaker: a success for a reply, and a failure otherwise. */
  lemma CallIsReported(
    limits: Limits, outcome: Outcome, i: nat, m: string, from: Past, past: Past, v: Visit) returns (k: nat, j: nat)
    requires i < |limits.breakers| && Explained(limits, outcome, i, v) && Recorded(limits, i, m, from, past, v)
    requires v.Replied? || v.Failed?
    ensures Length(from, m) <= k < j < |past.breakers[m]| && past.breakers[m][k] == Breaker.Begin(v.at)
    ensures if outcome.Replies? then past.breakers[m][j].Success? else past.breakers[m][j].Failure?
  {
    k, j :| Length(from, m) <= k && CalledAt(limits.breakers[i], past.breakers[m], k, j, v.seen, v.at, v.Replied?);
  }

  lemma {:induction false} MonotonePrefix(history: seq<Budget.Event>, now: real, k: nat)
    requires Budget.Monotone(history, now) && k < |history|
    ensures Budget.Monotone(history[..k], history[k].now)
    decreases |history|
  {
    var front := history[..|history| - 1];
    if k < |front| {
      MonotonePrefix(front, history[|front|].now, k);
      assert front[..k] == history[..k] && front[k] == history[k];
    }
  }

  /** A retry is granted exactly when, in the window that ends then, the retries granted to all tasks are fewer than
    * the limit and below the ratio of the requests that all tasks made. */
  lemma RetryFollowsHistory(cfg: Budget.Config, history: seq<Budget.Event>, now: real, from: nat, r: Retry)
    returns (k: nat)
    requires cfg.Valid() && Budget.Monotone(history, now) && !r.LastModel?
    requires RetryExplained(cfg, r) && RetryRecorded(cfg, history, from, r)
    ensures from <= k && AsksAt(cfg, history, k, r.budget, r.at)
    ensures r.Granted? <==> Budget.BelowLimits(cfg, Budget.Replay(cfg, history[..k]), r.at)
  {
    k :| from <= k && AsksAt(cfg, history, k, r.budget, r.at);
    MonotonePrefix(history, now, k);
    Budget.GrantsIffBelowLimits(cfg, history[..k], r.at);
  }

  /** Granted retries stay granted. */
  lemma {:induction false} GrantsStay(cfg: Budget.Config, history: seq<Budget.Event>, k: nat)
    requires k <= |history|
    ensures Budget.Replay(cfg, history[..k]).granted <= Budget.Replay(cfg, history).granted
  {
    if k == |history| {
      assert history[..k] == history;
    } else {
      var front := history[..|history| - 1];
      GrantsStay(cfg, front, k);
      assert front[..k] == history[..k];
    }
  }

  /** Every retry that a log shows as granted is among the grants that the limit per window counts. */
  lemma GrantIsCounted(cfg: Budget.Config, history: seq<Budget.Event>, from: nat, r: Retry)
    requires r.Granted? && RetryExplained(cfg, r) && RetryRecorded(cfg, history, from, r)
    ensures r.at in Budget.Replay(cfg, history).granted
  {
    var k: nat :| from <= k && AsksAt(cfg, history, k, r.budget, r.at);
    var before, after := history[..k], history[..k + 1];
    assert after[..k] == before && after[k] == history[k];
    var granted := Budget.Replay(cfg, after).granted;
    assert granted == Budget.Replay(cfg, before).granted + [r.at];
    assert granted[|granted| - 1] == r.at;
    GrantsStay(cfg, history, k + 1);
  }
}
