/** The circuit breaker of executor/resilience.py as a machine over its locked steps, and what its history says
  * about it. */
module CircuitBreaker {

  datatype Phase = Closed | Open | HalfOpen

  datatype Config = Config(failureThreshold: nat, recoveryTimeout: real, successThreshold: nat) {
    ghost predicate Valid() {
      failureThreshold >= 1 && successThreshold >= 1
    }
  }

  datatype State = State(
    phase: Phase,
    failureCount: nat,
    successCount: nat,
    lastFailureTime: real,
    totalCalls: nat,
    totalFailures: nat,
    totalRejections: nat)

  /** One locked step: a call begins, a call succeeds, or a call fails with an exception that is not excluded. */
  datatype Event = Begin(now: real) | Success | Failure(now: real)

  const INITIAL := State(Closed, 0, 0, 0.0, 0, 0, 0)

  predicate Admits(cfg: Config, s: State, now: real) {
    s.phase.Open? ==> now - s.lastFailureTime >= cfg.recoveryTimeout
  }

  function Step(cfg: Config, s: State, e: Event): State {
    match e
    case Begin(now) =>
      var s1 := s.(totalCalls := s.totalCalls + 1);
      if !Admits(cfg, s, now) then s1.(totalRejections := s.totalRejections + 1)
      else if s.phase.Open? then s1.(phase := HalfOpen, successCount := 0)
      else s1
    case Success =>
      if s.phase.HalfOpen? then
        if s.successCount + 1 >= cfg.successThreshold
        then s.(successCount := s.successCount + 1, phase := Closed, failureCount := 0)
        else s.(successCount := s.successCount + 1)
      else if s.phase.Closed? then s.(failureCount := 0)
      else s
    case Failure(now) =>
      var s1 := s.(totalFailures := s.totalFailures + 1, lastFailureTime := now);
      if s.phase.HalfOpen? then s1.(phase := Open)
      else if s.phase.Closed? then
        s1.(failureCount := s.failureCount + 1,
            phase := if s.failureCount + 1 >= cfg.failureThreshold then Open else Closed)
      else s1
  }

  /** The state after any interleaving of steps. */
  function Run(cfg: Config, trace: seq<Event>): State {
    if trace == [] then INITIAL else Step(cfg, Run(cfg, trace[..|trace| - 1]), trace[|trace| - 1])
  }

  class CircuitBreaker {
    const cfg: Config
    var phase: Phase
    var failureCount: nat
    var successCount: nat
    var lastFailureTime: real
    var totalCalls: nat
    var totalFailures: nat
    var totalRejections: nat

    ghost function View(): State
      reads this
    {
      State(phase, failureCount, successCount, lastFailureTime, totalCalls, totalFailures, totalRejections)
    }

    constructor (config: Config)
      ensures cfg == config && View() == INITIAL
    {
      cfg := config;
      phase, failureCount, successCount, lastFailureTime := Closed, 0, 0, 0.0;
      totalCalls, totalFailures, totalRejections := 0, 0, 0;
    }

    /** `_before_call`: `admitted` is false when the source raises CircuitBreakerOpen. */
    method BeforeCall(now: real) returns (admitted: bool)
      modifies this
      ensures View() == Step(cfg, old(View()), Begin(now))
      ensures admitted <==> Admits(cfg, old(View()), now)
    {
      totalCalls := totalCalls + 1;
      if phase == Open {
        var elapsed := now - lastFailureTime;
        if elapsed >= cfg.recoveryTimeout {
          phase := HalfOpen;
          successCount := 0;
        } else {
          totalRejections := totalRejections + 1;
          return false;
        }
      }
      return true;
    }

    method OnSuccess()
      modifies this
      ensures View() == Step(cfg, old(View()), Success)
    {
      if phase == HalfOpen {
        successCount := successCount + 1;
        if successCount >= cfg.successThreshold {
          phase := Closed;
          failureCount := 0;
        }
      } else if phase == Closed {
        failureCount := 0;
      }
    }

    method OnFailure(now: real)
      modifies this
      ensures View() == Step(cfg, old(View()), Failure(now))
    {
      totalFailures := totalFailures + 1;
      lastFailureTime := now;
      if phase == HalfOpen {
        phase := Open;
      } else if phase == Closed {
        failureCount := failureCount + 1;
        if failureCount >= cfg.failureThreshold {
          phase := Open;
        }
      }
    }
  }

  // ---------------------------------------------------------------- reading the history

  /** Failures after the last success of the history. */
  function TrailingFailures(trace: seq<Event>): nat {
    if trace == [] then 0
    else
      match trace[|trace| - 1]
      case Success => 0
      case Failure(_) => TrailingFailures(trace[..|trace| - 1]) + 1
      case Begin(_) => TrailingFailures(trace[..|trace| - 1])
  }

  function Successes(trace: seq<Event>): nat {
    if trace == [] then 0
    else Successes(trace[..|trace| - 1]) + if trace[|trace| - 1].Success? then 1 else 0
  }

  ghost predicate HasFailure(trace: seq<Event>) {
    exists i :: 0 <= i < |trace| && trace[i].Failure?
  }

  /** The time of the latest failure of the history. */
  function LatestFailure(trace: seq<Event>): real {
    if trace == [] then 0.0
    else if trace[|trace| - 1].Failure? then trace[|trace| - 1].now
    else LatestFailure(trace[..|trace| - 1])
  }

  /** Step `i` is a call that found the breaker open, came at least a recovery timeout after the latest failure, and
    * was let in. */
  ghost predicate HalfOpens(cfg: Config, trace: seq<Event>, i: nat) {
    && i < |trace|
    && trace[i].Begin?
    && Run(cfg, trace[..i]).phase.Open?
    && trace[i].now - LatestFailure(trace[..i]) >= cfg.recoveryTimeout
  }

  /** Since the half-opening step `i` there has been no failure, and fewer successes than the threshold. */
  ghost predicate ProbingSince(cfg: Config, trace: seq<Event>, i: nat) {
    && HalfOpens(cfg, trace, i)
    && !HasFailure(trace[i + 1..])
    && Successes(trace[i + 1..]) < cfg.successThreshold
  }

  // ---------------------------------------------------------------- the state is determined by the history

  lemma {:induction false} LastFailureTimeIsLatest(cfg: Config, trace: seq<Event>)
    ensures Run(cfg, trace).lastFailureTime == LatestFailure(trace)
  {
    if trace != [] {
      LastFailureTimeIsLatest(cfg, trace[..|trace| - 1]);
    }
  }

  /** CLOSED means fewer counted failures than the threshold, and the count is the failures since the last success. */
  lemma {:induction false} ClosedIffBelowThreshold(cfg: Config, trace: seq<Event>)
    requires cfg.Valid()
    ensures Run(cfg, trace).phase.Closed? <==> Run(cfg, trace).failureCount < cfg.failureThreshold
    ensures Run(cfg, trace).phase.Closed? ==> Run(cfg, trace).failureCount == TrailingFailures(trace)
  {
    if trace != [] {
      ClosedIffBelowThreshold(cfg, trace[..|trace| - 1]);
    }
  }

  /** A closed breaker opens exactly at a failure that completes a run of `failureThreshold` failures without a
    * success. */
  lemma OpensExactlyAtThreshold(cfg: Config, trace: seq<Event>, e: Event)
    requires cfg.Valid() && Run(cfg, trace).phase.Closed?
    ensures !Run(cfg, trace + [e]).phase.Closed?
      <==> e.Failure? && TrailingFailures(trace + [e]) == cfg.failureThreshold
    ensures !Run(cfg, trace + [e]).phase.HalfOpen?
  {
    assert (trace + [e])[..|trace|] == trace;
    ClosedIffBelowThreshold(cfg, trace);
  }

  lemma HistoryAppend(trace: seq<Event>, e: Event, i: nat)
    requires i <= |trace|
    ensures (trace + [e])[i..] == trace[i..] + [e]
    ensures Successes((trace + [e])[i..]) == Successes(trace[i..]) + if e.Success? then 1 else 0
    ensures HasFailure((trace + [e])[i..]) <==> HasFailure(trace[i..]) || e.Failure?
  {
    var s := trace[i..];
    assert (trace + [e])[i..] == s + [e] && (s + [e])[..|s|] == s;
    if HasFailure(s) {
      var k :| 0 <= k < |s| && s[k].Failure?;
      assert (s + [e])[k].Failure?;
    }
    if e.Failure? {
      assert (s + [e])[|s|].Failure?;
    }
  }

  lemma HalfOpensAppend(cfg: Config, trace: seq<Event>, e: Event, i: nat)
    requires i < |trace|
    ensures HalfOpens(cfg, trace + [e], i) <==> HalfOpens(cfg, trace, i)
  {
    assert (trace + [e])[..i] == trace[..i];
  }

  lemma RunAppend(cfg: Config, trace: seq<Event>, e: Event)
    ensures Run(cfg, trace + [e]) == Step(cfg, Run(cfg, trace), e)
  {
    assert (trace + [e])[..|trace|] == trace;
  }

  lemma StaysHalfOpen(cfg: Config, s: State, e: Event)
    requires s.phase.HalfOpen? && Step(cfg, s, e).phase.HalfOpen?
    ensures !e.Failure? && Step(cfg, s, e).successCount == s.successCount + if e.Success? then 1 else 0
    ensures e.Success? ==> Step(cfg, s, e).successCount < cfg.successThreshold
  {}

  lemma ProbeContinues(cfg: Config, front: seq<Event>, e: Event, i: nat)
    requires Run(cfg, front).phase.HalfOpen? && Run(cfg, front + [e]).phase.HalfOpen?
    requires ProbingSince(cfg, front, i) && Run(cfg, front).successCount == Successes(front[i + 1..])
    ensures ProbingSince(cfg, front + [e], i)
    ensures Run(cfg, front + [e]).successCount == Successes((front + [e])[i + 1..])
  {
    assert HalfOpens(cfg, front + [e], i) by {
      HalfOpensAppend(cfg, front, e, i);
    }
    var s := Run(cfg, front);
    assert Run(cfg, front + [e]) == Step(cfg, s, e) by {
      RunAppend(cfg, front, e);
    }
    StaysHalfOpen(cfg, s, e);
    HistoryAppend(front, e, i + 1);
  }

  lemma ProbeStarts(cfg: Config, front: seq<Event>, e: Event)
    requires cfg.Valid() && !Run(cfg, front).phase.HalfOpen? && Run(cfg, front + [e]).phase.HalfOpen?
    ensures ProbingSince(cfg, front + [e], |front|)
    ensures Run(cfg, front + [e]).successCount == Successes((front + [e])[|front| + 1..])
  {
    RunAppend(cfg, front, e);
    LastFailureTimeIsLatest(cfg, front);
    assert (front + [e])[..|front|] == front && (front + [e])[|front| + 1..] == [];
  }

  /** In HALF_OPEN the success count is the number of successes since the half-opening step, and no call has failed
    * since. */
  lemma {:induction false} HalfOpenHasProbe(cfg: Config, trace: seq<Event>) returns (i: nat)
    requires cfg.Valid() && Run(cfg, trace).phase.HalfOpen?
    ensures ProbingSince(cfg, trace, i)
    ensures Run(cfg, trace).successCount == Successes(trace[i + 1..])
  {
    var front, e := trace[..|trace| - 1], trace[|trace| - 1];
    assert trace == front + [e];
    if Run(cfg, front).phase.HalfOpen? {
      i := HalfOpenHasProbe(cfg, front);
      ProbeContinues(cfg, front, e, i);
    } else {
      i := |front|;
      ProbeStarts(cfg, front, e);
    }
  }

  /** What follows a half-opening step: HALF_OPEN as long as nothing fails and the success threshold is not reached. */
  lemma {:induction false} ProbeIsHalfOpen(cfg: Config, trace: seq<Event>, i: nat)
    requires cfg.Valid() && ProbingSince(cfg, trace, i)
    ensures Run(cfg, trace).phase.HalfOpen? && Run(cfg, trace).successCount == Successes(trace[i + 1..])
    decreases |trace|
  {
    var front, e := trace[..|trace| - 1], trace[|trace| - 1];
    assert trace == front + [e];
    if i == |front| {
      assert trace[..i] == front;
      LastFailureTimeIsLatest(cfg, front);
    } else {
      HalfOpensAppend(cfg, front, e, i);
      HistoryAppend(front, e, i + 1);
      ProbeIsHalfOpen(cfg, front, i);
    }
  }

  /** HALF_OPEN, read off the history: both directions. */
  lemma HalfOpenIffProbing(cfg: Config, trace: seq<Event>)
    requires cfg.Valid()
    ensures Run(cfg, trace).phase.HalfOpen? <==> exists i: nat :: ProbingSince(cfg, trace, i)
  {
    if Run(cfg, trace).phase.HalfOpen? {
      var i := HalfOpenHasProbe(cfg, trace);
    } else if i: nat :| ProbingSince(cfg, trace, i) {
      ProbeIsHalfOpen(cfg, trace, i);
    }
  }

  /** While probing, every call is admitted, however many have been: HALF_OPEN is not limited to one test call. */
  lemma ProbingAdmitsEveryCall(cfg: Config, trace: seq<Event>, i: nat, now: real)
    requires cfg.Valid() && ProbingSince(cfg, trace, i)
    ensures Admits(cfg, Run(cfg, trace), now) && ProbingSince(cfg, trace + [Begin(now)], i)
  {
    ProbeIsHalfOpen(cfg, trace, i);
    HalfOpensAppend(cfg, trace, Begin(now), i);
    HistoryAppend(trace, Begin(now), i + 1);
  }

  function Begins(trace: seq<Event>): nat {
    if trace == [] then 0
    else Begins(trace[..|trace| - 1]) + if trace[|trace| - 1].Begin? then 1 else 0
  }

  /** How many calls are admitted from step `from` on. */
  function Admitted(cfg: Config, trace: seq<Event>, from: nat): nat
    decreases |trace|
  {
    if |trace| <= from then 0
    else
      var front, e := trace[..|trace| - 1], trace[|trace| - 1];
      Admitted(cfg, front, from) + if e.Begin? && Admits(cfg, Run(cfg, front), e.now) then 1 else 0
  }

  lemma AdmittedAppend(cfg: Config, front: seq<Event>, e: Event, from: nat)
    requires from <= |front|
    ensures Admitted(cfg, front + [e], from) ==
      Admitted(cfg, front, from) + if e.Begin? && Admits(cfg, Run(cfg, front), e.now) then 1 else 0
  {
    assert (front + [e])[..|front|] == front;
  }

  lemma BeginsAppend(trace: seq<Event>, e: Event, i: nat)
    requires i <= |trace|
    ensures Begins((trace + [e])[i..]) == Begins(trace[i..]) + if e.Begin? then 1 else 0
  {
    assert (trace + [e])[i..] == trace[i..] + [e];
    assert (trace[i..] + [e])[..|trace[i..]|] == trace[i..];
  }

  /** The calls admitted in a probing period are the half-opening call and every call that begins after it. */
  lemma {:induction false} ProbesAdmitted(cfg: Config, trace: seq<Event>, i: nat)
    requires cfg.Valid() && ProbingSince(cfg, trace, i)
    ensures Admitted(cfg, trace, i) == 1 + Begins(trace[i + 1..])
    decreases |trace|
  {
    var front, e := trace[..|trace| - 1], trace[|trace| - 1];
    assert trace == front + [e];
    AdmittedAppend(cfg, front, e, i);
    if i == |front| {
      assert trace[..i] == front && trace[i + 1..] == [];
      LastFailureTimeIsLatest(cfg, front);
    } else {
      HalfOpensAppend(cfg, front, e, i);
      HistoryAppend(front, e, i + 1);
      BeginsAppend(front, e, i + 1);
      ProbesAdmitted(cfg, front, i);
      ProbeIsHalfOpen(cfg, front, i);
    }
  }

  /** The documented single test call: exactly one call goes through if and only if no other call begins while
    * probing. */
  lemma SingleTestCallIff(cfg: Config, trace: seq<Event>, i: nat)
    requires cfg.Valid() && ProbingSince(cfg, trace, i)
    ensures Admitted(cfg, trace, i) == 1 <==> forall k :: i < k < |trace| ==> !trace[k].Begin?
  {
    ProbesAdmitted(cfg, trace, i);
    var tail := trace[i + 1..];
    NoBegins(tail);
    assert forall k :: i < k < |trace| ==> trace[k] == tail[k - i - 1];
    assert forall k {:trigger tail[k]} :: 0 <= k < |tail| ==> tail[k] == trace[k + i + 1];
  }

  lemma {:induction false} NoBegins(trace: seq<Event>)
    ensures Begins(trace) == 0 <==> forall k :: 0 <= k < |trace| ==> !trace[k].Begin?
  {
    if trace != [] {
      var front := trace[..|trace| - 1];
      NoBegins(front);
      assert forall k :: 0 <= k < |front| ==> front[k] == trace[k];
    }
  }

  /** The documented ends of a test call: a failure always reopens; the first success closes if and only if one
    * success is enough. */
  lemma FirstOutcomeOfProbe(cfg: Config, trace: seq<Event>, i: nat, now: real)
    requires cfg.Valid() && ProbingSince(cfg, trace, i)
    ensures Run(cfg, trace + [Failure(now)]).phase.Open?
    ensures Successes(trace[i + 1..]) == 0 ==>
      (Run(cfg, trace + [Success]).phase.Closed? <==> cfg.successThreshold == 1)
  {
    ProbeIsHalfOpen(cfg, trace, i);
    RunAppend(cfg, trace, Failure(now));
    RunAppend(cfg, trace, Success);
  }

  const PATIENT: Config := Config(1, 30.0, 2)

  const HALF_OPENED: seq<Event> := [Failure(0.0), Begin(30.0)]

  lemma HalfOpenedState()
    ensures Run(PATIENT, [Failure(0.0)]) == State(Open, 1, 0, 0.0, 0, 1, 0)
    ensures ProbingSince(PATIENT, HALF_OPENED, 1)
  {
    assert [Failure(0.0)][..0] == [];
    assert HALF_OPENED[..1] == [Failure(0.0)];
    assert HALF_OPENED[2..] == [];
    LastFailureTimeIsLatest(PATIENT, [Failure(0.0)]);
  }

  /** Two calls that begin together after the timeout are both let through: HALF_OPEN admits more than one test call. */
  lemma TwoTestCalls()
    ensures ProbingSince(PATIENT, HALF_OPENED + [Begin(30.0)], 1)
    ensures Admitted(PATIENT, HALF_OPENED + [Begin(30.0)], 1) == 2
  {
    var trace := HALF_OPENED + [Begin(30.0)];
    HalfOpenedState();
    ProbingAdmitsEveryCall(PATIENT, HALF_OPENED, 1, 30.0);
    ProbesAdmitted(PATIENT, trace, 1);
    BeginsAppend(HALF_OPENED, Begin(30.0), 2);
    assert HALF_OPENED[2..] == [];
  }

  /** The breaker closes only at a success, the `successThreshold`-th since it half-opened, with no failure in
    * between. */
  lemma ClosesOnlyAfterProbes(cfg: Config, trace: seq<Event>, e: Event) returns (i: nat)
    requires cfg.Valid()
    requires !Run(cfg, trace).phase.Closed? && Run(cfg, trace + [e]).phase.Closed?
    ensures e.Success? && HalfOpens(cfg, trace + [e], i)
    ensures !HasFailure((trace + [e])[i + 1..]) && Successes((trace + [e])[i + 1..]) == cfg.successThreshold
  {
    assert (trace + [e])[..|trace|] == trace;
    i := HalfOpenHasProbe(cfg, trace);
    HalfOpensAppend(cfg, trace, e, i);
    HistoryAppend(trace, e, i + 1);
  }

  /** Every call that begins during `later` comes less than a recovery timeout after the failure that is then the
    * latest. */
  ghost predicate TooEarly(cfg: Config, trace: seq<Event>, later: seq<Event>) {
    forall k :: 0 <= k < |later| && later[k].Begin? ==>
      later[k].now - LatestFailure(trace + later[..k]) < cfg.recoveryTimeout
  }

  /** While OPEN, nothing is admitted until a recovery timeout after the latest failure, whatever else is still in
    * flight. */
  lemma {:induction false} OpenAdmitsNothingEarly(cfg: Config, trace: seq<Event>, later: seq<Event>)
    requires Run(cfg, trace).phase.Open? && TooEarly(cfg, trace, later)
    ensures Run(cfg, trace + later).phase.Open?
    ensures forall k :: 0 <= k < |later| && later[k].Begin? ==> !Admits(cfg, Run(cfg, trace + later[..k]), later[k].now)
  {
    if later == [] {
      assert trace + later == trace;
    } else {
      var n := |later| - 1;
      forall k | 0 <= k < n
        ensures later[..n][..k] == later[..k]
      {}
      OpenAdmitsNothingEarly(cfg, trace, later[..n]);
      LastFailureTimeIsLatest(cfg, trace + later[..n]);
      assert (trace + later)[..|trace| + n] == trace + later[..n];
      forall k | 0 <= k < |later| && later[k].Begin?
        ensures !Admits(cfg, Run(cfg, trace + later[..k]), later[k].now)
      {
        assert k < n ==> later[..n][k].Begin? && later[..n][..k] == later[..k];
      }
    }
  }

  // ---------------------------------------------------------------- the totals

  function Failures(trace: seq<Event>): nat {
    if trace == [] then 0 else Failures(trace[..|trace| - 1]) + if trace[|trace| - 1].Failure? then 1 else 0
  }

  /** The totals that `get_metrics` reports count the history: calls, failures, and the calls that were not admitted. */
  lemma {:induction false} TotalsCountHistory(cfg: Config, trace: seq<Event>)
    ensures
      var s := Run(cfg, trace);
      && s.totalCalls == Begins(trace)
      && s.totalFailures == Failures(trace)
      && s.totalRejections == Begins(trace) - Admitted(cfg, trace, 0)
  {
    if trace != [] {
      TotalsCountHistory(cfg, trace[..|trace| - 1]);
    }
  }
}
