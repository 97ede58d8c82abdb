/** The rolling-window retry budget of executor/resilience.py. */
module RetryBudget {

  /** The retry ratio is the exact rational ratioNum / ratioDen. */
  datatype Config = Config(maxRetries: nat, window: real, ratioNum: nat, ratioDen: nat) {
    ghost predicate Valid() {
      window > 0.0 && ratioDen > 0
    }
  }

  /** The two pruned timestamp lists. */
  datatype State = State(requests: seq<real>, retries: seq<real>)

  datatype Event = Request(now: real) | Acquire(now: real)

  const INITIAL := State([], [])

  /** The timestamps later than `cutoff`, in order. */
  function After(ts: seq<real>, cutoff: real): seq<real> {
    if ts == [] then []
    else
      var rest := After(ts[..|ts| - 1], cutoff);
      if ts[|ts| - 1] > cutoff then rest + [ts[|ts| - 1]] else rest
  }

  /** How many timestamps are later than `cutoff`. */
  function CountAfter(ts: seq<real>, cutoff: real): nat {
    if ts == [] then 0 else CountAfter(ts[..|ts| - 1], cutoff) + if ts[|ts| - 1] > cutoff then 1 else 0
  }

  /** `a` added up `n` times. */
  ghost function Times(a: nat, n: nat): nat {
    if n == 0 then 0 else Times(a, n - 1) + a
  }

  /** The two limits, given the numbers of retries and requests in the window; the second is the test retries /
    * requests < ratio. */
  ghost predicate Permits(cfg: Config, retries: nat, requests: nat) {
    && retries < cfg.maxRetries
    && (requests > 0 ==> Times(cfg.ratioDen, retries) < Times(cfg.ratioNum, requests))
  }

  ghost predicate Grants(cfg: Config, s: State, now: real) {
    Permits(cfg, CountAfter(s.retries, now - cfg.window), CountAfter(s.requests, now - cfg.window))
  }

  /** The entry, if any, that an event adds to the list of granted retries. */
  ghost function NewGrant(cfg: Config, s: State, e: Event): (x: seq<real>)
    ensures |x| <= 1
  {
    if e.Acquire? && Grants(cfg, s, e.now) then [e.now] else []
  }

  ghost function Step(cfg: Config, s: State, e: Event): State {
    match e
    case Request(now) => s.(requests := s.requests + [now])
    case Acquire(now) =>
      var cutoff := now - cfg.window;
      State(After(s.requests, cutoff), After(s.retries, cutoff) + NewGrant(cfg, s, e))
  }

  lemma {:induction false} CountIsLength(ts: seq<real>, cutoff: real)
    ensures |After(ts, cutoff)| == CountAfter(ts, cutoff)
  {
    if ts != [] {
      CountIsLength(ts[..|ts| - 1], cutoff);
    }
  }

  lemma {:induction false} TimesIsProduct(a: nat, n: nat)
    ensures Times(a, n) == a * n
  {
    if n > 0 {
      TimesIsProduct(a, n - 1);
    }
  }

  /** Comparing two fractions with positive denominators is comparing the cross products. */
  lemma CrossMultiply(a: real, b: real, c: real, d: real)
    requires b > 0.0 && d > 0.0
    ensures a / b >= c / d <==> a * d >= c * b
  {
    var x, y := a / b, c / d;
    assert a == x * b && c == y * d;
    var m := b * d;
    assert m > 0.0;
    assert a * d == x * m && c * b == y * m;
    if x >= y {
      assert x * m >= y * m;
    } else {
      assert x * m < y * m;
    }
  }

  lemma {:induction false} CastProduct(a: nat, n: nat)
    ensures (a * n) as real == a as real * n as real
  {
    if n > 0 {
      CastProduct(a, n - 1);
      assert a * n == a * (n - 1) + a;
      assert a as real * n as real == a as real * (n - 1) as real + a as real;
    }
  }

  lemma RatioTest(num: nat, den: nat, retries: nat, requests: nat)
    requires requests > 0 && den > 0
    ensures retries as real / requests as real >= num as real / den as real
      <==> Times(den, retries) >= Times(num, requests)
  {
    TimesIsProduct(den, retries);
    TimesIsProduct(num, requests);
    CrossMultiply(retries as real, requests as real, num as real, den as real);
    CastProduct(den, retries);
    CastProduct(num, requests);
  }

  class RetryBudget {
    const cfg: Config
    var requests: seq<real>
    var retries: seq<real>

    ghost function View(): State
      reads this
    {
      State(requests, retries)
    }

    constructor (config: Config)
      ensures cfg == config && View() == INITIAL
    {
      cfg := config;
      requests, retries := [], [];
    }

    method Prune(now: real)
      modifies this
      ensures requests == After(old(requests), now - cfg.window)
      ensures retries == After(old(retries), now - cfg.window)
      ensures |requests| == CountAfter(old(requests), now - cfg.window)
      ensures |retries| == CountAfter(old(retries), now - cfg.window)
    {
      var cutoff := now - cfg.window;
      CountIsLength(requests, cutoff);
      CountIsLength(retries, cutoff);
      requests := After(requests, cutoff);
      retries := After(retries, cutoff);
    }

    method TryAcquire(now: real) returns (granted: bool)
      requires cfg.Valid()
      modifies this
      ensures View() == Step(cfg, old(View()), Acquire(now))
      ensures granted <==> Grants(cfg, old(View()), now)
      ensures forall trace :: Monotone(trace, now) && Replay(cfg, trace).state == old(View()) ==>
        (granted <==> BelowLimits(cfg, Replay(cfg, trace), now))
    {
      forall trace | Monotone(trace, now) && Replay(cfg, trace).state == View()
        ensures Grants(cfg, View(), now) <==> BelowLimits(cfg, Replay(cfg, trace), now)
      {
        GrantsIffBelowLimits(cfg, trace, now);
      }
      Prune(now);
      if |retries| >= cfg.maxRetries {
        return false;
      }
      if requests != [] {
        RatioTest(cfg.ratioNum, cfg.ratioDen, |retries|, |requests|);
        if |retries| as real / |requests| as real >= cfg.ratioNum as real / cfg.ratioDen as real {
          return false;
        }
      }
      retries := retries + [now];
      return true;
    }

    method RecordRequest(now: real)
      modifies this
      ensures View() == Step(cfg, old(View()), Request(now))
    {
      requests := requests + [now];
    }

    /** `get_metrics`: counts without pruning, which agree with every history that explains the lists. */
    method Metrics(now: real) returns (retriesInWindow: nat, requestsInWindow: nat, remaining: int)
      ensures forall trace :: Monotone(trace, now) && Replay(cfg, trace).state == View() ==>
        && retriesInWindow == CountIn(Replay(cfg, trace).granted, now - cfg.window, now)
        && requestsInWindow == CountIn(Replay(cfg, trace).requested, now - cfg.window, now)
        && 0 <= remaining == cfg.maxRetries - retriesInWindow
    {
      var cutoff := now - cfg.window;
      retriesInWindow := CountActive(retries, cutoff);
      requestsInWindow := CountActive(requests, cutoff);
      remaining := cfg.maxRetries - retriesInWindow;
      forall trace | Monotone(trace, now) && Replay(cfg, trace).state == View()
        ensures ReportsRetries(cfg, Replay(cfg, trace), now) && ReportsRequests(cfg, Replay(cfg, trace), now)
      {
        BudgetRemainingIsExact(cfg, trace, now);
        ReportedRequestsAreExact(cfg, trace, now);
      }
    }
  }

  /** `sum(1 for t in ts if t > cutoff)`. */
  method CountActive(ts: seq<real>, cutoff: real) returns (n: nat)
    ensures n == CountAfter(ts, cutoff) == |After(ts, cutoff)|
  {
    n := 0;
    for i := 0 to |ts|
      invariant n == CountAfter(ts[..i], cutoff)
    {
      assert ts[..i + 1][..i] == ts[..i];
      if ts[i] > cutoff {
        n := n + 1;
      }
    }
    assert ts[..|ts|] == ts;
    CountIsLength(ts, cutoff);
  }

  // ---------------------------------------------------------------- the full history

  /** The budget beside the times of everything that ever happened to it, never pruned. */
  datatype Ledger = Ledger(state: State, granted: seq<real>, requested: seq<real>)

  ghost function Advance(cfg: Config, l: Ledger, e: Event): Ledger {
    Ledger(
      Step(cfg, l.state, e),
      l.granted + NewGrant(cfg, l.state, e),
      l.requested + if e.Request? then [e.now] else [])
  }

  /** The ledger after any sequence of locked steps. */
  ghost function Replay(cfg: Config, trace: seq<Event>): Ledger {
    if trace == [] then Ledger(INITIAL, [], [])
    else Advance(cfg, Replay(cfg, trace[..|trace| - 1]), trace[|trace| - 1])
  }

  /** The clock never runs backwards, and reads `now` after the whole history. */
  ghost predicate Monotone(trace: seq<Event>, now: real) {
    trace == [] || (trace[|trace| - 1].now <= now && Monotone(trace[..|trace| - 1], trace[|trace| - 1].now))
  }

  /** How many timestamps lie in the half-open interval (from, to]. */
  function CountIn(ts: seq<real>, from: real, to: real): nat {
    if ts == [] then 0
    else CountIn(ts[..|ts| - 1], from, to) + if from < ts[|ts| - 1] <= to then 1 else 0
  }

  lemma {:induction false} CountAfterPrune(ts: seq<real>, k: real, c: real)
    requires k <= c
    ensures CountAfter(After(ts, k), c) == CountAfter(ts, c)
  {
    if ts != [] {
      var front, last := ts[..|ts| - 1], ts[|ts| - 1];
      CountAfterPrune(front, k, c);
      CountAppend(After(front, k), [last], c);
    }
  }

  lemma CountAppend(ts: seq<real>, x: seq<real>, c: real)
    requires |x| <= 1
    ensures CountAfter(ts + x, c) == CountAfter(ts, c) + if x != [] && x[0] > c then 1 else 0
  {
    if x == [] {
      assert ts + x == ts;
    } else {
      assert (ts + x)[..|ts|] == ts;
    }
  }

  lemma CountInAppend(ts: seq<real>, x: seq<real>, from: real, to: real)
    requires |x| <= 1
    ensures CountIn(ts + x, from, to) == CountIn(ts, from, to) + if x != [] && from < x[0] <= to then 1 else 0
  {
    if x == [] {
      assert ts + x == ts;
    } else {
      assert (ts + x)[..|ts|] == ts;
    }
  }

  lemma {:induction false} CountWithin(ts: seq<real>, from: real, to: real, cutoff: real)
    requires cutoff <= from
    ensures CountIn(ts, from, to) <= CountAfter(ts, cutoff)
  {
    if ts != [] {
      CountWithin(ts[..|ts| - 1], from, to, cutoff);
    }
  }

  /** The pruned list gives the same count as the full list for every cutoff from `oldest` on. */
  ghost predicate SameCounts(pruned: seq<real>, full: seq<real>, oldest: real) {
    forall c {:trigger CountAfter(full, c)} :: c >= oldest ==> CountAfter(pruned, c) == CountAfter(full, c)
  }

  lemma SameCountsPruned(pruned: seq<real>, full: seq<real>, oldest: real, k: real, x: seq<real>)
    requires SameCounts(pruned, full, oldest) && oldest <= k && |x| <= 1
    ensures SameCounts(After(pruned, k) + x, full + x, k)
    ensures SameCounts(pruned + x, full + x, k)
  {
    forall c | c >= k
      ensures CountAfter(After(pruned, k) + x, c) == CountAfter(pruned + x, c) == CountAfter(full + x, c)
    {
      CountAfterPrune(pruned, k, c);
      CountAppend(After(pruned, k), x, c);
      CountAppend(pruned, x, c);
      CountAppend(full, x, c);
    }
  }

  /** At time `now`, pruning has hidden nothing that a window ending now or later still covers. */
  ghost predicate Faithful(cfg: Config, l: Ledger, now: real) {
    && SameCounts(l.state.retries, l.granted, now - cfg.window)
    && SameCounts(l.state.requests, l.requested, now - cfg.window)
  }

  lemma AdvanceKeepsRetries(cfg: Config, l: Ledger, e: Event)
    requires SameCounts(l.state.retries, l.granted, e.now - cfg.window)
    ensures SameCounts(Advance(cfg, l, e).state.retries, Advance(cfg, l, e).granted, e.now - cfg.window)
  {
    var k, x := e.now - cfg.window, NewGrant(cfg, l.state, e);
    SameCountsPruned(l.state.retries, l.granted, k, k, x);
    assert e.Request? ==> l.state.retries + x == l.state.retries;
  }

  lemma AdvanceKeepsRequests(cfg: Config, l: Ledger, e: Event)
    requires SameCounts(l.state.requests, l.requested, e.now - cfg.window)
    ensures SameCounts(Advance(cfg, l, e).state.requests, Advance(cfg, l, e).requested, e.now - cfg.window)
  {
    var k, x := e.now - cfg.window, if e.Request? then [e.now] else [];
    SameCountsPruned(l.state.requests, l.requested, k, k, x);
    assert e.Acquire? ==> After(l.state.requests, k) + x == After(l.state.requests, k);
  }

  lemma FaithfulLater(cfg: Config, l: Ledger, before: real, now: real)
    requires Faithful(cfg, l, before) && before <= now
    ensures Faithful(cfg, l, now)
  {}

  /** The pruned lists give the same in-window counts as the full history, now and at every later time. */
  lemma {:induction false} PruningIsInvisible(cfg: Config, trace: seq<Event>, now: real)
    requires Monotone(trace, now)
    ensures Faithful(cfg, Replay(cfg, trace), now)
  {
    if trace != [] {
      var front, e := trace[..|trace| - 1], trace[|trace| - 1];
      PruningIsInvisible(cfg, front, e.now);
      AdvanceKeepsRetries(cfg, Replay(cfg, front), e);
      AdvanceKeepsRequests(cfg, Replay(cfg, front), e);
      FaithfulLater(cfg, Replay(cfg, trace), e.now, now);
    }
  }

  /** The pruned lists grant a retry exactly when the full history of the window that ends now leaves room under
    * both limits. */
  ghost predicate GrantsByHistory(cfg: Config, l: Ledger, now: real) {
    Grants(cfg, l.state, now) <==>
      Permits(cfg, CountAfter(l.granted, now - cfg.window), CountAfter(l.requested, now - cfg.window))
  }

  lemma FaithfulGrants(cfg: Config, l: Ledger, now: real)
    requires Faithful(cfg, l, now)
    ensures GrantsByHistory(cfg, l, now)
  {
    var cutoff := now - cfg.window;
    assert CountAfter(l.state.retries, cutoff) == CountAfter(l.granted, cutoff);
    assert CountAfter(l.state.requests, cutoff) == CountAfter(l.requested, cutoff);
  }

  lemma {:induction false} GrantedIffHistoryPermits(cfg: Config, trace: seq<Event>, now: real)
    requires Monotone(trace, now)
    ensures GrantsByHistory(cfg, Replay(cfg, trace), now)
  {
    PruningIsInvisible(cfg, trace, now);
    FaithfulGrants(cfg, Replay(cfg, trace), now);
  }

  lemma AdvanceKeepsCap(cfg: Config, l: Ledger, e: Event, from: real, to: real)
    requires Faithful(cfg, l, e.now) && to == from + cfg.window
    requires CountIn(l.granted, from, to) <= cfg.maxRetries
    ensures CountIn(Advance(cfg, l, e).granted, from, to) <= cfg.maxRetries
  {
    var x := NewGrant(cfg, l.state, e);
    CountInAppend(l.granted, x, from, to);
    if x != [] && from < e.now <= to {
      CountWithin(l.granted, from, to, e.now - cfg.window);
    }
  }

  /** Every interval (from, to] as long as the window, wherever it starts, contains at most `maxRetries` granted
    * retries. */
  lemma {:induction false} RollingWindowCap(cfg: Config, trace: seq<Event>, now: real, from: real, to: real)
    requires Monotone(trace, now) && to == from + cfg.window
    ensures CountIn(Replay(cfg, trace).granted, from, to) <= cfg.maxRetries
  {
    if trace != [] {
      var front, e := trace[..|trace| - 1], trace[|trace| - 1];
      RollingWindowCap(cfg, front, e.now, from, to);
      PruningIsInvisible(cfg, front, e.now);
      AdvanceKeepsCap(cfg, Replay(cfg, front), e, from, to);
    }
  }

  lemma {:induction false} CountUpToNow(cfg: Config, trace: seq<Event>, now: real, from: real)
    requires Monotone(trace, now)
    ensures CountsAgree(Replay(cfg, trace).granted, now, from) && CountsAgree(Replay(cfg, trace).requested, now, from)
  {
    if trace != [] {
      var front, e := trace[..|trace| - 1], trace[|trace| - 1];
      CountUpToNow(cfg, front, now, from);
      AdvanceKeepsUpToNow(cfg, Replay(cfg, front), e, now, from);
    }
  }

  /** Up to `now`, counting in the interval from `from` on is counting what is later than `from`. */
  ghost predicate CountsAgree(ts: seq<real>, now: real, from: real) {
    CountIn(ts, from, now) == CountAfter(ts, from)
  }

  lemma AppendAgrees(ts: seq<real>, x: seq<real>, now: real, from: real)
    requires CountsAgree(ts, now, from) && |x| <= 1 && (x != [] ==> x[0] <= now)
    ensures CountsAgree(ts + x, now, from)
  {
    CountInAppend(ts, x, from, now);
    CountAppend(ts, x, from);
  }

  lemma AdvanceKeepsUpToNow(cfg: Config, l: Ledger, e: Event, now: real, from: real)
    requires e.now <= now && CountsAgree(l.granted, now, from) && CountsAgree(l.requested, now, from)
    ensures CountsAgree(Advance(cfg, l, e).granted, now, from) && CountsAgree(Advance(cfg, l, e).requested, now, from)
  {
    AppendAgrees(l.granted, NewGrant(cfg, l.state, e), now, from);
    AppendAgrees(l.requested, if e.Request? then [e.now] else [], now, from);
  }

  /** The retries that `get_metrics` counts at `now` are those granted in the window that ends now, and at most the
    * limit. */
  ghost predicate ReportsRetries(cfg: Config, l: Ledger, now: real) {
    CountAfter(l.state.retries, now - cfg.window) == CountIn(l.granted, now - cfg.window, now) <= cfg.maxRetries
  }

  /** The requests that `get_metrics` counts at `now` are those of the window that ends now. */
  ghost predicate ReportsRequests(cfg: Config, l: Ledger, now: real) {
    CountAfter(l.state.requests, now - cfg.window) == CountIn(l.requested, now - cfg.window, now)
  }

  /** The reported retries are those really granted in the window, so the remaining budget is never negative. */
  lemma {:induction false} BudgetRemainingIsExact(cfg: Config, trace: seq<Event>, now: real)
    requires Monotone(trace, now)
    ensures ReportsRetries(cfg, Replay(cfg, trace), now)
  {
    var l, from := Replay(cfg, trace), now - cfg.window;
    assert CountAfter(l.state.retries, from) == CountAfter(l.granted, from) by {
      FaithfulCounts(cfg, trace, now);
    }
    assert CountIn(l.granted, from, now) <= cfg.maxRetries by {
      RollingWindowCap(cfg, trace, now, from, now);
    }
    assert CountsAgree(l.granted, now, from) by {
      CountUpToNow(cfg, trace, now, from);
    }
  }

  lemma {:induction false} ReportedRequestsAreExact(cfg: Config, trace: seq<Event>, now: real)
    requires Monotone(trace, now)
    ensures ReportsRequests(cfg, Replay(cfg, trace), now)
  {
    var l, from := Replay(cfg, trace), now - cfg.window;
    assert CountAfter(l.state.requests, from) == CountAfter(l.requested, from) by {
      FaithfulCounts(cfg, trace, now);
    }
    assert CountsAgree(l.requested, now, from) by {
      CountUpToNow(cfg, trace, now, from);
    }
  }

  lemma {:induction false} FaithfulCounts(cfg: Config, trace: seq<Event>, now: real)
    requires Monotone(trace, now)
    ensures
      var l, cutoff := Replay(cfg, trace), now - cfg.window;
      && CountAfter(l.state.retries, cutoff) == CountAfter(l.granted, cutoff)
      && CountAfter(l.state.requests, cutoff) == CountAfter(l.requested, cutoff)
  {
    PruningIsInvisible(cfg, trace, now);
  }

  // ---------------------------------------------------------------- both limits, on what really happened

  /** In the window that ends now, fewer retries were granted than the limit, and they are below the configured ratio of
    * the requests made, if any were. */
  ghost predicate BelowLimits(cfg: Config, l: Ledger, now: real)
    requires cfg.Valid()
  {
    var retries, requests := CountIn(l.granted, now - cfg.window, now), CountIn(l.requested, now - cfg.window, now);
    && retries < cfg.maxRetries
    && (requests == 0 || retries as real / requests as real < cfg.ratioNum as real / cfg.ratioDen as real)
  }

  lemma PermitsIffBelow(cfg: Config, retries: nat, requests: nat)
    requires cfg.Valid()
    ensures Permits(cfg, retries, requests) <==>
      && retries < cfg.maxRetries
      && (requests == 0 || retries as real / requests as real < cfg.ratioNum as real / cfg.ratioDen as real)
  {
    if requests > 0 {
      RatioTest(cfg.ratioNum, cfg.ratioDen, retries, requests);
    }
  }

  lemma BelowLimitsOf(cfg: Config, l: Ledger, now: real)
    requires cfg.Valid() && ReportsRetries(cfg, l, now) && ReportsRequests(cfg, l, now)
    ensures Grants(cfg, l.state, now) <==> BelowLimits(cfg, l, now)
  {
    PermitsIffBelow(cfg, CountIn(l.granted, now - cfg.window, now), CountIn(l.requested, now - cfg.window, now));
  }

  lemma {:induction false} GrantsIffBelowLimits(cfg: Config, trace: seq<Event>, now: real)
    requires cfg.Valid() && Monotone(trace, now)
    ensures Grants(cfg, Replay(cfg, trace).state, now) <==> BelowLimits(cfg, Replay(cfg, trace), now)
  {
    BudgetRemainingIsExact(cfg, trace, now);
    ReportedRequestsAreExact(cfg, trace, now);
    BelowLimitsOf(cfg, Replay(cfg, trace), now);
  }

  /** The grants of `after` are those of `l`, and one more at `now` if the retries granted in the window that ends
    * then are fewer than the limit and below the ratio of the requests made in it. */
  ghost predicate GrantsOneIfBelow(cfg: Config, l: Ledger, after: Ledger, now: real)
    requires cfg.Valid()
  {
    var from := now - cfg.window;
    var retries, requests := CountIn(l.granted, from, now), CountIn(l.requested, from, now);
    var allowed := retries < cfg.maxRetries &&
      (requests == 0 || retries as real / requests as real < cfg.ratioNum as real / cfg.ratioDen as real);
    after.granted == l.granted + if allowed then [now] else []
  }

  lemma AdvanceGrants(cfg: Config, l: Ledger, now: real)
    requires cfg.Valid() && (Grants(cfg, l.state, now) <==> BelowLimits(cfg, l, now))
    ensures GrantsOneIfBelow(cfg, l, Advance(cfg, l, Acquire(now)), now)
  {}

  lemma ReplayAppend(cfg: Config, trace: seq<Event>, e: Event)
    ensures Replay(cfg, trace + [e]) == Advance(cfg, Replay(cfg, trace), e)
  {
    assert (trace + [e])[..|trace|] == trace;
  }

  /** After any history, asking for a retry adds a grant exactly when both limits leave room for it. */
  lemma {:induction false} RetryIffBelowLimits(cfg: Config, trace: seq<Event>, now: real)
    requires cfg.Valid() && Monotone(trace, now)
    ensures GrantsOneIfBelow(cfg, Replay(cfg, trace), Replay(cfg, trace + [Acquire(now)]), now)
  {
    GrantsIffBelowLimits(cfg, trace, now);
    AdvanceGrants(cfg, Replay(cfg, trace), now);
    ReplayAppend(cfg, trace, Acquire(now));
  }
}
