/** The persistence transactions of tools/db_tools.py, run one after the other. */
module Persistence {

  /** A row of processed_requests. */
  datatype Row = Row(
    orderId: int, customerId: int, decision: string, amount: real, reason: string, policy: string,
    analyticsUpdated: bool)

  datatype Customer = Customer(totalOrders: int, totalRefunds: nat)

  datatype Analytics = Analytics(totalSpent: real, averageOrderValue: real, refundRate: real, riskScore: real)

  /** The tables; `spent` is the sum of a customer's order amounts, which these transactions only read. */
  datatype Tables = Tables(
    processed: map<int, Row>,           // by refund_request_id, which is unique
    customers: map<int, Customer>,
    analytics: map<int, Analytics>,
    spent: map<int, real>)

  /** One tool call; `commits` is false when the transaction raises and is rolled back. */
  datatype Call =
    | Save(request: int, row: Row, commits: bool)
    | Update(customer: int, request: int, commits: bool)

  // ---------------------------------------------------------------- the derived values

  /** `customer.total_orders or 1`. */
  function Orders(c: Customer): int {
    if c.totalOrders == 0 then 1 else c.totalOrders
  }

  function Rate(orders: int, refunds: nat): real {
    if orders > 0 then refunds as real / orders as real else 0.0
  }

  function Risk(orders: int, refunds: nat): real {
    var r := Rate(orders, refunds) * 1.5;
    if r < 1.0 then r else 1.0
  }

  /** The analytics row of customer `c` with the order sum `spent`. */
  function Derived(c: Customer, spent: real): Analytics {
    var orders := Orders(c);
    Analytics(
      spent,
      if orders > 0 then spent / orders as real else 0.0,
      Rate(orders, c.totalRefunds),
      Risk(orders, c.totalRefunds))
  }

  // ---------------------------------------------------------------- specification of the transactions

  predicate Skips(t: Tables, request: int) {
    request != 0 && request in t.processed && t.processed[request].analyticsUpdated
  }

  /** The update changes the tables: it commits, is not skipped, and finds its customer. */
  predicate Applies(t: Tables, c: Call) {
    c.Update? && c.commits && !Skips(t, c.request) && c.customer in t.customers
  }

  function Spent(t: Tables, customer: int): real {
    if customer in t.spent then t.spent[customer] else 0.0
  }

  function Apply(t: Tables, customer: int, request: int): Tables
    requires customer in t.customers
  {
    var c := t.customers[customer];
    var c' := c.(totalRefunds := c.totalRefunds + 1);
    t.(customers := t.customers[customer := c'],
       analytics := if customer in t.analytics
                    then t.analytics[customer := Derived(c', Spent(t, customer))] else t.analytics,
       processed := if request != 0 && request in t.processed
                    then t.processed[request := t.processed[request].(analyticsUpdated := true)] else t.processed)
  }

  function Step(t: Tables, c: Call): Tables {
    match c
    case Save(request, row, commits) =>
      if commits && request !in t.processed
      then t.(processed := t.processed[request := row.(analyticsUpdated := false)]) else t
    case Update(customer, request, _) =>
      if Applies(t, c) then Apply(t, customer, request) else t
  }

  /** The tables after any sequence of tool calls. */
  function Run(t: Tables, calls: seq<Call>): Tables {
    if calls == [] then t else Step(Run(t, calls[..|calls| - 1]), calls[|calls| - 1])
  }

  datatype SaveReply = SaveReply(saved: bool, deduplicated: bool)

  datatype UpdateReply = UpdateReply(updated: bool, skipped: bool, risk: real)

  class Database {
    var processed: map<int, Row>
    var customers: map<int, Customer>
    var analytics: map<int, Analytics>
    var spent: map<int, real>

    ghost function View(): Tables
      reads this
    {
      Tables(processed, customers, analytics, spent)
    }

    constructor (t: Tables)
      ensures View() == t
    {
      processed, customers, analytics, spent := t.processed, t.customers, t.analytics, t.spent;
    }

    /** `save_processed_request`. */
    method SaveProcessedRequest(request: int, row: Row, commits: bool) returns (reply: SaveReply)
      modifies this
      ensures View() == Step(old(View()), Save(request, row, commits))
      ensures commits ==> reply == SaveReply(true, request in old(processed)) && request in processed
      ensures !commits ==> !reply.saved
    {
      if !commits {
        return SaveReply(false, false);
      }
      if request in processed {
        return SaveReply(true, true);
      }
      processed := processed[request := row.(analyticsUpdated := false)];
      return SaveReply(true, false);
    }

    /** `update_customer_analytics`. */
    method UpdateCustomerAnalytics(customer: int, request: int, commits: bool) returns (reply: UpdateReply)
      modifies this
      ensures View() == Step(old(View()), Update(customer, request, commits))
      ensures reply.updated && !reply.skipped <==> Applies(old(View()), Update(customer, request, commits))
      ensures reply.skipped ==> reply.updated && View() == old(View())
      ensures reply.updated && !reply.skipped ==>
        reply.risk == Risk(Orders(customers[customer]), customers[customer].totalRefunds)
    {
      if !commits {
        return UpdateReply(false, false, 0.0);
      }
      if request != 0 && request in processed && processed[request].analyticsUpdated {
        return UpdateReply(true, true, 0.0);
      }
      if customer !in customers {
        return UpdateReply(false, false, 0.0);
      }
      var totalSpent := if customer in spent then spent[customer] else 0.0;
      var totalOrders := if customers[customer].totalOrders == 0 then 1 else customers[customer].totalOrders;
      var totalRefunds := customers[customer].totalRefunds + 1;
      var average := if totalOrders > 0 then totalSpent / totalOrders as real else 0.0;
      var rate := if totalOrders > 0 then totalRefunds as real / totalOrders as real else 0.0;
      var risk := if rate * 1.5 < 1.0 then rate * 1.5 else 1.0;
      if customer in analytics {
        analytics := analytics[customer := Analytics(totalSpent, average, rate, risk)];
      }
      customers := customers[customer := customers[customer].(totalRefunds := totalRefunds)];
      if request != 0 && request in processed {
        processed := processed[request := processed[request].(analyticsUpdated := true)];
      }
      return UpdateReply(true, false, risk);
    }
  }

  // ---------------------------------------------------------------- rows are written once

  lemma StepKeepsRow(t: Tables, c: Call, request: int)
    requires request in t.processed
    ensures
      var u := Step(t, c);
      && request in u.processed
      && u.processed[request] == t.processed[request].(analyticsUpdated := u.processed[request].analyticsUpdated)
      && (t.processed[request].analyticsUpdated ==> u.processed[request].analyticsUpdated)
  {}

  /** The first decision saved for a request is never overwritten; only its analytics flag may change, and only to
    * true. */
  lemma {:induction false} FirstDecisionStays(t: Tables, calls: seq<Call>, request: int)
    requires request in t.processed
    ensures
      var u := Run(t, calls);
      && request in u.processed
      && u.processed[request] == t.processed[request].(analyticsUpdated := u.processed[request].analyticsUpdated)
      && (t.processed[request].analyticsUpdated ==> u.processed[request].analyticsUpdated)
  {
    if calls != [] {
      FirstDecisionStays(t, calls[..|calls| - 1], request);
      StepKeepsRow(Run(t, calls[..|calls| - 1]), calls[|calls| - 1], request);
    }
  }

  // ---------------------------------------------------------------- refunds are conserved

  /** The number of calls that were applied to `customer`. */
  function Applied(t: Tables, calls: seq<Call>, customer: int): nat {
    if calls == [] then 0
    else
      var front, c := calls[..|calls| - 1], calls[|calls| - 1];
      Applied(t, front, customer) + if Applies(Run(t, front), c) && c.customer == customer then 1 else 0
  }

  /** A customer's refund total is its initial value plus the applied analytics calls for it. */
  lemma {:induction false} RefundsAreConserved(t: Tables, calls: seq<Call>, customer: int)
    requires customer in t.customers
    ensures Run(t, calls).customers.Keys == t.customers.Keys
    ensures Run(t, calls).customers[customer]
      == t.customers[customer].(totalRefunds := t.customers[customer].totalRefunds + Applied(t, calls, customer))
  {
    if calls != [] {
      RefundsAreConserved(t, calls[..|calls| - 1], customer);
    }
  }

  /** The number of calls naming `request` that were applied to any customer. */
  function AppliedFor(t: Tables, calls: seq<Call>, request: int): nat {
    if calls == [] then 0
    else
      var front, c := calls[..|calls| - 1], calls[|calls| - 1];
      AppliedFor(t, front, request) + if Applies(Run(t, front), c) && c.request == request then 1 else 0
  }

  lemma {:induction false} AppliedOnceAndFlagged(t: Tables, calls: seq<Call>, request: int)
    requires request != 0 && request in t.processed
    ensures
      var before := t.processed[request].analyticsUpdated;
      var after := Run(t, calls).processed;
      && request in after
      && AppliedFor(t, calls, request) == if after[request].analyticsUpdated && !before then 1 else 0
  {
    FirstDecisionStays(t, calls, request);
    if calls != [] {
      var front := calls[..|calls| - 1];
      FirstDecisionStays(t, front, request);
      AppliedOnceAndFlagged(t, front, request);
    }
  }

  /** Once a request is saved, the calls naming it change a customer at most once; once its row is flagged, never
    * again. */
  lemma OneAnalyticsUpdatePerRequest(t: Tables, calls: seq<Call>, request: int)
    requires request != 0 && request in t.processed
    ensures AppliedFor(t, calls, request) <= 1
    ensures t.processed[request].analyticsUpdated ==> AppliedFor(t, calls, request) == 0
  {
    AppliedOnceAndFlagged(t, calls, request);
    FirstDecisionStays(t, calls, request);
  }

  /** Repeating a committed call counts the refund once if the request's row exists, and twice if it does not. */
  lemma RepeatedUpdate(t: Tables, customer: int, request: int)
    requires customer in t.customers && !Skips(t, request)
    ensures
      var u := Run(t, [Update(customer, request, true), Update(customer, request, true)]);
      customer in u.customers &&
      u.customers[customer].totalRefunds == t.customers[customer].totalRefunds
        + if request != 0 && request in t.processed then 1 else 2
  {
    var c := Update(customer, request, true);
    assert [c, c][..1] == [c] && [c][..0] == [];
    assert Run(t, [c]) == Step(t, c);
  }

  // ---------------------------------------------------------------- conservation across the tables

  ghost function AnyOf(s: set<int>): (r: int)
    requires s != {}
    ensures r in s
  {
    assert (forall c :: c !in s) ==> s == {};
    var c :| c in s;
    c
  }

  /** The refunds of all customers together. */
  ghost function AllRefunds(customers: map<int, Customer>): nat {
    if customers.Keys == {} then 0
    else
      var c := AnyOf(customers.Keys);
      customers[c].totalRefunds + AllRefunds(customers - {c})
  }

  /** The sum does not depend on the order in which the customers are taken. */
  lemma {:induction false} TakeOut(customers: map<int, Customer>, c: int)
    requires c in customers
    ensures AllRefunds(customers) == customers[c].totalRefunds + AllRefunds(customers - {c})
    decreases |customers|
  {
    var d := AnyOf(customers.Keys);
    if d != c {
      TakeOut(customers - {d}, c);
      TakeOut(customers - {c}, d);
      assert customers - {d} - {c} == customers - {c} - {d};
    }
  }

  lemma OneMoreRefund(customers: map<int, Customer>, c: int, after: Customer)
    requires c in customers && after.totalRefunds == customers[c].totalRefunds + 1
    ensures AllRefunds(customers[c := after]) == AllRefunds(customers) + 1
  {
    TakeOut(customers, c);
    TakeOut(customers[c := after], c);
    assert customers[c := after] - {c} == customers - {c};
  }

  /** The requests whose analytics flag is set. */
  function Flagged(processed: map<int, Row>): set<int> {
    set r | r in processed && processed[r].analyticsUpdated
  }

  /** The call is applied although no row records it. */
  predicate AppliesUnrecorded(t: Tables, c: Call) {
    Applies(t, c) && (c.request == 0 || c.request !in t.processed)
  }

  function Unrecorded(t: Tables, calls: seq<Call>): nat {
    if calls == [] then 0
    else
      var front, c := calls[..|calls| - 1], calls[|calls| - 1];
      Unrecorded(t, front) + if AppliesUnrecorded(Run(t, front), c) then 1 else 0
  }

  lemma StepConserves(t: Tables, c: Call)
    ensures
      var u := Step(t, c);
      AllRefunds(u.customers) - AllRefunds(t.customers)
        == |Flagged(u.processed)| - |Flagged(t.processed)| + if AppliesUnrecorded(t, c) then 1 else 0
  {
    StepFlags(t, c);
    if Applies(t, c) {
      OneMoreRefund(t.customers, c.customer, Step(t, c).customers[c.customer]);
    }
  }

  /** A step flags the row of an applied call, if there is one, which was not flagged before. */
  lemma StepFlags(t: Tables, c: Call)
    ensures
      var before, after := Flagged(t.processed), Flagged(Step(t, c).processed);
      if Applies(t, c) && !AppliesUnrecorded(t, c) then after == before + {c.request} && c.request !in before
      else after == before
  {}

  /** The refunds of all customers grow by the rows newly flagged and the calls applied without a row: none is lost
    * or counted twice. */
  lemma {:induction false} RefundsMatchFlags(t: Tables, calls: seq<Call>)
    ensures AllRefunds(Run(t, calls).customers) - AllRefunds(t.customers)
      == |Flagged(Run(t, calls).processed)| - |Flagged(t.processed)| + Unrecorded(t, calls)
  {
    if calls != [] {
      RefundsMatchFlags(t, calls[..|calls| - 1]);
      StepConserves(Run(t, calls[..|calls| - 1]), calls[|calls| - 1]);
    }
  }

  // ---------------------------------------------------------------- the risk score

  lemma RateGrows(orders: int, a: nat, b: nat)
    requires a <= b
    ensures 0.0 <= Rate(orders, a) <= Rate(orders, b)
  {
    if orders > 0 {
      QuotientGrows(0.0, a as real, orders as real);
      QuotientGrows(a as real, b as real, orders as real);
    }
  }

  lemma QuotientGrows(x: real, y: real, d: real)
    requires x <= y && d > 0.0
    ensures x / d <= y / d
  {
    assert y / d - x / d == (y - x) / d;
  }

  /** The risk score lies in [0, 1] and never falls as refunds accumulate. */
  lemma RiskIsBoundedAndMonotone(orders: int, a: nat, b: nat)
    requires a <= b
    ensures 0.0 <= Risk(orders, a) <= Risk(orders, b) <= 1.0
  {
    RateGrows(orders, a, b);
  }

  /** The customer's analytics row, if there is one, shows the values derived from the customer. */
  ghost predicate InSync(t: Tables, customer: int) {
    customer in t.analytics && customer in t.customers
    ==> t.analytics[customer] == Derived(t.customers[customer], Spent(t, customer))
  }

  /** From the first applied update on, the analytics row follows its customer. */
  lemma {:induction false} AnalyticsStayInSync(t: Tables, calls: seq<Call>, customer: int)
    requires InSync(t, customer) || Applied(t, calls, customer) > 0
    ensures InSync(Run(t, calls), customer)
  {
    if calls != [] {
      var front := calls[..|calls| - 1];
      if InSync(t, customer) || Applied(t, front, customer) > 0 {
        AnalyticsStayInSync(t, front, customer);
      }
      SpentIsRead(t, front);
    }
  }

  lemma {:induction false} SpentIsRead(t: Tables, calls: seq<Call>)
    ensures Run(t, calls).spent == t.spent
  {
    if calls != [] {
      SpentIsRead(t, calls[..|calls| - 1]);
    }
  }

  // ---------------------------------------------------------------- what the stored values mean

  lemma RateTimesOrders(orders: int, refunds: nat)
    requires orders > 0
    ensures Rate(orders, refunds) * orders as real == refunds as real
  {}

  lemma ScaledOrder(rate: real, orders: real, refunds: real)
    requires orders > 0.0 && rate * orders == refunds
    ensures rate * 1.5 >= 1.0 <==> 3.0 * refunds >= 2.0 * orders
  {
    assert (rate * 1.5) * orders == 1.5 * refunds;
    if rate * 1.5 >= 1.0 {
      assert (rate * 1.5) * orders >= 1.0 * orders;
    } else {
      assert (rate * 1.5) * orders < 1.0 * orders;
    }
  }

  /** The risk score is one and a half times the share of refunds, cut off at one: it is full from two refunds in
    * three orders. */
  lemma RiskIsScaledRate(orders: int, refunds: nat)
    ensures orders <= 0 ==> Risk(orders, refunds) == 0.0
    ensures orders > 0 ==> (Risk(orders, refunds) == 1.0 <==> 3 * refunds >= 2 * orders)
    ensures orders > 0 && 3 * refunds < 2 * orders ==>
      2.0 * Risk(orders, refunds) * orders as real == 3.0 * refunds as real
  {
    if orders > 0 {
      RateTimesOrders(orders, refunds);
      ScaledOrder(Rate(orders, refunds), orders as real, refunds as real);
      var r := Rate(orders, refunds);
      assert 2.0 * (r * 1.5) * orders as real == 3.0 * (r * orders as real);
    }
  }

  /** A synchronised row holds the order sum, and averages that multiply back to it and to the refunds. */
  lemma DerivedMeans(c: Customer, spent: real)
    requires Orders(c) > 0
    ensures
      var a := Derived(c, spent);
      && a.totalSpent == spent
      && a.averageOrderValue * Orders(c) as real == spent
      && a.refundRate * Orders(c) as real == c.totalRefunds as real
      && a.riskScore == Risk(Orders(c), c.totalRefunds)
  {}

  /** The first committed save of a request stores exactly its decision, with the analytics flag off; a call that
    * does not commit changes nothing. */
  lemma FirstSaveStores(t: Tables, request: int, row: Row)
    requires request !in t.processed
    ensures
      var u := Step(t, Save(request, row, true));
      && u.processed == t.processed[request := row.(analyticsUpdated := false)]
      && u.customers == t.customers && u.analytics == t.analytics
  {}

  lemma RolledBackChangesNothing(t: Tables, c: Call)
    requires !c.commits
    ensures Step(t, c) == t
  {}
}
