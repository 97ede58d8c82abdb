/** Eligibility and refund amounts of tools/policy_tools.py; amounts are whole cents, fees and products of them are
  * exact. */
module RefundPolicy {

  /** "gold" and "silver"; every other tier text is treated as bronze. */
  datatype Tier = Bronze | Silver | Gold

  datatype Product = Product(returnWindow: int, restockingFee: real)

  datatype Order = Order(amount: nat, product: Product)

  function TierExtension(tier: Tier): nat {
    match tier
    case Gold => 15
    case Silver => 7
    case Bronze => 0
  }

  /** `check_eligibility`. */
  predicate Eligible(order: Order, tier: Tier, days: int) {
    days <= order.product.returnWindow + TierExtension(tier)
  }

  function FeeApplied(product: Product, tier: Tier): real {
    match tier
    case Gold => 0.0
    case Silver => product.restockingFee * 0.5
    case Bronze => product.restockingFee
  }

  /** The amount before rounding, in cents. */
  function Exact(order: Order, tier: Tier): real {
    order.amount as real - order.amount as real * FeeApplied(order.product, tier)
  }

  /** Rounding to a nearest whole cent; how ties go is left open. */
  ghost predicate IsNearest(round: real -> int) {
    forall x: real :: -0.5 <= round(x) as real - x <= 0.5
  }

  /** `calculate_refund`, with the eligibility that `check_eligibility` gives for the same order and tier. */
  function Payout(round: real -> int, order: Order, tier: Tier, days: int): int {
    if Eligible(order, tier, days) then round(Exact(order, tier)) else 0
  }

  /** The business rule of the output guard: an amount above the order amount is flagged. */
  predicate ExceedsOrder(orderAmount: nat, refund: int) {
    orderAmount != 0 && refund != 0 && refund > orderAmount
  }

  /** Nearest rounding is monotone whatever it does with ties, and keeps whole numbers. */
  lemma NearestIsMonotone(round: real -> int, x: real, y: real)
    requires IsNearest(round) && x <= y
    ensures round(x) <= round(y)
  {
    if x < y {
      assert round(x) as real <= x + 0.5 && round(y) as real >= y - 0.5;
    }
  }

  lemma NearestKeepsWhole(round: real -> int, n: int)
    requires IsNearest(round)
    ensures round(n as real) == n
  {
    assert -0.5 <= round(n as real) as real - n as real <= 0.5;
  }

  lemma FeeOrder(order: Order)
    requires 0.0 <= order.product.restockingFee <= 1.0
    ensures 0.0 <= Exact(order, Bronze) <= Exact(order, Silver) <= Exact(order, Gold) == order.amount as real
  {
    var a, f := order.amount as real, order.product.restockingFee;
    assert Exact(order, Bronze) == a * (1.0 - f);
    assert Exact(order, Silver) == a * (1.0 - f * 0.5);
    assert a * (1.0 - f * 0.5) - a * (1.0 - f) == a * (f * 0.5);
  }

  /** A higher tier never pays less, and no tier pays more than the order amount or less than nothing. */
  lemma TiersAreOrdered(round: real -> int, order: Order, days: int)
    requires IsNearest(round) && 0.0 <= order.product.restockingFee <= 1.0
    ensures 0 <= Payout(round, order, Bronze, days) <= Payout(round, order, Silver, days)
    ensures Payout(round, order, Silver, days) <= Payout(round, order, Gold, days) <= order.amount
  {
    FeeOrder(order);
    NearestKeepsWhole(round, 0);
    NearestKeepsWhole(round, order.amount);
    NearestIsMonotone(round, 0.0, Exact(order, Bronze));
    NearestIsMonotone(round, Exact(order, Bronze), Exact(order, Silver));
    NearestIsMonotone(round, Exact(order, Silver), Exact(order, Gold));
  }

  /** Waiting longer never pays more. */
  lemma PayoutFallsWithTime(round: real -> int, order: Order, tier: Tier, early: int, late: int)
    requires IsNearest(round) && 0.0 <= order.product.restockingFee <= 1.0 && early <= late
    ensures Payout(round, order, tier, late) <= Payout(round, order, tier, early)
  {
    TiersAreOrdered(round, order, early);
  }

  /** The guard's rule never fires on a computed refund. */
  lemma GuardNeverFires(round: real -> int, order: Order, tier: Tier, days: int)
    requires IsNearest(round) && 0.0 <= order.product.restockingFee <= 1.0
    ensures !ExceedsOrder(order.amount, Payout(round, order, tier, days))
  {
    TiersAreOrdered(round, order, days);
  }

  // ---------------------------------------------------------------- what a tier is worth

  /** Silver waives half of the fee: before rounding its refund lies midway between bronze, which pays the whole
    * fee, and gold, which pays none. */
  lemma SilverIsMidway(order: Order)
    ensures Exact(order, Silver) - Exact(order, Bronze) == Exact(order, Gold) - Exact(order, Silver)
    ensures Exact(order, Gold) == order.amount as real
    ensures order.amount as real - Exact(order, Bronze) == order.amount as real * order.product.restockingFee
  {
    var a, f := order.amount as real, order.product.restockingFee;
    assert a * f == a * (f * 0.5) + a * (f * 0.5);
  }

  /** Silver has a week and gold fifteen days longer than bronze. */
  lemma TiersExtendWindow(order: Order, days: int)
    ensures Eligible(order, Bronze, days) <==> Eligible(order, Silver, days + 7)
    ensures Eligible(order, Bronze, days) <==> Eligible(order, Gold, days + 15)
    ensures Eligible(order, Bronze, days) <==> days <= order.product.returnWindow
  {}

  /** Within the window gold gets the whole amount back and the others the nearest cents; after it nobody gets
    * anything. */
  lemma PayoutInWindow(round: real -> int, order: Order, tier: Tier, days: int)
    requires IsNearest(round)
    ensures !Eligible(order, tier, days) ==> Payout(round, order, tier, days) == 0
    ensures Eligible(order, tier, days) ==>
      -0.5 <= Payout(round, order, tier, days) as real - Exact(order, tier) <= 0.5
    ensures Eligible(order, Gold, days) ==> Payout(round, order, Gold, days) == order.amount
  {
    SilverIsMidway(order);
    NearestKeepsWhole(round, order.amount);
    assert -0.5 <= round(Exact(order, tier)) as real - Exact(order, tier) <= 0.5;
  }

  /** The guard fires exactly on refunds above a known order amount. */
  lemma GuardFiresIff(orderAmount: nat, refund: int)
    ensures ExceedsOrder(orderAmount, refund) <==> 0 < orderAmount < refund
  {}
}
