/** Experiment assignment of evaluation/ab_testing.py, with traffic shares in whole basis points. */
module TrafficSplit {

  datatype Variant = Variant(name: string, share: nat)

  const BUCKETS: nat := 10000
  const TOLERANCE: nat := 100

  function Sum(variants: seq<Variant>): nat {
    if variants == [] then 0 else Sum(variants[..|variants| - 1]) + variants[|variants| - 1].share
  }

  /** `__post_init__` accepts the configuration: the shares sum to 1.0 up to 0.01. */
  predicate Accepted(variants: seq<Variant>) {
    BUCKETS - TOLERANCE <= Sum(variants) <= BUCKETS + TOLERANCE
  }

  /** Where the range of variant `i` begins. */
  function Start(variants: seq<Variant>, i: nat): nat
    requires i <= |variants|
  {
    Sum(variants[..i])
  }

  lemma StartNext(variants: seq<Variant>, i: nat)
    requires i < |variants|
    ensures Start(variants, i + 1) == Start(variants, i) + variants[i].share
  {
    assert variants[..i + 1][..i] == variants[..i];
  }

  lemma {:induction false} StartGrows(variants: seq<Variant>, i: nat, j: nat)
    requires i <= j <= |variants|
    ensures Start(variants, i) <= Start(variants, j)
  {
    if i < j {
      StartGrows(variants, i, j - 1);
      StartNext(variants, j - 1);
    }
  }

  /** The bucket belongs to variant `i`: it lies in the variant's range, where the last range reaches to the end. */
  predicate Owns(variants: seq<Variant>, i: nat, bucket: nat)
    requires i < |variants|
  {
    Start(variants, i) <= bucket && (i == |variants| - 1 || bucket < Start(variants, i + 1))
  }

  /** The selection loop of `get_variant`. */
  method Select(variants: seq<Variant>, bucket: nat) returns (selected: nat)
    requires Accepted(variants)
    ensures selected < |variants| && Owns(variants, selected, bucket)
  {
    assert variants != [];
    var cumulative := 0;
    selected := |variants| - 1;
    for i := 0 to |variants|
      invariant cumulative == Start(variants, i) <= bucket
      invariant selected == |variants| - 1
    {
      StartNext(variants, i);
      cumulative := cumulative + variants[i].share;
      if bucket < cumulative {
        return i;
      }
    }
    StartGrows(variants, |variants| - 1, |variants|);
  }

  /** Every bucket belongs to exactly one variant. */
  lemma OneOwner(variants: seq<Variant>, bucket: nat, i: nat, j: nat)
    requires i < |variants| && j < |variants| && Owns(variants, i, bucket) && Owns(variants, j, bucket)
    ensures i == j
  {
    if i < j {
      StartGrows(variants, i + 1, j);
    } else if j < i {
      StartGrows(variants, j + 1, i);
    }
  }

  lemma {:induction false} SomeOwner(variants: seq<Variant>, bucket: nat, n: nat) returns (i: nat)
    requires n < |variants| && (n == |variants| - 1 || bucket < Start(variants, n + 1))
    ensures i <= n && Owns(variants, i, bucket)
  {
    if bucket < Start(variants, n) {
      assert n > 0;
      i := SomeOwner(variants, bucket, n - 1);
    } else {
      i := n;
    }
  }

  /** The buckets that variant `i` receives. */
  ghost function Share(variants: seq<Variant>, i: nat): set<nat>
    requires i < |variants|
  {
    set b: nat | b < BUCKETS && Owns(variants, i, b)
  }

  predicate From(lo: nat, b: nat) {
    lo <= b
  }

  function Interval(lo: nat, hi: nat): set<nat> {
    set b: nat | b < hi && From(lo, b)
  }

  lemma {:induction false} IntervalSize(lo: nat, hi: nat)
    ensures |Interval(lo, hi)| == if lo <= hi then hi - lo else 0
    decreases hi
  {
    if lo < hi {
      IntervalSize(lo, hi - 1);
      assert Interval(lo, hi) == Interval(lo, hi - 1) + {hi - 1};
    } else {
      assert Interval(lo, hi) == {};
    }
  }

  function Min(a: nat, b: nat): nat {
    if a < b then a else b
  }

  /** The number of buckets a variant receives: its range cut off at the last bucket, or all that is left for the
    * last variant. */
  lemma ShareSize(variants: seq<Variant>, i: nat)
    requires i < |variants|
    ensures |Share(variants, i)| ==
      (if i == |variants| - 1 then BUCKETS else Min(Start(variants, i + 1), BUCKETS)) - Min(Start(variants, i), BUCKETS)
  {
    var lo, hi := Start(variants, i), if i == |variants| - 1 then BUCKETS else Min(Start(variants, i + 1), BUCKETS);
    assert Share(variants, i) == Interval(lo, hi);
    IntervalSize(lo, hi);
    StartGrows(variants, i, i + 1);
  }

  /** Each of the 10000 buckets goes to exactly one variant, and every variant's count is within 100 of its declared
    * share. */
  lemma SplitIsWithinTolerance(variants: seq<Variant>, i: nat)
    requires Accepted(variants) && i < |variants|
    ensures variants[i].share - TOLERANCE <= |Share(variants, i)| <= variants[i].share + TOLERANCE
    ensures forall b: nat, j: nat :: b in Share(variants, i) && j < |variants| && b in Share(variants, j) ==> i == j
  {
    ShareSize(variants, i);
    StartNext(variants, i);
    StartGrows(variants, i + 1, |variants|);
    assert variants[..|variants|] == variants;
    forall b: nat, j: nat | b in Share(variants, i) && j < |variants| && b in Share(variants, j)
      ensures i == j
    {
      OneOwner(variants, b, i, j);
    }
  }

  lemma EveryBucketIsShared(variants: seq<Variant>, bucket: nat)
    requires Accepted(variants) && bucket < BUCKETS
    ensures exists i :: 0 <= i < |variants| && bucket in Share(variants, i)
  {
    assert variants != [];
    var i := SomeOwner(variants, bucket, |variants| - 1);
    assert bucket in Share(variants, i);
  }
}
