/** What the largest-remainder rule means: optimality, tie-breaking, quota and fairness. */
module AllocationTheorems {
  import opened Wrappers
  import opened Sequences
  import opened Allocation

  // ---------- distance to the exact quotas ----------

  /** Scaled error of giving `share` to `weight`: 10000 times the distance from the exact quota. */
  ghost function Error(revenue: int, weight: int, share: int): int {
    BASIS_POINTS_TOTAL * share - revenue * weight
  }

  ghost function Square(x: int): int { x * x }

  ghost function Distance(revenue: int, weights: seq<int>, shares: seq<int>): int
    requires |shares| == |weights|
  {
    if weights == [] then 0
    else
      var n := |weights| - 1;
      Distance(revenue, weights[..n], shares[..n]) + Square(Error(revenue, weights[n], shares[n]))
  }

  ghost predicate LexGreater(a: seq<int>, b: seq<int>) {
    exists i | 0 <= i < |a| && i < |b| :: a[i] > b[i] && a[..i] == b[..i]
  }

  // ---------- a price per cent separates served from unserved ----------

  /** `t` is a remainder threshold: everything bumped is at or above it, the rest at or below. */
  ghost predicate Threshold(revenue: int, weights: seq<int>, shares: seq<int>, t: int)
    requires |shares| == |weights|
  {
    && 0 <= t < BASIS_POINTS_TOTAL
    && forall i | 0 <= i < |weights| ::
         if Bumped(revenue, weights, shares, i) then Remainder(revenue, weights[i]) >= t
         else Remainder(revenue, weights[i]) <= t
  }

  lemma {:induction false} ThresholdExists(revenue: int, weights: seq<int>, shares: seq<int>, n: nat) returns (t: int)
    requires LargestRemainder(revenue, weights, shares) && n <= |weights|
    ensures 0 <= t < BASIS_POINTS_TOTAL
    ensures forall i | 0 <= i < n && Bumped(revenue, weights, shares, i) :: Remainder(revenue, weights[i]) >= t
    ensures t == BASIS_POINTS_TOTAL - 1
         || exists j | 0 <= j < n :: Bumped(revenue, weights, shares, j) && Remainder(revenue, weights[j]) == t
  {
    if n == 0 {
      t := BASIS_POINTS_TOTAL - 1;
    } else {
      t := ThresholdExists(revenue, weights, shares, n - 1);
      DivMod(revenue * weights[n - 1]);
      if Bumped(revenue, weights, shares, n - 1) && Remainder(revenue, weights[n - 1]) < t {
        t := Remainder(revenue, weights[n - 1]);
      }
    }
  }

  lemma {:induction false} ThresholdOf(revenue: int, weights: seq<int>, shares: seq<int>) returns (t: int)
    requires LargestRemainder(revenue, weights, shares)
    ensures Threshold(revenue, weights, shares, t)
  {
    t := ThresholdExists(revenue, weights, shares, |weights|);
    forall i | 0 <= i < |weights| && !Bumped(revenue, weights, shares, i)
      ensures Remainder(revenue, weights[i]) <= t
    {
      DivMod(revenue * weights[i]);
      if t != BASIS_POINTS_TOTAL - 1 {
        var j :| 0 <= j < |weights| && Bumped(revenue, weights, shares, j) && Remainder(revenue, weights[j]) == t;
        assert !Before(revenue, weights, i, j);
      }
    }
  }

  /** Extra cost of moving one share by `d` cents, less the common price of those cents. */
  ghost function Slack(revenue: int, t: int, weight: int, share: int, other: int): int {
    Square(Error(revenue, weight, other)) - Square(Error(revenue, weight, share)) - Price(t) * (other - share)
  }

  ghost function Price(t: int): int { BASIS_POINTS_TOTAL * (BASIS_POINTS_TOTAL - 2 * t) }

  lemma {:induction false} SlackFactors(e: int, d: int, t: int)
    ensures Square(e + BASIS_POINTS_TOTAL * d) - Square(e) - Price(t) * d
         == BASIS_POINTS_TOTAL * (d * (2 * e + BASIS_POINTS_TOTAL * (d - 1) + 2 * t))
  {
    assert Square(e + 10000 * d) == e * e + 20000 * (e * d) + 100000000 * (d * d);
    assert d * (2 * e + 10000 * (d - 1) + 2 * t) == 2 * (e * d) + 10000 * (d * d) - 10000 * d + 2 * (t * d);
    assert Price(t) * d == 100000000 * d - 20000 * (t * d);
  }

  lemma {:induction false} SlackSign(d: int, k: int)
    requires d > 0 ==> k >= 0
    requires d < 0 ==> k <= 0
    ensures d * k >= 0
    ensures d * k == 0 ==> d == 0 || k == 0
  {
  }

  /** Moving away from the rule's share never pays, and is free only across the threshold itself. */
  lemma {:induction false} SlackNonNegative(revenue: int, t: int, weight: int, share: int, other: int)
    requires 0 <= t < BASIS_POINTS_TOTAL
    requires || (share == Floor(revenue, weight) && Remainder(revenue, weight) <= t)
             || (share == Floor(revenue, weight) + 1 && Remainder(revenue, weight) >= t)
    ensures Slack(revenue, t, weight, share, other) >= 0
    ensures Slack(revenue, t, weight, share, other) == 0 && other != share ==>
              && Remainder(revenue, weight) == t
              && (share == Floor(revenue, weight) ==> other == share + 1)
              && (share == Floor(revenue, weight) + 1 ==> other == share - 1)
  {
    DivMod(revenue * weight);
    var e, d := Error(revenue, weight, share), other - share;
    assert Error(revenue, weight, other) == e + BASIS_POINTS_TOTAL * d;
    SlackFactors(e, d, t);
    SlackSign(d, 2 * e + BASIS_POINTS_TOTAL * (d - 1) + 2 * t);
  }

  ghost function TotalSlack(revenue: int, t: int, weights: seq<int>, shares: seq<int>, other: seq<int>): int
    requires |shares| == |weights| == |other|
  {
    if weights == [] then 0
    else
      var n := |weights| - 1;
      TotalSlack(revenue, t, weights[..n], shares[..n], other[..n]) + Slack(revenue, t, weights[n], shares[n], other[n])
  }

  lemma {:induction false} TotalSlackIs(revenue: int, t: int, weights: seq<int>, shares: seq<int>, other: seq<int>)
    requires |shares| == |weights| == |other|
    ensures TotalSlack(revenue, t, weights, shares, other)
         == Distance(revenue, weights, other) - Distance(revenue, weights, shares) - Price(t) * (Sum(other) - Sum(shares))
  {
    if weights != [] {
      var n := |weights| - 1;
      TotalSlackIs(revenue, t, weights[..n], shares[..n], other[..n]);
      Distribute3(Price(t), Sum(other[..n]) - Sum(shares[..n]), other[n] - shares[n]);
    }
  }

  lemma {:induction false} Distribute3(p: int, x: int, y: int)
    ensures p * (x + y) == p * x + p * y
  {
  }

  lemma {:induction false} TotalSlackNonNegative(revenue: int, t: int, weights: seq<int>, shares: seq<int>, other: seq<int>)
    requires |shares| == |weights| == |other|
    requires forall i | 0 <= i < |weights| :: Slack(revenue, t, weights[i], shares[i], other[i]) >= 0
    ensures TotalSlack(revenue, t, weights, shares, other) >= 0
    ensures TotalSlack(revenue, t, weights, shares, other) == 0 ==>
              forall i | 0 <= i < |weights| :: Slack(revenue, t, weights[i], shares[i], other[i]) == 0
  {
    if weights != [] {
      var n := |weights| - 1;
      TotalSlackNonNegative(revenue, t, weights[..n], shares[..n], other[..n]);
    }
  }

  lemma {:induction false} AllSlacksNonNegative(revenue: int, t: int, weights: seq<int>, shares: seq<int>, other: seq<int>)
    requires LargestRemainder(revenue, weights, shares) && Threshold(revenue, weights, shares, t)
    requires |other| == |weights|
    ensures forall i | 0 <= i < |weights| :: Slack(revenue, t, weights[i], shares[i], other[i]) >= 0
  {
    forall i | 0 <= i < |weights| ensures Slack(revenue, t, weights[i], shares[i], other[i]) >= 0 {
      assert Bumped(revenue, weights, shares, i) || shares[i] == Floor(revenue, weights[i]);
      SlackNonNegative(revenue, t, weights[i], shares[i], other[i]);
    }
  }

  /** Between vectors of equal total the price cancels: slack is extra distance. */
  lemma {:induction false} SlackIsExtraDistance(revenue: int, t: int, weights: seq<int>, shares: seq<int>, other: seq<int>)
    requires |shares| == |weights| == |other| && Sum(other) == Sum(shares)
    ensures TotalSlack(revenue, t, weights, shares, other)
         == Distance(revenue, weights, other) - Distance(revenue, weights, shares)
  {
    TotalSlackIs(revenue, t, weights, shares, other);
    TimesZero(Price(t), Sum(other) - Sum(shares));
  }

  lemma {:induction false} TimesZero(p: int, x: int)
    requires x == 0
    ensures p * x == 0
  {
  }

  /** Optimality: no integer vector with the same total is closer to the exact quotas. */
  lemma {:induction false} Optimal(revenue: int, weights: seq<int>, shares: seq<int>, other: seq<int>)
    requires LargestRemainder(revenue, weights, shares)
    requires |other| == |weights| && Sum(other) == revenue
    ensures Distance(revenue, weights, shares) <= Distance(revenue, weights, other)
    ensures Distance(revenue, weights, shares) == Distance(revenue, weights, other) && other != shares ==>
              LexGreater(shares, other)
  {
    var t := ThresholdOf(revenue, weights, shares);
    AllSlacksNonNegative(revenue, t, weights, shares, other);
    SlackIsExtraDistance(revenue, t, weights, shares, other);
    TotalSlackNonNegative(revenue, t, weights, shares, other);
    if TotalSlack(revenue, t, weights, shares, other) == 0 && other != shares {
      TieLosesLexicographically(revenue, t, weights, shares, other);
    }
  }

  lemma {:induction false} FirstDifference(a: seq<int>, b: seq<int>) returns (k: nat)
    requires |a| == |b| && a != b
    ensures k < |a| && a[k] != b[k] && a[..k] == b[..k]
  {
    if a[..|a| - 1] != b[..|a| - 1] {
      k := FirstDifference(a[..|a| - 1], b[..|a| - 1]);
      assert a[..k] == a[..|a| - 1][..k] && b[..k] == b[..|a| - 1][..k];
    } else {
      k := |a| - 1;
      assert a == a[..k] + [a[k]] && b == b[..k] + [b[k]];
    }
  }

  lemma {:induction false} SumDominates(a: seq<int>, b: seq<int>, k: nat)
    requires |a| == |b| && k < |a|
    requires forall i | 0 <= i < |a| :: a[i] <= b[i]
    requires a[k] < b[k]
    ensures Sum(a) < Sum(b)
  {
    var n := |a| - 1;
    if k == n {
      SumLeq(a[..n], b[..n]);
    } else {
      SumDominates(a[..n], b[..n], k);
    }
  }

  lemma {:induction false} SumLeq(a: seq<int>, b: seq<int>)
    requires |a| == |b| && forall i | 0 <= i < |a| :: a[i] <= b[i]
    ensures Sum(a) <= Sum(b)
  {
    if a != [] {
      SumLeq(a[..|a| - 1], b[..|a| - 1]);
    }
  }

  /** Another minimiser moves cents only among tied remainders, so it gives up a lower index first. */
  lemma {:induction false} TieLosesLexicographically(revenue: int, t: int, weights: seq<int>, shares: seq<int>, other: seq<int>)
    requires LargestRemainder(revenue, weights, shares) && Threshold(revenue, weights, shares, t)
    requires |other| == |weights| && Sum(other) == revenue && other != shares
    requires forall i | 0 <= i < |weights| :: Slack(revenue, t, weights[i], shares[i], other[i]) == 0
    ensures LexGreater(shares, other)
  {
    var k := FirstDifference(shares, other);
    forall i | 0 <= i < |weights| {
      SlackNonNegative(revenue, t, weights[i], shares[i], other[i]);
    }
    if shares[k] < other[k] {
      forall i | 0 <= i < |weights| ensures shares[i] <= other[i] {
        if i < k {
          assert shares[i] == shares[..k][i] == other[..k][i];
        } else if other[i] < shares[i] {
          assert Before(revenue, weights, k, i);
        }
      }
      SumDominates(shares, other, k);
    }
    assert shares[k] > other[k];
  }

  lemma {:induction false} LexAsymmetric(a: seq<int>, b: seq<int>)
    requires |a| == |b| && LexGreater(a, b)
    ensures !LexGreater(b, a)
  {
    var i :| 0 <= i < |a| && i < |b| && a[i] > b[i] && a[..i] == b[..i];
    forall k | 0 <= k < |a| ensures b[k] <= a[k] || b[..k] != a[..k] {
      if k < i {
        assert a[k] == a[..i][k] == b[..i][k];
      } else if i < k {
        assert a[..k][i] != b[..k][i];
      }
    }
  }

  /** The rule determines the split: two vectors that obey it are equal. */
  lemma {:induction false} RuleDetermines(revenue: int, weights: seq<int>, a: seq<int>, b: seq<int>)
    requires LargestRemainder(revenue, weights, a) && LargestRemainder(revenue, weights, b)
    ensures a == b
  {
    Optimal(revenue, weights, a, b);
    Optimal(revenue, weights, b, a);
    if LexGreater(a, b) {
      LexAsymmetric(a, b);
    }
  }

  /** The call answers exactly on well-formed input, with the closest split, ties to the lowest index. */
  lemma {:induction false} AllocateIsTheClosestSplit(revenue: int, weights: seq<int>)
    ensures Allocate(revenue, weights).Ok? <==> ValidSplit(revenue, weights)
    ensures Allocate(revenue, weights).Ok? ==>
              var shares := Allocate(revenue, weights).value;
              && |shares| == |weights| && Sum(shares) == revenue
              && forall other: seq<int> | |other| == |weights| && Sum(other) == revenue && other != shares ::
                   || Distance(revenue, weights, shares) < Distance(revenue, weights, other)
                   || (Distance(revenue, weights, shares) == Distance(revenue, weights, other) && LexGreater(shares, other))
  {
    if Allocate(revenue, weights).Ok? {
      var shares := Allocate(revenue, weights).value;
      SharesLargestRemainder(revenue, weights);
      forall other: seq<int> | |other| == |weights| && Sum(other) == revenue && other != shares
        ensures || Distance(revenue, weights, shares) < Distance(revenue, weights, other)
                || (Distance(revenue, weights, shares) == Distance(revenue, weights, other) && LexGreater(shares, other))
      {
        Optimal(revenue, weights, shares, other);
      }
    }
  }

  /** Which fault a refused split reports: the first of the four that it has. */
  lemma {:induction false} SplitRefusals(revenue: int, weights: seq<int>)
    ensures var r := Allocate(revenue, weights);
            && (r == Err(NegativeRevenue) <==> revenue < 0)
            && (r == Err(NoWeights) <==> revenue >= 0 && |weights| == 0)
            && (r == Err(NegativeWeight) <==> revenue >= 0 && exists k | 0 <= k < |weights| :: weights[k] < 0)
            && (forall t :: r == Err(WrongTotal(t)) <==>
                  && revenue >= 0 && |weights| > 0 && (forall k | 0 <= k < |weights| :: weights[k] >= 0)
                  && t == Sum(weights) && t != 10000)
  {
    if k :| 0 <= k < |weights| && weights[k] < 0 {
      assert weights[k] in weights;
    }
  }

  // ---------- quota and fairness ----------

  ghost function CeilingShare(revenue: int, weight: int): int {
    Floor(revenue, weight) + if Remainder(revenue, weight) == 0 then 0 else 1
  }

  lemma {:induction false} RemaindersOfBumped(revenue: int, weights: seq<int>, shares: seq<int>, n: nat)
    requires |shares| == |weights| && n <= |weights|
    requires forall i | 0 <= i < |shares| :: shares[i] == Floor(revenue, weights[i]) || Bumped(revenue, weights, shares, i)
    requires forall i | 0 <= i < n && Remainder(revenue, weights[i]) > 0 :: Bumped(revenue, weights, shares, i)
    ensures Sum(Remainders(revenue, weights[..n])) <= (BASIS_POINTS_TOTAL - 1) * (Sum(shares[..n]) - Sum(Floors(revenue, weights[..n])))
  {
    if n > 0 {
      RemaindersOfBumped(revenue, weights, shares, n - 1);
      DivMod(revenue * weights[n - 1]);
      assert Remainders(revenue, weights[..n])[..n - 1] == Remainders(revenue, weights[..n - 1]);
      assert Floors(revenue, weights[..n])[..n - 1] == Floors(revenue, weights[..n - 1]);
      assert shares[..n][..n - 1] == shares[..n - 1];
    }
  }

  /** There are never more leftover cents than positive remainders. */
  lemma {:induction false} AllPositiveBumped(revenue: int, weights: seq<int>, shares: seq<int>)
    requires ValidSplit(revenue, weights) && LargestRemainder(revenue, weights, shares)
    requires forall i | 0 <= i < |weights| && Remainder(revenue, weights[i]) > 0 :: Bumped(revenue, weights, shares, i)
    ensures forall i | 0 <= i < |weights| && Bumped(revenue, weights, shares, i) :: Remainder(revenue, weights[i]) > 0
  {
    var n, floors := |weights|, Floors(revenue, weights);
    assert weights[..n] == weights && shares[..n] == shares;
    RemaindersOfBumped(revenue, weights, shares, n);
    LeftoverBound(revenue, weights);
    forall i | 0 <= i < n ensures shares[i] == floors[i] {
      if shares[i] != floors[i] {
        SumDominates(floors, shares, i);
      }
    }
  }

  /** A cent beyond the floor goes only to a positive remainder: every share is floor or ceiling of its quota. */
  lemma {:induction false} WithinQuota(revenue: int, weights: seq<int>, i: int)
    requires ValidSplit(revenue, weights) && 0 <= i < |weights|
    ensures |Shares(revenue, weights)| == |weights|
    ensures var share := Shares(revenue, weights)[i];
            share == Floor(revenue, weights[i]) || share == CeilingShare(revenue, weights[i])
    ensures weights[i] == 0 ==> Shares(revenue, weights)[i] == 0
    ensures Shares(revenue, weights)[i] >= 0
  {
    var shares := Shares(revenue, weights);
    SharesLargestRemainder(revenue, weights);
    DivMod(revenue * weights[i]);
    if Bumped(revenue, weights, shares, i) && Remainder(revenue, weights[i]) == 0 {
      forall j | 0 <= j < |weights| && Remainder(revenue, weights[j]) > 0 ensures Bumped(revenue, weights, shares, j) {
        assert Before(revenue, weights, j, i);
      }
      AllPositiveBumped(revenue, weights, shares);
    }
    assert weights[i] == 0 ==> revenue * weights[i] == 0;
    assert revenue * weights[i] >= 0 by { assert weights[i] in weights; }
  }

  /** A larger weight has a larger quota: a larger floor, or the same floor and a larger remainder. */
  lemma {:induction false} QuotaMonotone(revenue: int, weight: int, lighter: int)
    requires revenue > 0 && weight > lighter
    ensures Floor(revenue, weight) >= Floor(revenue, lighter)
    ensures Floor(revenue, weight) == Floor(revenue, lighter) ==> Remainder(revenue, weight) > Remainder(revenue, lighter)
  {
    assert revenue * weight > revenue * lighter;
    DivMod(revenue * weight);
    DivMod(revenue * lighter);
  }

  lemma {:induction false} HeavierNeverLess(revenue: int, weights: seq<int>, shares: seq<int>, i: nat, j: nat)
    requires LargestRemainder(revenue, weights, shares) && i < |weights| && j < |weights|
    requires Floor(revenue, weights[i]) >= Floor(revenue, weights[j])
    requires Floor(revenue, weights[i]) == Floor(revenue, weights[j]) ==> Before(revenue, weights, i, j)
    ensures shares[i] >= shares[j]
  {
    assert shares[j] == Floor(revenue, weights[j]) || Bumped(revenue, weights, shares, j);
    assert shares[i] == Floor(revenue, weights[i]) || Bumped(revenue, weights, shares, i);
  }

  /** A larger weight never gets less; equal weights differ by at most a cent, in favour of the lower index. */
  lemma {:induction false} Fair(revenue: int, weights: seq<int>, i: nat, j: nat)
    requires ValidSplit(revenue, weights) && i < |weights| && j < |weights|
    ensures |Shares(revenue, weights)| == |weights|
    ensures weights[i] > weights[j] ==> Shares(revenue, weights)[i] >= Shares(revenue, weights)[j]
    ensures weights[i] == weights[j] && i < j ==>
              0 <= Shares(revenue, weights)[i] - Shares(revenue, weights)[j] <= 1
  {
    SharesLargestRemainder(revenue, weights);
    FairRule(revenue, weights, Shares(revenue, weights), i, j);
  }

  lemma {:induction false} FairRule(revenue: int, weights: seq<int>, shares: seq<int>, i: nat, j: nat)
    requires revenue >= 0 && LargestRemainder(revenue, weights, shares) && i < |weights| && j < |weights|
    ensures weights[i] > weights[j] ==> shares[i] >= shares[j]
    ensures weights[i] == weights[j] && i < j ==> 0 <= shares[i] - shares[j] <= 1
  {
    if weights[i] > weights[j] {
      if revenue == 0 {
        ZeroRevenue(weights, shares);
      } else {
        QuotaMonotone(revenue, weights[i], weights[j]);
        HeavierNeverLess(revenue, weights, shares, i, j);
      }
    } else if weights[i] == weights[j] && i < j {
      HeavierNeverLess(revenue, weights, shares, i, j);
      assert shares[i] <= Floor(revenue, weights[i]) + 1 && shares[j] >= Floor(revenue, weights[j]);
    }
  }
}
