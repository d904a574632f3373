/** Largest-remainder split of an integer amount over basis-point weights. */
module Allocation {
  import opened Wrappers
  import opened Sequences

  const BASIS_POINTS_TOTAL := 10000

  datatype AllocationError = NegativeRevenue | NoWeights | NegativeWeight | WrongTotal(total: int)

  function Floor(revenue: int, weight: int): int {
    revenue * weight / BASIS_POINTS_TOTAL
  }

  function Remainder(revenue: int, weight: int): int {
    revenue * weight % BASIS_POINTS_TOTAL
  }

  function Floors(revenue: int, weights: seq<int>): seq<int> {
    seq(|weights|, i requires 0 <= i < |weights| => Floor(revenue, weights[i]))
  }

  function Remainders(revenue: int, weights: seq<int>): seq<int> {
    seq(|weights|, i requires 0 <= i < |weights| => Remainder(revenue, weights[i]))
  }

  function Indices(n: nat): seq<int> {
    seq(n, i => i)
  }

  function At(s: seq<int>, i: int): int {
    if 0 <= i < |s| then s[i] else 0
  }

  /** The sort key `(-remainder, index)`, as an order on indices. */
  function ByRemainder(remainders: seq<int>): (int, int) -> bool {
    (i: int, j: int) => At(remainders, i) > At(remainders, j) || (At(remainders, i) == At(remainders, j) && i <= j)
  }

  /** One cent to each of the first `k` indices of `order`. */
  function Bump(base: seq<int>, order: seq<int>, k: int): (r: seq<int>)
    ensures |r| == |base|
    decreases k
  {
    if k <= 0 || k > |order| then base
    else
      var r := Bump(base, order, k - 1);
      var i := order[k - 1];
      if 0 <= i < |r| then r[i := r[i] + 1] else r
  }

  // ---------- what the split promises ----------

  ghost predicate ValidSplit(revenue: int, weights: seq<int>) {
    revenue >= 0 && weights != [] && (forall w | w in weights :: w >= 0) && Sum(weights) == BASIS_POINTS_TOTAL
  }

  /** `i` is served a leftover cent before `j`. */
  ghost predicate Before(revenue: int, weights: seq<int>, i: int, j: int)
    requires 0 <= i < |weights| && 0 <= j < |weights|
  {
    var ri, rj := Remainder(revenue, weights[i]), Remainder(revenue, weights[j]);
    ri > rj || (ri == rj && i < j)
  }

  ghost predicate Bumped(revenue: int, weights: seq<int>, shares: seq<int>, i: int)
    requires 0 <= i < |weights| == |shares|
  {
    shares[i] == Floor(revenue, weights[i]) + 1
  }

  /** The largest-remainder rule, stated without an algorithm. */
  ghost predicate LargestRemainder(revenue: int, weights: seq<int>, shares: seq<int>) {
    && |shares| == |weights|
    && Sum(shares) == revenue
    && (forall i | 0 <= i < |shares| ::
          shares[i] == Floor(revenue, weights[i]) || Bumped(revenue, weights, shares, i))
    && (forall i, j | 0 <= i < |shares| && 0 <= j < |shares| ::
          Before(revenue, weights, i, j) && Bumped(revenue, weights, shares, j) ==> Bumped(revenue, weights, shares, i))
  }

  /** Which inputs are refused, and with what. */
  function CheckSplit(revenue: int, weights: seq<int>): Option<AllocationError> {
    if revenue < 0 then Some(NegativeRevenue)
    else if weights == [] then Some(NoWeights)
    else if exists w | w in weights :: w < 0 then Some(NegativeWeight)
    else if Sum(weights) != BASIS_POINTS_TOTAL then Some(WrongTotal(Sum(weights)))
    else None
  }

  function Shares(revenue: int, weights: seq<int>): seq<int> {
    var floors := Floors(revenue, weights);
    Bump(floors, RemainderOrder(revenue, weights), revenue - Sum(floors))
  }

  function RemainderOrder(revenue: int, weights: seq<int>): seq<int> {
    SortBy(ByRemainder(Remainders(revenue, weights)), Indices(|weights|))
  }

  function Allocate(revenue: int, weights: seq<int>): Result<seq<int>, AllocationError> {
    match CheckSplit(revenue, weights)
    case Some(e) => Err(e)
    case None => Ok(Shares(revenue, weights))
  }

  /** The loops of the source: check, floor, order, hand out the leftover. */
  method AllocateCents(revenue: int, weights: seq<int>) returns (r: Result<seq<int>, AllocationError>)
    ensures r == Allocate(revenue, weights)
  {
    if revenue < 0 { return Err(NegativeRevenue); }
    if weights == [] { return Err(NoWeights); }
    var total := 0;
    for k := 0 to |weights|
      invariant total == Sum(weights[..k])
      invariant forall w | w in weights[..k] :: w >= 0
    {
      assert weights[..k + 1][..k] == weights[..k];
      assert weights[k] in weights && weights[..k + 1] == weights[..k] + [weights[k]];
      if weights[k] < 0 { return Err(NegativeWeight); }
      total := total + weights[k];
    }
    assert weights[..|weights|] == weights;
    if total != BASIS_POINTS_TOTAL { return Err(WrongTotal(total)); }
    if revenue == 0 {
      ZeroShares(weights);
      return Ok(seq(|weights|, i => 0));
    }
    var shares := Distribute(revenue, weights);
    return Ok(shares);
  }

  /** The second half of the split: the weights are known to be well formed. */
  method Distribute(revenue: int, weights: seq<int>) returns (shares: seq<int>)
    requires ValidSplit(revenue, weights)
    ensures shares == Shares(revenue, weights)
  {
    var floors: seq<int>, remainders: seq<int> := [], [];
    for k := 0 to |weights|
      invariant |floors| == k && forall p | 0 <= p < k :: floors[p] == Floor(revenue, weights[p])
      invariant |remainders| == k && forall p | 0 <= p < k :: remainders[p] == Remainder(revenue, weights[p])
    {
      var product := revenue * weights[k];
      floors := floors + [product / BASIS_POINTS_TOTAL];
      remainders := remainders + [product % BASIS_POINTS_TOTAL];
    }
    assert floors == Floors(revenue, weights) && remainders == Remainders(revenue, weights);
    var leftover := revenue - Sum(floors);
    var order := SortBy(ByRemainder(remainders), Indices(|weights|));
    LeftoverBound(revenue, weights);
    OrderPermutes(revenue, weights);
    shares := HandOut(floors, order, leftover);
  }

  /** The last loop: one cent to each of the first `leftover` indices of `order`. */
  method HandOut(floors: seq<int>, order: seq<int>, leftover: nat) returns (shares: seq<int>)
    requires leftover <= |order| && forall p | 0 <= p < |order| :: 0 <= order[p] < |floors|
    ensures shares == Bump(floors, order, leftover)
  {
    shares := floors;
    for k := 0 to leftover
      invariant shares == Bump(floors, order, k)
    {
      NoWrap(k, |order|);
      var i := order[k % |order|];
      shares := shares[i := shares[i] + 1];
    }
  }

  lemma {:induction false} NoWrap(k: nat, n: nat)
    requires k < n
    ensures k % n == k
  {
  }

  // ---------- the leftover is a proper count of indices ----------

  lemma {:induction false} DivMod(x: int)
    ensures x == BASIS_POINTS_TOTAL * (x / BASIS_POINTS_TOTAL) + x % BASIS_POINTS_TOTAL
    ensures 0 <= x % BASIS_POINTS_TOTAL < BASIS_POINTS_TOTAL
  {
  }

  lemma {:induction false} SumsDecompose(revenue: int, weights: seq<int>)
    ensures revenue * Sum(weights)
         == BASIS_POINTS_TOTAL * Sum(Floors(revenue, weights)) + Sum(Remainders(revenue, weights))
    ensures 0 <= Sum(Remainders(revenue, weights)) <= (BASIS_POINTS_TOTAL - 1) * |weights|
  {
    if weights != [] {
      var n := |weights| - 1;
      SumsDecompose(revenue, weights[..n]);
      assert Floors(revenue, weights)[..n] == Floors(revenue, weights[..n]);
      assert Remainders(revenue, weights)[..n] == Remainders(revenue, weights[..n]);
      DivMod(revenue * weights[n]);
      assert revenue * Sum(weights) == revenue * Sum(weights[..n]) + revenue * weights[n];
    }
  }

  /** The leftover is strictly below the number of weights, so the index `k % len(order)` never wraps. */
  lemma {:induction false} LeftoverBound(revenue: int, weights: seq<int>)
    requires ValidSplit(revenue, weights)
    ensures 0 <= revenue - Sum(Floors(revenue, weights)) < |weights|
    ensures BASIS_POINTS_TOTAL * (revenue - Sum(Floors(revenue, weights))) == Sum(Remainders(revenue, weights))
  {
    SumsDecompose(revenue, weights);
  }

  lemma {:induction false} OrderPermutes(revenue: int, weights: seq<int>)
    ensures |RemainderOrder(revenue, weights)| == |weights|
    ensures forall p | 0 <= p < |weights| :: 0 <= RemainderOrder(revenue, weights)[p] < |weights|
    ensures Distinct(RemainderOrder(revenue, weights))
    ensures forall i :: i in RemainderOrder(revenue, weights) <==> 0 <= i < |weights|
    ensures SortedBy(ByRemainder(Remainders(revenue, weights)), RemainderOrder(revenue, weights))
  {
    var le := ByRemainder(Remainders(revenue, weights));
    var n := |weights|;
    var order := RemainderOrder(revenue, weights);
    SortByPermutes(le, Indices(n));
    SortBySorted(le, Indices(n));
    DistinctByMultiset(Indices(n), order);
    forall i ensures i in order <==> 0 <= i < n {
      assert i in order <==> i in multiset(order);
      assert i in Indices(n) <==> i in multiset(Indices(n));
      if 0 <= i < n { assert Indices(n)[i] == i; }
    }
    assert forall p | 0 <= p < n :: order[p] in order;
  }

  lemma {:induction false} BumpPointwise(base: seq<int>, order: seq<int>, k: nat)
    requires k <= |order| && Distinct(order) && forall p | 0 <= p < |order| :: 0 <= order[p] < |base|
    ensures Sum(Bump(base, order, k)) == Sum(base) + k
    ensures forall i | 0 <= i < |base| ::
              Bump(base, order, k)[i] == base[i] + if i in order[..k] then 1 else 0
  {
    if k > 0 {
      BumpPointwise(base, order, k - 1);
      var r, x := Bump(base, order, k - 1), order[k - 1];
      SumUpdate(r, x, r[x] + 1);
      assert order[..k] == order[..k - 1] + [x];
      assert x !in order[..k - 1];
    }
  }

  lemma {:induction false} BumpedIffPrefix(revenue: int, weights: seq<int>, i: int)
    requires ValidSplit(revenue, weights) && 0 <= i < |weights|
    ensures |Shares(revenue, weights)| == |weights|
    ensures 0 <= revenue - Sum(Floors(revenue, weights)) <= |RemainderOrder(revenue, weights)|
    ensures Bumped(revenue, weights, Shares(revenue, weights), i)
       <==> i in RemainderOrder(revenue, weights)[..revenue - Sum(Floors(revenue, weights))]
    ensures Shares(revenue, weights)[i] == Floor(revenue, weights[i])
         || Bumped(revenue, weights, Shares(revenue, weights), i)
  {
    LeftoverBound(revenue, weights);
    OrderPermutes(revenue, weights);
    BumpPointwise(Floors(revenue, weights), RemainderOrder(revenue, weights), revenue - Sum(Floors(revenue, weights)));
  }

  lemma {:induction false} PrefixServedFirst(revenue: int, weights: seq<int>, n: nat, i: int, j: int)
    requires 0 <= i < |weights| && 0 <= j < |weights| && n <= |weights|
    requires |RemainderOrder(revenue, weights)| == |weights|
    requires Before(revenue, weights, i, j) && j in RemainderOrder(revenue, weights)[..n]
    ensures i in RemainderOrder(revenue, weights)[..n]
  {
    var order := RemainderOrder(revenue, weights);
    OrderPermutes(revenue, weights);
    var q :| 0 <= q < n && order[q] == j;
    assert i in order;
    var p :| 0 <= p < |order| && order[p] == i;
    assert p <= q;
    assert order[..n][p] == i;
  }

  lemma {:induction false} SharesSum(revenue: int, weights: seq<int>)
    requires ValidSplit(revenue, weights)
    ensures |Shares(revenue, weights)| == |weights| && Sum(Shares(revenue, weights)) == revenue
  {
    LeftoverBound(revenue, weights);
    OrderPermutes(revenue, weights);
    BumpPointwise(Floors(revenue, weights), RemainderOrder(revenue, weights), revenue - Sum(Floors(revenue, weights)));
  }

  /** The code's split obeys the largest-remainder rule, and gives out the whole amount. */
  lemma {:induction false} SharesLargestRemainder(revenue: int, weights: seq<int>)
    requires ValidSplit(revenue, weights)
    ensures LargestRemainder(revenue, weights, Shares(revenue, weights))
  {
    var shares := Shares(revenue, weights);
    var leftover := revenue - Sum(Floors(revenue, weights));
    SharesSum(revenue, weights);
    LeftoverBound(revenue, weights);
    OrderPermutes(revenue, weights);
    forall i | 0 <= i < |weights|
      ensures shares[i] == Floor(revenue, weights[i]) || Bumped(revenue, weights, shares, i)
    {
      BumpedIffPrefix(revenue, weights, i);
    }
    forall i, j | 0 <= i < |shares| && 0 <= j < |shares| && Before(revenue, weights, i, j) && Bumped(revenue, weights, shares, j)
      ensures Bumped(revenue, weights, shares, i)
    {
      BumpedIffPrefix(revenue, weights, i);
      BumpedIffPrefix(revenue, weights, j);
      PrefixServedFirst(revenue, weights, leftover, i, j);
    }
  }

  lemma {:induction false} ZeroShares(weights: seq<int>)
    requires ValidSplit(0, weights)
    ensures Shares(0, weights) == seq(|weights|, i => 0)
  {
    SharesLargestRemainder(0, weights);
    ZeroRevenue(weights, Shares(0, weights));
  }

  lemma {:induction false} ZeroRevenue(weights: seq<int>, shares: seq<int>)
    requires LargestRemainder(0, weights, shares)
    ensures shares == seq(|weights|, i => 0)
  {
    assert forall i | 0 <= i < |shares| :: shares[i] >= 0;
    SumIsSumOf(shares);
    forall i | 0 <= i < |shares| ensures shares[i] == 0 {
      SumOfAtLeast((y: int) => y, shares, i);
    }
  }
}
