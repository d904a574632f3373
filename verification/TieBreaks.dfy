/** The tie-break the ledger documents, by asset id, beside the one it applies, by index. */
module TieBreaks {
  import opened Sequences
  import opened Text
  import opened Allocation
  import opened AllocationTheorems

  /** Served before `j` under the documented rule: a larger remainder, then the lower asset id, then list order. */
  ghost predicate BeforeById(revenue: int, weights: seq<int>, ids: seq<string>, i: int, j: int)
    requires 0 <= i < |weights| == |ids| && 0 <= j < |weights|
  {
    var ri, rj := Remainder(revenue, weights[i]), Remainder(revenue, weights[j]);
    ri > rj || (ri == rj && StrLe(ids[i], ids[j]) && (ids[i] == ids[j] ==> i < j))
  }

  /** The sort key `(-remainder, asset id)`; the sort keeps list order between equal keys. */
  function ByIdKey(remainders: seq<int>, ids: seq<string>): (int, int) -> bool {
    (i: int, j: int) =>
      || At(remainders, i) > At(remainders, j)
      || (At(remainders, i) == At(remainders, j) && StrLe(IdAt(ids, i), IdAt(ids, j)) && (IdAt(ids, i) == IdAt(ids, j) ==> i <= j))
  }

  function IdAt(ids: seq<string>, i: int): string {
    if 0 <= i < |ids| then ids[i] else ""
  }

  function IdOrder(revenue: int, weights: seq<int>, ids: seq<string>): seq<int> {
    SortBy(ByIdKey(Remainders(revenue, weights), ids), Indices(|weights|))
  }

  /** The split as documented: the same floors and leftover, handed out in the order of the ids. */
  function SharesById(revenue: int, weights: seq<int>, ids: seq<string>): seq<int> {
    var floors := Floors(revenue, weights);
    Bump(floors, IdOrder(revenue, weights, ids), revenue - Sum(floors))
  }

  lemma {:induction false} StrLeBoth(a: string, b: string)
    ensures StrLe(a, b) || StrLe(b, a)
    ensures StrLe(a, b) && StrLe(b, a) ==> a == b
  {
    StrLeTotal(a, b);
  }

  lemma {:induction false} IdKeyTotal(remainders: seq<int>, ids: seq<string>)
    ensures TotalPreorder(ByIdKey(remainders, ids))
  {
    var le := ByIdKey(remainders, ids);
    forall i, j ensures le(i, j) || le(j, i) {
      StrLeBoth(IdAt(ids, i), IdAt(ids, j));
    }
    forall i, j, k | le(i, j) && le(j, k) ensures le(i, k) {
      if At(remainders, i) == At(remainders, j) == At(remainders, k) {
        StrLeTransitive(IdAt(ids, i), IdAt(ids, j), IdAt(ids, k));
        StrLeBoth(IdAt(ids, i), IdAt(ids, j));
      }
    }
  }

  lemma {:induction false} IdOrderPermutes(revenue: int, weights: seq<int>, ids: seq<string>)
    ensures var order := IdOrder(revenue, weights, ids);
            && |order| == |weights| && Distinct(order)
            && (forall p | 0 <= p < |order| :: 0 <= order[p] < |weights|)
            && (forall i :: i in order <==> 0 <= i < |weights|)
            && SortedBy(ByIdKey(Remainders(revenue, weights), ids), order)
  {
    var le := ByIdKey(Remainders(revenue, weights), ids);
    IdKeyTotal(Remainders(revenue, weights), ids);
    SortByPermutes(le, Indices(|weights|));
    SortBySorted(le, Indices(|weights|));
    PermutedIndices(|weights|, IdOrder(revenue, weights, ids));
  }

  lemma {:induction false} PermutedIndices(n: nat, order: seq<int>)
    requires multiset(order) == multiset(Indices(n)) && |order| == n
    ensures Distinct(order) && (forall i :: i in order <==> 0 <= i < n) && forall p | 0 <= p < n :: 0 <= order[p] < n
  {
    DistinctByMultiset(Indices(n), order);
    forall i ensures i in order <==> 0 <= i < n {
      assert i in order <==> i in multiset(order);
      assert i in Indices(n) <==> i in multiset(Indices(n));
      if 0 <= i < n { assert Indices(n)[i] == i; }
    }
    assert forall p | 0 <= p < n :: order[p] in order;
  }

  /** Who gets a leftover cent under each rule, and that both give out the same amount. */
  lemma {:induction false} ServedById(revenue: int, weights: seq<int>, ids: seq<string>)
    requires ValidSplit(revenue, weights) && |ids| == |weights|
    ensures var shares := SharesById(revenue, weights, ids);
            && |shares| == |weights| && Sum(shares) == revenue
            && (forall i | 0 <= i < |weights| :: shares[i] == Floor(revenue, weights[i]) || Bumped(revenue, weights, shares, i))
  {
    LeftoverBound(revenue, weights);
    IdOrderPermutes(revenue, weights, ids);
    BumpPointwise(Floors(revenue, weights), IdOrder(revenue, weights, ids), revenue - Sum(Floors(revenue, weights)));
  }

  lemma {:induction false} PrefixById(revenue: int, weights: seq<int>, ids: seq<string>, i: nat)
    requires ValidSplit(revenue, weights) && |ids| == |weights| && i < |weights|
    ensures |SharesById(revenue, weights, ids)| == |weights| == |IdOrder(revenue, weights, ids)|
    ensures 0 <= revenue - Sum(Floors(revenue, weights)) <= |weights|
    ensures Bumped(revenue, weights, SharesById(revenue, weights, ids), i)
       <==> i in IdOrder(revenue, weights, ids)[..revenue - Sum(Floors(revenue, weights))]
  {
    LeftoverBound(revenue, weights);
    IdOrderPermutes(revenue, weights, ids);
    BumpPointwise(Floors(revenue, weights), IdOrder(revenue, weights, ids), revenue - Sum(Floors(revenue, weights)));
  }

  lemma {:induction false} KeyFollowsRule(revenue: int, weights: seq<int>, ids: seq<string>, i: nat, j: nat)
    requires i < |weights| == |ids| && j < |weights| && BeforeById(revenue, weights, ids, i, j)
    ensures !ByIdKey(Remainders(revenue, weights), ids)(j, i)
  {
    var remainders := Remainders(revenue, weights);
    StrLeBoth(ids[i], ids[j]);
    assert At(remainders, i) == Remainder(revenue, weights[i]) && At(remainders, j) == Remainder(revenue, weights[j]);
    assert IdAt(ids, i) == ids[i] && IdAt(ids, j) == ids[j];
  }

  lemma {:induction false} PrefixClosed(revenue: int, weights: seq<int>, ids: seq<string>, n: nat, i: nat, j: nat)
    requires i < |weights| == |ids| && j < |weights| && n <= |weights| == |IdOrder(revenue, weights, ids)|
    requires BeforeById(revenue, weights, ids, i, j) && j in IdOrder(revenue, weights, ids)[..n]
    ensures i in IdOrder(revenue, weights, ids)[..n]
  {
    var order := IdOrder(revenue, weights, ids);
    IdOrderPermutes(revenue, weights, ids);
    var q :| 0 <= q < n && order[q] == j;
    assert i in order;
    var p :| 0 <= p < |order| && order[p] == i;
    KeyFollowsRule(revenue, weights, ids, i, j);
    assert p <= q;
    assert order[..n][p] == i;
  }

  /** The documented split serves in the documented order. */
  lemma {:induction false} ServesInIdOrder(revenue: int, weights: seq<int>, ids: seq<string>, i: nat, j: nat)
    requires ValidSplit(revenue, weights) && |ids| == |weights| && i < |weights| && j < |weights|
    requires BeforeById(revenue, weights, ids, i, j)
    ensures |SharesById(revenue, weights, ids)| == |weights|
    ensures Bumped(revenue, weights, SharesById(revenue, weights, ids), j) ==> Bumped(revenue, weights, SharesById(revenue, weights, ids), i)
  {
    PrefixById(revenue, weights, ids, i);
    PrefixById(revenue, weights, ids, j);
    if Bumped(revenue, weights, SharesById(revenue, weights, ids), j) {
      PrefixClosed(revenue, weights, ids, revenue - Sum(Floors(revenue, weights)), i, j);
    }
  }

  /** `i` is among the first `leftover` indices in the order of the code. */
  predicate InFront(revenue: int, weights: seq<int>, i: int) {
    var leftover, order := revenue - Sum(Floors(revenue, weights)), RemainderOrder(revenue, weights);
    0 <= leftover <= |order| && i in order[..leftover]
  }

  /** The last leftover cent falls between two equal remainders whose asset ids stand in descending order. */
  ghost predicate TieSplitAgainstIds(revenue: int, weights: seq<int>, ids: seq<string>, i: int, j: int) {
    && 0 <= i < j < |weights| == |ids|
    && Remainder(revenue, weights[i]) == Remainder(revenue, weights[j])
    && InFront(revenue, weights, i) && !InFront(revenue, weights, j)
    && !StrLe(ids[i], ids[j])
  }

  /** Two splits of one total over the same floors differ in both directions. */
  lemma {:induction false} SwappedCents(revenue: int, weights: seq<int>, a: seq<int>, b: seq<int>) returns (i: nat, j: nat)
    requires |a| == |b| == |weights| && Sum(a) == Sum(b) && a != b
    requires forall k | 0 <= k < |weights| :: a[k] == Floor(revenue, weights[k]) || Bumped(revenue, weights, a, k)
    requires forall k | 0 <= k < |weights| :: b[k] == Floor(revenue, weights[k]) || Bumped(revenue, weights, b, k)
    ensures i < |weights| && Bumped(revenue, weights, a, i) && !Bumped(revenue, weights, b, i)
    ensures j < |weights| && Bumped(revenue, weights, b, j) && !Bumped(revenue, weights, a, j)
  {
    var k := FirstDifference(a, b);
    i := OneAbove(a, b, k);
    j := OneAbove(b, a, k);
  }

  lemma {:induction false} OneAbove(a: seq<int>, b: seq<int>, k: nat) returns (i: nat)
    requires |a| == |b| && Sum(a) == Sum(b) && k < |a| && a[k] != b[k]
    ensures i < |a| && a[i] > b[i]
  {
    if forall x | 0 <= x < |a| :: a[x] <= b[x] {
      SumDominates(a, b, k);
    }
    i :| 0 <= i < |a| && a[i] > b[i];
  }

  /**
   * The two tie-breaks give the same split exactly when no leftover cent separates two equal remainders whose asset ids
   * are in descending order.
   */
  lemma {:induction false} TieBreaksAgreeIff(revenue: int, weights: seq<int>, ids: seq<string>)
    requires ValidSplit(revenue, weights) && |ids| == |weights|
    ensures Shares(revenue, weights) == SharesById(revenue, weights, ids)
       <==> !exists i, j :: TieSplitAgainstIds(revenue, weights, ids, i, j)
  {
    var a, b := Shares(revenue, weights), SharesById(revenue, weights, ids);
    SharesLargestRemainder(revenue, weights);
    ServedById(revenue, weights, ids);
    if a != b {
      var i, j := SwappedCents(revenue, weights, a, b);
      DifferenceIsTie(revenue, weights, ids, i, j);
    }
    if i, j :| TieSplitAgainstIds(revenue, weights, ids, i, j) {
      TieMakesDifference(revenue, weights, ids, i, j);
    }
  }

  lemma {:induction false} FrontIffBumped(revenue: int, weights: seq<int>, i: nat)
    requires ValidSplit(revenue, weights) && i < |weights|
    ensures |Shares(revenue, weights)| == |weights|
    ensures InFront(revenue, weights, i) <==> Bumped(revenue, weights, Shares(revenue, weights), i)
  {
    BumpedIffPrefix(revenue, weights, i);
  }

  lemma {:induction false} DifferenceIsTie(revenue: int, weights: seq<int>, ids: seq<string>, i: nat, j: nat)
    requires ValidSplit(revenue, weights) && |ids| == |weights| && i < |weights| && j < |weights|
    requires |Shares(revenue, weights)| == |weights| == |SharesById(revenue, weights, ids)|
    requires Bumped(revenue, weights, Shares(revenue, weights), i) && !Bumped(revenue, weights, Shares(revenue, weights), j)
    requires !Bumped(revenue, weights, SharesById(revenue, weights, ids), i) && Bumped(revenue, weights, SharesById(revenue, weights, ids), j)
    ensures TieSplitAgainstIds(revenue, weights, ids, i, j)
  {
    SharesLargestRemainder(revenue, weights);
    FrontIffBumped(revenue, weights, i);
    FrontIffBumped(revenue, weights, j);
    assert !Before(revenue, weights, j, i);
    if BeforeById(revenue, weights, ids, i, j) {
      ServesInIdOrder(revenue, weights, ids, i, j);
    }
  }

  lemma {:induction false} TieMakesDifference(revenue: int, weights: seq<int>, ids: seq<string>, i: nat, j: nat)
    requires ValidSplit(revenue, weights) && |ids| == |weights| && TieSplitAgainstIds(revenue, weights, ids, i, j)
    ensures Shares(revenue, weights) != SharesById(revenue, weights, ids)
  {
    FrontIffBumped(revenue, weights, i);
    FrontIffBumped(revenue, weights, j);
    StrLeBoth(ids[i], ids[j]);
    ServesInIdOrder(revenue, weights, ids, j, i);
  }

  /** Listing contributions in ascending asset id makes the documented tie-break the one applied. */
  lemma {:induction false} AscendingIdsAgree(revenue: int, weights: seq<int>, ids: seq<string>)
    requires ValidSplit(revenue, weights) && |ids| == |weights|
    requires forall i, j | 0 <= i < j < |ids| :: StrLe(ids[i], ids[j])
    ensures Shares(revenue, weights) == SharesById(revenue, weights, ids)
  {
    TieBreaksAgreeIff(revenue, weights, ids);
  }

  /** One cent over two equal weights goes to the first listed, `b`; the documented rule gives it to `a`. */
  lemma {:induction false} DescendingIdsDiffer()
    ensures ValidSplit(1, [5000, 5000])
    ensures Shares(1, [5000, 5000]) == [1, 0] && SharesById(1, [5000, 5000], ["b", "a"]) == [0, 1]
  {
    var weights, ids := [5000, 5000], ["b", "a"];
    assert weights[..1] == [5000] && Sum(weights) == 10000;
    assert Floor(1, 5000) == 0 && Remainder(1, 5000) == 5000;
    OneCent(Shares(1, weights), SharesById(1, weights, ids), weights, ids);
  }

  lemma {:induction false} OneCent(a: seq<int>, b: seq<int>, weights: seq<int>, ids: seq<string>)
    requires weights == [5000, 5000] && ids == ["b", "a"] && ValidSplit(1, weights)
    requires a == Shares(1, weights) && b == SharesById(1, weights, ids)
    ensures a == [1, 0] && b == [0, 1]
  {
    SharesLargestRemainder(1, weights);
    ServedById(1, weights, ids);
    SumOfTwo(a);
    SumOfTwo(b);
    assert Before(1, weights, 0, 1);
    assert StrLe("a", "b") && BeforeById(1, weights, ids, 1, 0);
    ServesInIdOrder(1, weights, ids, 1, 0);
  }

  lemma {:induction false} SumOfTwo(s: seq<int>)
    requires |s| == 2
    ensures Sum(s) == s[0] + s[1]
  {
    assert s[..1][..0] == [] && s[..1][0] == s[0];
    assert Sum(s[..1]) == s[0];
  }
}
