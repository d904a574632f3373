/** Sums over sequences, and the stable sort that stands for Python's `sorted`. */
module Sequences {

  // ---------- sums ----------

  function SumOf<T>(f: T -> int, s: seq<T>): int {
    if s == [] then 0 else SumOf(f, s[..|s| - 1]) + f(s[|s| - 1])
  }

  function Sum(s: seq<int>): int {
    if s == [] then 0 else Sum(s[..|s| - 1]) + s[|s| - 1]
  }

  lemma {:induction false} SumOfConcat<T>(f: T -> int, a: seq<T>, b: seq<T>)
    ensures SumOf(f, a + b) == SumOf(f, a) + SumOf(f, b)
  {
    if b == [] {
      assert a + b == a;
    } else {
      var n := |b| - 1;
      assert (a + b)[..|a + b| - 1] == a + b[..n];
      SumOfConcat(f, a, b[..n]);
    }
  }

  lemma {:induction false} SumOfAppend<T>(f: T -> int, s: seq<T>, x: T)
    ensures SumOf(f, s + [x]) == SumOf(f, s) + f(x)
  {
    assert (s + [x])[..|s|] == s;
  }

  lemma {:induction false} SumOfUpdate<T>(f: T -> int, s: seq<T>, i: nat, x: T)
    requires i < |s|
    ensures SumOf(f, s[i := x]) == SumOf(f, s) - f(s[i]) + f(x)
  {
    var a, b := s[..i], s[i + 1..];
    assert s == a + ([s[i]] + b) && s[i := x] == a + ([x] + b);
    SumOfConcat(f, a, [s[i]] + b);
    SumOfConcat(f, a, [x] + b);
    SumOfConcat(f, [s[i]], b);
    SumOfConcat(f, [x], b);
    assert [x][..0] == [] && [s[i]][..0] == [];
    assert SumOf(f, [x]) == f(x) && SumOf(f, [s[i]]) == f(s[i]);
  }

  lemma {:induction false} SumOfLeq<T>(f: T -> int, g: T -> int, s: seq<T>)
    requires forall x | x in s :: f(x) <= g(x)
    ensures SumOf(f, s) <= SumOf(g, s)
  {
    if s != [] {
      SumOfLeq(f, g, s[..|s| - 1]);
    }
  }

  lemma {:induction false} SumOfSame<T>(f: T -> int, g: T -> int, s: seq<T>)
    requires forall x | x in s :: f(x) == g(x)
    ensures SumOf(f, s) == SumOf(g, s)
  {
    SumOfLeq(f, g, s);
    SumOfLeq(g, f, s);
  }

  lemma {:induction false} SumOfAdd<T>(f: T -> int, g: T -> int, h: T -> int, s: seq<T>)
    requires forall x | x in s :: h(x) == f(x) + g(x)
    ensures SumOf(h, s) == SumOf(f, s) + SumOf(g, s)
  {
    if s != [] {
      SumOfAdd(f, g, h, s[..|s| - 1]);
    }
  }

  lemma {:induction false} SumOfZero<T>(f: T -> int, s: seq<T>)
    requires forall x | x in s :: f(x) == 0
    ensures SumOf(f, s) == 0
  {
    if s != [] {
      SumOfZero(f, s[..|s| - 1]);
    }
  }

  /** A sum of non-negative terms is at least any two of them. */
  lemma {:induction false} SumOfAtLeast<T>(f: T -> int, s: seq<T>, i: nat)
    requires i < |s|
    requires forall x | x in s :: f(x) >= 0
    ensures SumOf(f, s) >= f(s[i])
  {
    if i == |s| - 1 {
      SumOfLeq(x => 0, f, s[..|s| - 1]);
      SumOfZero(x => 0, s[..|s| - 1]);
    } else {
      SumOfAtLeast(f, s[..|s| - 1], i);
    }
  }

  lemma {:induction false} SumStep(s: seq<int>, n: nat)
    requires 0 < n <= |s|
    ensures Sum(s[..n]) == Sum(s[..n - 1]) + s[n - 1]
  {
    assert s[..n][..n - 1] == s[..n - 1];
  }

  lemma {:induction false} SumUpdate(s: seq<int>, i: nat, x: int)
    requires i < |s|
    ensures Sum(s[i := x]) == Sum(s) - s[i] + x
  {
    SumIsSumOf(s);
    SumIsSumOf(s[i := x]);
    SumOfUpdate((y: int) => y, s, i, x);
  }

  lemma {:induction false} SumIsSumOf(s: seq<int>)
    ensures Sum(s) == SumOf((y: int) => y, s)
  {
    if s != [] {
      SumIsSumOf(s[..|s| - 1]);
    }
  }

  // ---------- sorting ----------

  ghost predicate TotalPreorder<T(!new)>(le: (T, T) -> bool) {
    && (forall x, y :: le(x, y) || le(y, x))
    && (forall x, y, z :: le(x, y) && le(y, z) ==> le(x, z))
  }

  predicate SortedBy<T>(le: (T, T) -> bool, s: seq<T>) {
    forall i, j | 0 <= i < j < |s| :: le(s[i], s[j])
  }

  function Insert<T>(le: (T, T) -> bool, x: T, s: seq<T>): seq<T> {
    if s == [] || le(x, s[0]) then [x] + s else [s[0]] + Insert(le, x, s[1..])
  }

  /** Insertion sort; equal elements keep their order. */
  function SortBy<T>(le: (T, T) -> bool, s: seq<T>): seq<T> {
    if s == [] then [] else Insert(le, s[0], SortBy(le, s[1..]))
  }

  lemma {:induction false} InsertPermutes<T>(le: (T, T) -> bool, x: T, s: seq<T>)
    ensures multiset(Insert(le, x, s)) == multiset(s) + multiset{x}
  {
    if !(s == [] || le(x, s[0])) {
      InsertPermutes(le, x, s[1..]);
      assert s == [s[0]] + s[1..];
    }
  }

  lemma {:induction false} SortByPermutes<T>(le: (T, T) -> bool, s: seq<T>)
    ensures multiset(SortBy(le, s)) == multiset(s)
    ensures |SortBy(le, s)| == |s|
  {
    if s != [] {
      SortByPermutes(le, s[1..]);
      InsertPermutes(le, s[0], SortBy(le, s[1..]));
      assert s == [s[0]] + s[1..];
    }
    assert |multiset(SortBy(le, s))| == |multiset(s)|;
  }

  lemma {:induction false} InsertSorted<T(!new)>(le: (T, T) -> bool, x: T, s: seq<T>)
    requires TotalPreorder(le) && SortedBy(le, s)
    ensures SortedBy(le, Insert(le, x, s))
  {
    if s == [] {
    } else if le(x, s[0]) {
      forall j | 0 <= j < |s| ensures le(x, s[j]) {
        assert j == 0 || le(s[0], s[j]);
      }
    } else {
      var t := Insert(le, x, s[1..]);
      InsertSorted(le, x, s[1..]);
      InsertPermutes(le, x, s[1..]);
      forall j | 0 <= j < |t| ensures le(s[0], t[j]) {
        assert t[j] in multiset(t);
        if t[j] != x {
          assert t[j] in s[1..];
        }
      }
    }
  }

  lemma {:induction false} SortBySorted<T(!new)>(le: (T, T) -> bool, s: seq<T>)
    requires TotalPreorder(le)
    ensures SortedBy(le, SortBy(le, s))
  {
    if s != [] {
      SortBySorted(le, s[1..]);
      InsertSorted(le, s[0], SortBy(le, s[1..]));
    }
  }

  /** The order tells any two different elements apart. */
  ghost predicate Separates<T>(le: (T, T) -> bool, s: seq<T>) {
    forall x, y | x in s && y in s && le(x, y) && le(y, x) :: x == y
  }

  lemma {:induction false} SortedSameHead<T>(le: (T, T) -> bool, a: seq<T>, b: seq<T>)
    requires SortedBy(le, a) && SortedBy(le, b)
    requires multiset(a) == multiset(b) && a != [] && b != []
    requires Separates(le, a)
    ensures a[0] == b[0]
  {
    assert a[0] in multiset(b) && b[0] in multiset(a);
    assert a[0] in b && b[0] in a;
    var j :| 0 <= j < |b| && b[j] == a[0];
    var i :| 0 <= i < |a| && a[i] == b[0];
    if i != 0 && j != 0 {
      assert le(b[0], b[j]) && le(a[0], a[i]);
    }
  }

  lemma {:induction false} MultisetTail<T>(a: seq<T>)
    requires a != []
    ensures multiset(a[1..]) == multiset(a) - multiset{a[0]}
    ensures forall x | x in a[1..] :: x in a
  {
    assert a == [a[0]] + a[1..];
  }

  lemma {:induction false} SortedTail<T>(le: (T, T) -> bool, s: seq<T>)
    requires SortedBy(le, s) && s != []
    ensures SortedBy(le, s[1..])
    ensures Separates(le, s) ==> Separates(le, s[1..])
  {
    assert forall x | x in s[1..] :: x in s;
  }

  lemma {:induction false} SameLength<T>(a: seq<T>, b: seq<T>)
    requires multiset(a) == multiset(b)
    ensures |a| == |b|
  {
    assert |multiset(a)| == |multiset(b)|;
  }

  lemma {:induction false} TailsAgree<T>(a: seq<T>, b: seq<T>)
    requires a != [] && b != [] && a[0] == b[0] && multiset(a) == multiset(b)
    ensures multiset(a[1..]) == multiset(b[1..])
  {
    MultisetTail(a);
    MultisetTail(b);
  }

  lemma {:induction false} Rejoin<T>(a: seq<T>, b: seq<T>)
    requires a != [] && b != [] && a[0] == b[0] && a[1..] == b[1..]
    ensures a == b
  {
    assert a == [a[0]] + a[1..] && b == [b[0]] + b[1..];
  }

  /** Two sorted arrangements of the same elements agree when the order separates them. */
  lemma {:induction false} SortedUnique<T>(le: (T, T) -> bool, a: seq<T>, b: seq<T>)
    requires SortedBy(le, a) && SortedBy(le, b)
    requires multiset(a) == multiset(b)
    requires Separates(le, a)
    ensures a == b
  {
    SameLength(a, b);
    if a != [] {
      SortedSameHead(le, a, b);
      TailsAgree(a, b);
      SortedTail(le, a);
      SortedTail(le, b);
      SortedUnique(le, a[1..], b[1..]);
      Rejoin(a, b);
    }
  }

  /** Sorting forgets the order of its input when the order separates the elements. */
  lemma {:induction false} SortByCanonical<T(!new)>(le: (T, T) -> bool, a: seq<T>, b: seq<T>)
    requires TotalPreorder(le)
    requires Separates(le, a)
    requires multiset(a) == multiset(b)
    ensures SortBy(le, a) == SortBy(le, b)
  {
    SortBySorted(le, a);
    SortBySorted(le, b);
    SortByPermutes(le, a);
    SortByPermutes(le, b);
    forall x | x in SortBy(le, a) ensures x in a {
      assert x in multiset(SortBy(le, a));
    }
    SortedUnique(le, SortBy(le, a), SortBy(le, b));
  }

  /** A sorted list is its own sort. */
  lemma {:induction false} SortByOfSorted<T(!new)>(le: (T, T) -> bool, s: seq<T>)
    requires TotalPreorder(le) && SortedBy(le, s)
    requires forall x, y | x in s && y in s && le(x, y) && le(y, x) :: x == y
    ensures SortBy(le, s) == s
  {
    SortBySorted(le, s);
    SortByPermutes(le, s);
    SortedUnique(le, s, SortBy(le, s));
  }

  predicate Distinct<T(==)>(s: seq<T>) {
    forall i, j | 0 <= i < j < |s| :: s[i] != s[j]
  }

  lemma {:induction false} DistinctCount<T>(s: seq<T>, x: T)
    requires Distinct(s)
    ensures multiset(s)[x] <= 1
  {
    if s != [] {
      MultisetTail(s);
      DistinctCount(s[1..], x);
      assert s[0] !in s[1..];
    }
  }

  lemma {:induction false} CountTwice<T>(s: seq<T>, i: nat, j: nat)
    requires i < j < |s| && s[i] == s[j]
    ensures multiset(s)[s[i]] >= 2
  {
    assert s == s[..j] + ([s[j]] + s[j + 1..]);
    assert s[i] in s[..j];
  }

  lemma {:induction false} DistinctByMultiset<T>(a: seq<T>, b: seq<T>)
    requires Distinct(a) && multiset(a) == multiset(b)
    ensures Distinct(b)
  {
    forall i, j | 0 <= i < j < |b| ensures b[i] != b[j] {
      DistinctCount(a, b[i]);
      if b[i] == b[j] {
        CountTwice(b, i, j);
      }
    }
  }

  lemma {:induction false} MiddleMultiset<T>(p: seq<T>, x: seq<T>, q: seq<T>)
    ensures multiset(p + (x + q)) == multiset(p + q) + multiset(x)
  {
  }

  /** Takes one occurrence of an element out of the middle of a sequence. */
  lemma {:induction false} SplitAround<T>(b: seq<T>, x: T) returns (p: seq<T>, q: seq<T>)
    requires x in multiset(b)
    ensures b == p + ([x] + q)
    ensures multiset(p + q) == multiset(b) - multiset{x}
  {
    var j :| 0 <= j < |b| && b[j] == x;
    p, q := b[..j], b[j + 1..];
    assert b == p + ([x] + q);
    MiddleMultiset(p, [x], q);
  }

  /** A function applied to each element. */
  function Map<S, T>(f: S -> T, s: seq<S>): seq<T> {
    seq(|s|, i requires 0 <= i < |s| => f(s[i]))
  }

  lemma {:induction false} MapAround<S, T>(f: S -> T, p: seq<S>, x: S, q: seq<S>)
    ensures multiset(Map(f, p + ([x] + q))) == multiset(Map(f, p + q)) + multiset{f(x)}
  {
    assert Map(f, p + ([x] + q)) == Map(f, p) + ([f(x)] + Map(f, q));
    assert Map(f, p + q) == Map(f, p) + Map(f, q);
    MiddleMultiset(Map(f, p), [f(x)], Map(f, q));
  }

  lemma {:induction false} MapStep<S, T>(f: S -> T, x: S, rest: seq<S>, p: seq<S>, q: seq<S>)
    requires multiset(Map(f, rest)) == multiset(Map(f, p + q))
    ensures multiset(Map(f, [x] + rest)) == multiset(Map(f, p + ([x] + q)))
  {
    MapAround(f, [], x, rest);
    MapAround(f, p, x, q);
    assert [] + ([x] + rest) == [x] + rest && [] + rest == rest;
  }

  /** Permuting a list permutes its image. */
  lemma {:induction false} MapPermutes<S, T>(f: S -> T, a: seq<S>, b: seq<S>)
    requires multiset(a) == multiset(b)
    ensures multiset(Map(f, a)) == multiset(Map(f, b))
  {
    SameLength(a, b);
    if a != [] {
      var x, rest := a[0], a[1..];
      assert a == [x] + rest;
      assert x in multiset(b);
      var p, q := SplitAround(b, x);
      MapPermutes(f, rest, p + q);
      MapStep(f, x, rest, p, q);
    }
  }
}
