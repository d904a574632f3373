/** The re-sorting Merkle root of a build manifest. */
module Merkle {
  import opened Sequences
  import opened Text

  const DIGEST := 64

  /** One pass over a level: neighbours are hashed together, a last odd one with itself. */
  function PairUp(sha: string -> string, level: seq<string>): seq<string> {
    if level == [] then []
    else if |level| == 1 then [sha(level[0] + level[0])]
    else [sha(level[0] + level[1])] + PairUp(sha, level[2..])
  }

  lemma {:induction false} PairUpLength(sha: string -> string, level: seq<string>)
    ensures |PairUp(sha, level)| == (|level| + 1) / 2
  {
    if |level| > 1 {
      PairUpLength(sha, level[2..]);
    }
  }

  /** Each level is at most half the one below, rounded up, so the climb ends. */
  lemma {:induction false} LevelShrinks(sha: string -> string, level: seq<string>)
    requires |level| > 1
    ensures 0 < |SortText(PairUp(sha, level))| < |level|
  {
    PairUpLength(sha, level);
    SortByPermutes(ByText, PairUp(sha, level));
  }

  function Climb(sha: string -> string, level: seq<string>): string
    requires level != []
    decreases |level|
  {
    if |level| == 1 then level[0]
    else
      LevelShrinks(sha, level);
      Climb(sha, SortText(PairUp(sha, level)))
  }

  function Root(sha: string -> string, leaves: seq<string>): string {
    if leaves == [] then sha("my3pai:empty-build")
    else
      SortNonEmpty(leaves);
      Climb(sha, SortText(leaves))
  }

  /** The root of an empty build. */
  lemma {:induction false} EmptyRoot(sha: string -> string)
    ensures Root(sha, []) == sha("my3pai:empty-build")
  {
  }

  lemma {:induction false} SortNonEmpty(leaves: seq<string>)
    requires leaves != []
    ensures SortText(leaves) != []
  {
    SortByPermutes(ByText, leaves);
  }

  /** The nested loops of the source. */
  method MerkleRoot(sha: string -> string, leaves: seq<string>) returns (root: string)
    ensures root == Root(sha, leaves)
  {
    if leaves == [] { return sha("my3pai:empty-build"); }
    SortNonEmpty(leaves);
    var level := SortText(leaves);
    while |level| > 1
      invariant level != []
      invariant Climb(sha, level) == Root(sha, leaves)
      decreases |level|
    {
      var nxt := HashLevel(sha, level);
      LevelShrinks(sha, level);
      level := SortText(nxt);
    }
    return level[0];
  }

  method HashLevel(sha: string -> string, level: seq<string>) returns (nxt: seq<string>)
    ensures nxt == PairUp(sha, level)
  {
    nxt := [];
    var i := 0;
    while i < |level|
      invariant 0 <= i <= |level| + 1
      invariant nxt + PairUp(sha, level[if i <= |level| then i else |level|..]) == PairUp(sha, level)
    {
      var left := level[i];
      var right := if i + 1 < |level| then level[i + 1] else left;
      nxt := nxt + [sha(left + right)];
      i := i + 2;
    }
  }

  // ---------- the root forgets order ----------

  /** Any permutation of the leaves has the same root; no assumption on the hash is needed. */
  lemma {:induction false} RootOfPermutation(sha: string -> string, a: seq<string>, b: seq<string>)
    requires multiset(a) == multiset(b)
    ensures Root(sha, a) == Root(sha, b)
  {
    SortTextCanonical(a, b);
    assert |multiset(a)| == |multiset(b)|;
  }

  // ---------- and, at equal size, nothing else ----------

  ghost predicate AllDigests(s: seq<string>) {
    forall k | 0 <= k < |s| :: |s[k]| == DIGEST
  }

  function MapHash(sha: string -> string, s: seq<string>): seq<string> {
    if s == [] then [] else [sha(s[0])] + MapHash(sha, s[1..])
  }

  /** The texts hashed in one pass. */
  function Blocks(level: seq<string>): seq<string> {
    if level == [] then []
    else if |level| == 1 then [level[0] + level[0]]
    else [level[0] + level[1]] + Blocks(level[2..])
  }

  /** The level with an odd last element written twice. */
  function Evened(level: seq<string>): seq<string> {
    if |level| % 2 == 1 then level + [level[|level| - 1]] else level
  }

  /** Cuts every block back into its two halves. */
  function Halves(blocks: seq<string>): seq<string>
    requires forall k | 0 <= k < |blocks| :: |blocks[k]| == 2 * DIGEST
  {
    if blocks == [] then [] else [blocks[0][..DIGEST], blocks[0][DIGEST..]] + Halves(blocks[1..])
  }

  lemma {:induction false} PairUpIsMap(sha: string -> string, level: seq<string>)
    ensures PairUp(sha, level) == MapHash(sha, Blocks(level))
  {
    if |level| > 1 {
      PairUpIsMap(sha, level[2..]);
      assert Blocks(level)[1..] == Blocks(level[2..]);
    } else if |level| == 1 {
      assert Blocks(level)[1..] == [];
    }
  }

  lemma {:induction false} HalvesOfBlocks(level: seq<string>)
    requires AllDigests(level)
    ensures forall k | 0 <= k < |Blocks(level)| :: |Blocks(level)[k]| == 2 * DIGEST
    ensures Halves(Blocks(level)) == Evened(level)
  {
    if |level| == 1 {
      assert Blocks(level)[1..] == [];
    } else if |level| > 1 {
      HalvesOfBlocks(level[2..]);
      var block := level[0] + level[1];
      assert Blocks(level)[0] == block && Blocks(level)[1..] == Blocks(level[2..]);
      assert block[..DIGEST] == level[0] && block[DIGEST..] == level[1];
      assert Evened(level) == [level[0], level[1]] + Evened(level[2..]);
    }
  }

  /** Every text hashed on the way from a sorted level to its root. */
  ghost function Hashed(sha: string -> string, level: seq<string>): set<string>
    decreases |level|
  {
    if |level| <= 1 then {}
    else
      LevelShrinks(sha, level);
      (set x | x in Blocks(level)) + Hashed(sha, SortText(PairUp(sha, level)))
  }

  /** On these texts the hash is fixed-width and has no collision. */
  ghost predicate NoCollision(sha: string -> string, texts: set<string>) {
    && (forall x | x in texts :: |sha(x)| == DIGEST)
    && (forall x, y | x in texts && y in texts && sha(x) == sha(y) :: x == y)
  }

  /** Takes one copy of an element out of a sequence. */
  function Without<T(==)>(s: seq<T>, j: nat): seq<T>
    requires j < |s|
  {
    s[..j] + s[j + 1..]
  }

  lemma {:induction false} WithoutMultiset<T>(s: seq<T>, j: nat)
    requires j < |s|
    ensures multiset(Without(s, j)) == multiset(s) - multiset{s[j]}
  {
    assert s == s[..j] + ([s[j]] + s[j + 1..]);
  }

  lemma {:induction false} MapHashAt(sha: string -> string, s: seq<string>, j: nat)
    requires j < |s|
    ensures |MapHash(sha, s)| == |s| && MapHash(sha, s)[j] == sha(s[j])
    ensures MapHash(sha, Without(s, j)) == Without(MapHash(sha, s), j)
  {
    MapHashLength(sha, s);
    if j == 0 {
      assert Without(s, 0) == s[1..];
      assert Without(MapHash(sha, s), 0) == MapHash(sha, s)[1..];
    } else {
      MapHashAt(sha, s[1..], j - 1);
      assert Without(s, j) == [s[0]] + Without(s[1..], j - 1);
      assert Without(MapHash(sha, s), j) == [sha(s[0])] + Without(MapHash(sha, s)[1..], j - 1);
    }
  }

  lemma {:induction false} MapHashLength(sha: string -> string, s: seq<string>)
    ensures |MapHash(sha, s)| == |s|
  {
    if s != [] {
      MapHashLength(sha, s[1..]);
    }
  }

  ghost predicate Within(s: seq<string>, texts: set<string>) {
    forall k | 0 <= k < |s| :: s[k] in texts
  }

  ghost predicate Wide(s: seq<string>) {
    forall k | 0 <= k < |s| :: |s[k]| == 2 * DIGEST
  }

  lemma {:induction false} DropOneHash(sha: string -> string, a: seq<string>, i: nat, b: seq<string>, j: nat)
    requires i < |a| && j < |b| && a[i] == b[j]
    requires multiset(MapHash(sha, a)) == multiset(MapHash(sha, b))
    ensures multiset(MapHash(sha, Without(a, i))) == multiset(MapHash(sha, Without(b, j)))
  {
    MapHashAt(sha, a, i);
    MapHashAt(sha, b, j);
    WithoutMultiset(MapHash(sha, a), i);
    WithoutMultiset(MapHash(sha, b), j);
  }

  lemma {:induction false} SameHash(sha: string -> string, texts: set<string>, a: seq<string>, b: seq<string>) returns (j: nat)
    requires NoCollision(sha, texts) && Within(a, texts) && Within(b, texts) && a != []
    requires multiset(MapHash(sha, a)) == multiset(MapHash(sha, b))
    ensures j < |b| && b[j] == a[0]
  {
    MapHashLength(sha, b);
    assert MapHash(sha, a)[0] in multiset(MapHash(sha, b));
    j :| 0 <= j < |MapHash(sha, b)| && MapHash(sha, b)[j] == MapHash(sha, a)[0];
    MapHashAt(sha, b, j);
    assert a[0] in texts && b[j] in texts;
  }

  lemma {:induction false} PutBack<T>(a: seq<T>, i: nat, b: seq<T>, j: nat)
    requires i < |a| && j < |b| && a[i] == b[j]
    requires multiset(Without(a, i)) == multiset(Without(b, j))
    ensures multiset(a) == multiset(b)
  {
    WithoutMultiset(a, i);
    WithoutMultiset(b, j);
    assert a[i] in multiset(a) && b[j] in multiset(b);
    assert multiset(a) == multiset(Without(a, i)) + multiset{a[i]};
    assert multiset(b) == multiset(Without(b, j)) + multiset{b[j]};
  }

  /** Equal multisets of pair hashes come from equal multisets of pairs. */
  lemma {:induction false} HashesCommit(sha: string -> string, texts: set<string>, a: seq<string>, b: seq<string>)
    requires NoCollision(sha, texts) && Within(a, texts) && Within(b, texts)
    requires multiset(MapHash(sha, a)) == multiset(MapHash(sha, b))
    ensures multiset(a) == multiset(b)
  {
    if a != [] {
      var j := SameHash(sha, texts, a, b);
      DropOneHash(sha, a, 0, b, j);
      HashesCommit(sha, texts, Without(a, 0), Without(b, j));
      PutBack(a, 0, b, j);
    } else {
      MapHashLength(sha, b);
      assert |multiset(MapHash(sha, b))| == 0;
    }
  }

  lemma {:induction false} HalvesConcat(a: seq<string>, b: seq<string>)
    requires Wide(a) && Wide(b)
    ensures Wide(a + b) && Halves(a + b) == Halves(a) + Halves(b)
  {
    if a == [] {
      assert a + b == b;
    } else {
      assert (a + b)[1..] == a[1..] + b;
      HalvesConcat(a[1..], b);
    }
  }

  lemma {:induction false} HalvesMiddle(p: seq<string>, x: seq<string>, q: seq<string>)
    requires Wide(p) && Wide(x) && Wide(q)
    ensures Wide(p + (x + q)) && Wide(p + q)
    ensures multiset(Halves(p + (x + q))) == multiset(Halves(p + q)) + multiset(Halves(x))
  {
    HalvesConcat(x, q);
    HalvesConcat(p, x + q);
    HalvesConcat(p, q);
    MiddleMultiset(Halves(p), Halves(x), Halves(q));
  }

  lemma {:induction false} WideParts(p: seq<string>, x: string, q: seq<string>)
    requires Wide(p + ([x] + q))
    ensures Wide(p) && Wide(q) && Wide(p + q)
  {
    var b := p + ([x] + q);
    assert forall k | 0 <= k < |p| :: p[k] == b[k];
    assert forall k | 0 <= k < |q| :: q[k] == b[|p| + 1 + k];
  }

  lemma {:induction false} HalvesOfPermutation(a: seq<string>, b: seq<string>)
    requires Wide(a) && Wide(b) && multiset(a) == multiset(b)
    ensures multiset(Halves(a)) == multiset(Halves(b))
  {
    if a == [] {
      assert |multiset(b)| == 0;
    } else {
      var x, rest := a[0], a[1..];
      assert a == [x] + rest;
      assert x in multiset(b);
      var p, q := SplitAround(b, x);
      WideParts(p, x, q);
      HalvesOfPermutation(rest, p + q);
      HalvesStep(x, rest, p, q);
    }
  }

  lemma {:induction false} HalvesStep(x: string, rest: seq<string>, p: seq<string>, q: seq<string>)
    requires |x| == 2 * DIGEST && Wide(rest) && Wide(p) && Wide(q)
    ensures Wide([x] + rest) && Wide(p + ([x] + q)) && Wide(p + q)
    ensures multiset(Halves(rest)) == multiset(Halves(p + q)) ==>
              multiset(Halves([x] + rest)) == multiset(Halves(p + ([x] + q)))
  {
    HalvesMiddle([], [x], rest);
    HalvesMiddle(p, [x], q);
    assert [] + ([x] + rest) == [x] + rest && [] + rest == rest;
  }

  lemma {:induction false} EvenedSorted(level: seq<string>)
    requires SortedBy(ByText, level)
    ensures SortedBy(ByText, Evened(level))
  {
    TextOrder();
    if |level| % 2 == 1 {
      var last := level[|level| - 1];
      StrLeTotal(last, last);
      forall i | 0 <= i < |level| ensures StrLe(level[i], last) {
        assert i == |level| - 1 || ByText(level[i], last);
      }
    }
  }

  lemma {:induction false} EvenedCommits(sha: string -> string, texts: set<string>, a: seq<string>, b: seq<string>)
    requires AllDigests(a) && AllDigests(b)
    requires NoCollision(sha, texts) && Within(Blocks(a), texts) && Within(Blocks(b), texts)
    requires multiset(PairUp(sha, a)) == multiset(PairUp(sha, b))
    ensures multiset(Evened(a)) == multiset(Evened(b))
  {
    PairUpIsMap(sha, a);
    PairUpIsMap(sha, b);
    HalvesOfBlocks(a);
    HalvesOfBlocks(b);
    HashesCommit(sha, texts, Blocks(a), Blocks(b));
    HalvesOfPermutation(Blocks(a), Blocks(b));
  }

  /** One level down: sorted levels of one size whose pair hashes agree as multisets are equal. */
  lemma {:induction false} LevelCommits(sha: string -> string, texts: set<string>, a: seq<string>, b: seq<string>)
    requires AllDigests(a) && AllDigests(b) && |a| == |b|
    requires NoCollision(sha, texts) && Within(Blocks(a), texts) && Within(Blocks(b), texts)
    requires SortedBy(ByText, a) && SortedBy(ByText, b)
    requires multiset(PairUp(sha, a)) == multiset(PairUp(sha, b))
    ensures a == b
  {
    EvenedCommits(sha, texts, a, b);
    EvenedSorted(a);
    EvenedSorted(b);
    TextOrder();
    SortedUnique(ByText, Evened(a), Evened(b));
    assert a == Evened(a)[..|a|] && b == Evened(b)[..|b|];
  }

  lemma {:induction false} PairUpDigests(sha: string -> string, level: seq<string>)
    requires forall x | x in Blocks(level) :: |sha(x)| == DIGEST
    ensures AllDigests(SortText(PairUp(sha, level)))
  {
    var blocks := Blocks(level);
    PairUpIsMap(sha, level);
    MapHashLength(sha, blocks);
    forall k | 0 <= k < |blocks| ensures |MapHash(sha, blocks)[k]| == DIGEST {
      MapHashAt(sha, blocks, k);
      assert blocks[k] in blocks;
    }
    SortKeepsDigests(PairUp(sha, level));
  }

  lemma {:induction false} SortKeepsDigests(s: seq<string>)
    requires AllDigests(s)
    ensures AllDigests(SortText(s))
  {
    SortByPermutes(ByText, s);
    forall k | 0 <= k < |SortText(s)| ensures |SortText(s)[k]| == DIGEST {
      assert SortText(s)[k] in multiset(s);
    }
  }

  /** The level above, sorted, and the texts hashed from it. */
  lemma {:induction false} LevelAbove(sha: string -> string, level: seq<string>) returns (above: seq<string>)
    requires |level| > 1 && forall x | x in Hashed(sha, level) :: |sha(x)| == DIGEST
    ensures above == SortText(PairUp(sha, level)) && AllDigests(above) && SortedBy(ByText, above)
    ensures |above| == (|level| + 1) / 2 && Climb(sha, level) == Climb(sha, above)
    ensures Within(Blocks(level), Hashed(sha, level)) && Hashed(sha, above) <= Hashed(sha, level)
  {
    above := SortText(PairUp(sha, level));
    LevelShrinks(sha, level);
    PairUpLength(sha, level);
    assert forall x | x in Blocks(level) :: x in Hashed(sha, level);
    PairUpDigests(sha, level);
    SortTextCanonical(PairUp(sha, level), PairUp(sha, level));
    SortByPermutes(ByText, PairUp(sha, level));
  }

  lemma {:induction false} ClimbCommits(sha: string -> string, a: seq<string>, b: seq<string>)
    requires NoCollision(sha, Hashed(sha, a) + Hashed(sha, b))
    requires AllDigests(a) && AllDigests(b) && |a| == |b| && a != []
    requires SortedBy(ByText, a) && SortedBy(ByText, b)
    requires Climb(sha, a) == Climb(sha, b)
    ensures a == b
    decreases |a|
  {
    if |a| > 1 {
      var texts := Hashed(sha, a) + Hashed(sha, b);
      var up := LevelAbove(sha, a);
      var vp := LevelAbove(sha, b);
      ClimbCommits(sha, up, vp);
      SortByPermutes(ByText, PairUp(sha, a));
      SortByPermutes(ByText, PairUp(sha, b));
      LevelCommits(sha, texts, a, b);
    }
  }

  /** Every text hashed for either of two lists of leaves. */
  ghost function HashedFor(sha: string -> string, a: seq<string>, b: seq<string>): set<string> {
    Hashed(sha, SortText(a)) + Hashed(sha, SortText(b))
  }

  /**
   * Commitment: unless two texts hashed on the way collide, lists of digests of one size have one root exactly when
   * they are permutations of each other.
   */
  lemma {:induction false} RootCommits(sha: string -> string, a: seq<string>, b: seq<string>)
    requires AllDigests(a) && AllDigests(b) && |a| == |b|
    requires NoCollision(sha, HashedFor(sha, a, b))
    ensures Root(sha, a) == Root(sha, b) <==> multiset(a) == multiset(b)
  {
    if multiset(a) == multiset(b) {
      RootOfPermutation(sha, a, b);
    } else if a != [] && Root(sha, a) == Root(sha, b) {
      SortTextCanonical(a, b);
      SortTextCanonical(b, a);
      SortKeepsDigests(a);
      SortKeepsDigests(b);
      ClimbCommits(sha, SortText(a), SortText(b));
    }
  }

  // ---------- the size is not committed to ----------

  lemma {:induction false} PairUpEvened(sha: string -> string, level: seq<string>)
    requires |level| % 2 == 1
    ensures PairUp(sha, Evened(level)) == PairUp(sha, level)
  {
    if |level| > 1 {
      PairUpEvened(sha, level[2..]);
      assert Evened(level)[2..] == Evened(level[2..]);
    }
  }

  /**
   * The promise that any substitution after freezing is detectable fails across sizes, for every hash: an odd build of
   * three or more leaves has the same root with its largest leaf written once more.
   */
  lemma {:induction false} PaddingCollision(sha: string -> string, leaves: seq<string>)
    requires |leaves| % 2 == 1 && |leaves| > 1
    ensures |SortText(leaves)| == |leaves|
    ensures Root(sha, leaves + [SortText(leaves)[|leaves| - 1]]) == Root(sha, leaves)
  {
    PaddedLevel(sha, leaves);
    PairUpEvened(sha, SortText(leaves));
  }

  lemma {:induction false} BlocksEvened(level: seq<string>)
    requires |level| % 2 == 1
    ensures Blocks(Evened(level)) == Blocks(level)
  {
    if |level| > 1 {
      BlocksEvened(level[2..]);
      assert Evened(level)[2..] == Evened(level[2..]);
    }
  }

  /** Sorting the padded list pads the sorted list, and nothing new is hashed. */
  lemma {:induction false} PaddedLevel(sha: string -> string, a: seq<string>)
    requires |a| % 2 == 1 && |a| > 1
    ensures |SortText(a)| == |a|
    ensures SortText(a + [SortText(a)[|a| - 1]]) == Evened(SortText(a))
    ensures Hashed(sha, SortText(a + [SortText(a)[|a| - 1]])) == Hashed(sha, SortText(a))
  {
    SortTextCanonical(a, a);
    var level := SortText(a);
    EvenedSorted(level);
    TextOrder();
    SortTextCanonical(a + [level[|a| - 1]], Evened(level));
    SortByOfSorted(ByText, Evened(level));
    BlocksEvened(level);
    PairUpEvened(sha, level);
  }

  /** And that is the only list of digests one longer with the same root. */
  lemma {:induction false} OneLongerIff(sha: string -> string, a: seq<string>, b: seq<string>)
    requires AllDigests(a) && AllDigests(b) && |a| % 2 == 1 && |a| > 1 && |b| == |a| + 1
    requires NoCollision(sha, HashedFor(sha, a, b))
    ensures |SortText(a)| == |a|
    ensures Root(sha, a) == Root(sha, b) <==> multiset(b) == multiset(a + [SortText(a)[|a| - 1]])
  {
    PaddingCollision(sha, a);
    PaddedLevel(sha, a);
    SortKeepsDigests(a);
    RootCommits(sha, a + [SortText(a)[|a| - 1]], b);
  }

  // ---------- nor is the depth, nor the width of a leaf ----------

  lemma {:induction false} RootOfOne(sha: string -> string, leaf: string)
    ensures Root(sha, [leaf]) == leaf
  {
    SortTextOne(leaf);
  }

  lemma {:induction false} RootOfTwo(sha: string -> string, l: string, r: string)
    requires StrLe(l, r)
    ensures Root(sha, [l, r]) == sha(l + r)
  {
    SortTextTwo(l, r);
    SortTextOne(sha(l + r));
    assert [l, r][2..] == [];
    assert PairUp(sha, [l, r]) == [sha(l + r)];
    assert Climb(sha, [l, r]) == Climb(sha, [sha(l + r)]);
  }

  /** Leaves are not told apart from hashes: the hashes one level up have the same root as the leaves. */
  lemma {:induction false} LevelCollision(sha: string -> string, leaves: seq<string>)
    requires |leaves| > 1
    ensures Root(sha, PairUp(sha, SortText(leaves))) == Root(sha, leaves)
    ensures |PairUp(sha, SortText(leaves))| < |leaves|
  {
    SortByPermutes(ByText, leaves);
    PairUpLength(sha, SortText(leaves));
    LevelShrinks(sha, SortText(leaves));
  }

  /** Nor are two leaves from one text cut elsewhere: `["", l + r]` has the root of `[l, r]`. */
  lemma {:induction false} WidthCollision(sha: string -> string, l: string, r: string)
    requires StrLe(l, r) && l != ""
    ensures Root(sha, ["", l + r]) == Root(sha, [l, r])
    ensures multiset(["", l + r]) != multiset([l, r])
  {
    RootOfTwo(sha, l, r);
    RootOfTwo(sha, "", l + r);
    assert "" + (l + r) == l + r;
    assert "" in multiset(["", l + r]) && "" !in multiset([l, r]);
  }

  /** The root of two or more leaves is a hash. */
  lemma {:induction false} ClimbIsHash(sha: string -> string, level: seq<string>) returns (text: string)
    requires |level| > 1
    ensures Climb(sha, level) == sha(text)
    decreases |level|
  {
    var above := SortText(PairUp(sha, level));
    LevelShrinks(sha, level);
    if |above| == 1 {
      SortByPermutes(ByText, PairUp(sha, level));
      PairUpLength(sha, level);
      assert |level| == 2 && level[2..] == [];
      assert PairUp(sha, level) == [sha(level[0] + level[1])];
      SortTextOne(sha(level[0] + level[1]));
      text := level[0] + level[1];
    } else {
      text := ClimbIsHash(sha, above);
    }
  }

  /** A list of any size but one has a root that is a hash. */
  lemma {:induction false} RootIsHash(sha: string -> string, leaves: seq<string>) returns (text: string)
    requires |leaves| != 1
    ensures Root(sha, leaves) == sha(text)
  {
    if leaves == [] {
      text := "my3pai:empty-build";
    } else {
      SortByPermutes(ByText, leaves);
      text := ClimbIsHash(sha, SortText(leaves));
    }
  }

  /** Another list of leaves, not a reordering, with the same root. */
  ghost predicate SameRootElsewhere(sha: string -> string, a: seq<string>) {
    exists b :: multiset(b) != multiset(a) && Root(sha, b) == Root(sha, a)
  }

  /**
   * Which lists of leaves their root determines, up to order, for any hash at all: exactly those of one leaf that is
   * no hash value. Every other list shares its root with a list that is not a reordering of it.
   */
  lemma {:induction false} RootDeterminesIff(sha: string -> string, a: seq<string>)
    ensures SameRootElsewhere(sha, a) <==> |a| != 1 || exists s :: a[0] == sha(s)
  {
    if |a| != 1 {
      RootOfOne(sha, Root(sha, a));
      assert |multiset([Root(sha, a)])| == 1 && |multiset(a)| == |a|;
      assert multiset([Root(sha, a)]) != multiset(a);
    } else {
      RootOfOne(sha, a[0]);
      assert a == [a[0]];
      if s :| a[0] == sha(s) {
        RootOfTwo(sha, "", s);
        assert "" + s == s;
        assert |multiset(["", s])| == 2 && |multiset(a)| == 1;
      }
      if b :| multiset(b) != multiset(a) && Root(sha, b) == Root(sha, a) {
        OnlyHashes(sha, b, a[0]);
      }
    }
  }

  lemma {:induction false} OneLeaf(sha: string -> string, b: seq<string>)
    requires |b| == 1
    ensures b == [Root(sha, b)]
  {
    RootOfOne(sha, b[0]);
    assert b == [b[0]];
  }

  lemma {:induction false} OnlyHashes(sha: string -> string, b: seq<string>, leaf: string)
    requires multiset(b) != multiset([leaf]) && Root(sha, b) == leaf
    ensures exists s :: leaf == sha(s)
  {
    if |b| != 1 {
      var s := RootIsHash(sha, b);
    } else {
      OneLeaf(sha, b);
    }
  }
}
