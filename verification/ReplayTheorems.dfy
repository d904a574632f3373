/** Independent replay succeeds exactly on the posted inputs, up to 10,000 contributions. */
module ReplayTheorems {
  import opened Wrappers
  import opened Sequences
  import opened Text
  import opened Allocation
  import opened Ledger
  import opened LedgerTheorems

  /** Record ids have four padded digits: this many indices sort by number. */
  const PADDED_LIMIT := 10000

  lemma {:induction false} OfRunConcat(a: seq<LedgerRecord>, b: seq<LedgerRecord>, runId: string)
    ensures OfRun(a + b, runId) == OfRun(a, runId) + OfRun(b, runId)
  {
    if b == [] {
      assert a + b == a;
    } else {
      var n := |b| - 1;
      assert (a + b)[..|a + b| - 1] == a + b[..n];
      OfRunConcat(a, b[..n], runId);
    }
  }

  lemma {:induction false} OfRunUniform(records: seq<LedgerRecord>, runId: string, other: string)
    requires forall k | 0 <= k < |records| :: records[k].runId == other
    ensures OfRun(records, runId) == if runId == other then records else []
  {
    if records != [] {
      OfRunUniform(records[..|records| - 1], runId, other);
    }
  }

  lemma {:induction false} OfRunUnposted(hash: ReconciliationHash, posts: seq<Entry>, runId: string)
    requires !IsPosted(posts, runId)
    ensures OfRun(Flat(hash, posts), runId) == []
  {
    if posts != [] {
      var n := |posts| - 1;
      assert !IsPosted(posts[..n], runId) by {
        assert forall k | 0 <= k < n :: posts[..n][k] == posts[k];
      }
      OfRunUnposted(hash, posts[..n], runId);
      OfRunConcat(Flat(hash, posts[..n]), RecordsOf(hash, posts[n]), runId);
      OfRunUniform(RecordsOf(hash, posts[n]), runId, posts[n].p.runId);
    }
  }

  /** The stored records of a run are those of its one posting. */
  lemma {:induction false} OfRunPosted(hash: ReconciliationHash, posts: seq<Entry>, k: nat)
    requires DistinctRuns(posts) && k < |posts|
    ensures OfRun(Flat(hash, posts), posts[k].p.runId) == RecordsOf(hash, posts[k])
  {
    var n := |posts| - 1;
    var before, last, run := posts[..n], posts[n], posts[k].p.runId;
    OfRunConcat(Flat(hash, before), RecordsOf(hash, last), run);
    OfRunUniform(RecordsOf(hash, last), run, last.p.runId);
    if k == n {
      assert forall j | 0 <= j < n :: before[j].p.runId != run;
      OfRunUnposted(hash, before, run);
      assert OfRun(Flat(hash, posts), run) == [] + RecordsOf(hash, last);
    } else {
      assert before[k] == posts[k] && last.p.runId != run;
      OfRunPosted(hash, before, k);
      assert OfRun(Flat(hash, posts), run) == RecordsOf(hash, before[k]) + [];
    }
  }

  lemma {:induction false} IdOrderTotal()
    ensures TotalPreorder(IdOrder)
  {
    forall x, y ensures IdOrder(x, y) || IdOrder(y, x) {
      StrLeTotal(x.recordId, y.recordId);
    }
    forall x, y, z | IdOrder(x, y) && IdOrder(y, z) ensures IdOrder(x, z) {
      StrLeTransitive(x.recordId, y.recordId, z.recordId);
    }
  }

  /** Up to the limit the stored order is already the id order. */
  lemma {:induction false} StoredOrder(hash: ReconciliationHash, e: Entry)
    requires |e.p.contributions| <= PADDED_LIMIT
    ensures SortBy(IdOrder, RecordsOf(hash, e)) == RecordsOf(hash, e)
  {
    var records := RecordsOf(hash, e);
    forall i, j | 0 <= i < j < |records| ensures IdOrder(records[i], records[j]) {
      Pad4Ordered(i, j);
      StrLePrefix(e.p.runId + ":", Pad4(i), Pad4(j));
    }
    forall x, y | x in records && y in records && IdOrder(x, y) && IdOrder(y, x) ensures x == y {
      var i :| 0 <= i < |records| && records[i] == x;
      var j :| 0 <= j < |records| && records[j] == y;
      StrLeTotal(x.recordId, y.recordId);
      RecordIdInjective(e.p.runId, i, e.p.runId, j);
    }
    IdOrderTotal();
    SortByOfSorted(IdOrder, records);
  }

  /** Past the limit, no list in index order is in id order. */
  lemma {:induction false} OrderBreaks(records: seq<LedgerRecord>, runId: string)
    requires |records| > PADDED_LIMIT
    requires records[1001].recordId == RecordId(runId, 1001) && records[10000].recordId == RecordId(runId, 10000)
    ensures !SortedBy(IdOrder, records)
  {
    Pad4OutOfOrder();
    StrLePrefix(runId + ":", Pad4(1001), Pad4(10000));
    assert !IdOrder(records[1001], records[10000]);
  }

  lemma {:induction false} CompareIffEqual(a: seq<LedgerRecord>, b: seq<LedgerRecord>)
    ensures Compare(a, b) == None <==> a == b
  {
    if a != [] && b != [] {
      CompareIffEqual(a[1..], b[1..]);
      assert a == [a[0]] + a[1..] && b == [b[0]] + b[1..];
    }
  }

  /** `k` is the first place where the two lists differ, both still going. */
  ghost predicate FirstDifferent(a: seq<LedgerRecord>, b: seq<LedgerRecord>, k: nat) {
    k < |a| && k < |b| && a[k] != b[k] && a[..k] == b[..k]
  }

  /** What the comparison reports: the id of the first stored record that differs, or which list goes on. */
  lemma {:induction false} CompareSays(a: seq<LedgerRecord>, b: seq<LedgerRecord>)
    ensures forall k: nat | FirstDifferent(a, b, k) :: Compare(a, b) == Some(ReplayDrift(b[k].recordId))
    ensures Compare(a, b) == Some(ReplayTooLong) <==> |b| < |a| && a[..|b|] == b
    ensures Compare(a, b) == Some(ReplayTooShort) <==> |a| < |b| && b[..|a|] == a
  {
    if a != [] && b != [] {
      CompareSays(a[1..], b[1..]);
      forall k: nat | FirstDifferent(a, b, k) && k > 0 ensures FirstDifferent(a[1..], b[1..], k - 1) && a[0] == b[0] {
        assert a[..k][0] == b[..k][0];
        assert a[1..][..k - 1] == a[..k][1..] && b[1..][..k - 1] == b[..k][1..];
      }
      if a[0] == b[0] {
        if |b| <= |a| { SamePrefix(a, b); }
        if |a| <= |b| { SamePrefix(b, a); }
      }
    }
  }

  lemma {:induction false} SamePrefix(a: seq<LedgerRecord>, b: seq<LedgerRecord>)
    requires a != [] && b != [] && a[0] == b[0] && |b| <= |a|
    ensures a[..|b|] == b <==> a[1..][..|b[1..]|] == b[1..]
  {
    assert a[..|b|] == [a[0]] + a[1..][..|b| - 1] && b == [b[0]] + b[1..];
  }

  /** Records equal to the stored ones come from the same inputs. */
  lemma {:induction false} ReplayedSame(hash: ReconciliationHash, e: Entry, f: Entry)
    requires f.p.runId == e.p.runId && e.p.contributions != [] && |f.p.contributions| == |e.p.contributions|
    ensures Replayed(hash, f, RecordsOf(hash, e)) == RecordsOf(hash, e)
        ==> f.p.revenue == e.p.revenue && f.p.contributions == e.p.contributions
  {
    var stored := RecordsOf(hash, e);
    var got := Replayed(hash, f, stored);
    if got == stored {
      forall i | 0 <= i < |stored| ensures f.p.contributions[i] == e.p.contributions[i] && f.p.revenue == e.p.revenue {
        assert got[i] == stored[i];
      }
      assert got[0] == stored[0];
    }
  }

  /** The same inputs give the stored records. */
  lemma {:induction false} ReplayedBack(hash: ReconciliationHash, e: Entry, f: Entry)
    requires f.p.runId == e.p.runId && f.p.revenue == e.p.revenue && f.p.contributions == e.p.contributions
    requires f.shares == e.shares
    ensures Replayed(hash, f, RecordsOf(hash, e)) == RecordsOf(hash, e)
  {
  }

  /** Replay once the stored records are known to be those of the entry, in id order. */
  lemma {:induction false} ReplayStored(hash: ReconciliationHash, b: Books, e: Entry, revenue: int, cs: seq<Contribution>)
    requires Proper(e) && RecordsForRun(Flat(hash, b.posts), e.p.runId) == RecordsOf(hash, e)
    ensures var r := Replay(hash, b, e.p.runId, revenue, cs);
            && (r.Ok? <==> revenue == e.p.revenue && cs == e.p.contributions)
            && (r.Ok? ==> r.value == RecordsOf(hash, e))
  {
    var split := Allocate(revenue, Weights(cs));
    PostableOk(e.p);
    if split.Ok? && |cs| <= |e.p.contributions| {
      var f := Entry(Posting(e.p.runId, revenue, cs, 0), split.value);
      CompareIffEqual(Replayed(hash, f, RecordsOf(hash, e)), RecordsOf(hash, e));
      if |cs| == |e.p.contributions| {
        ReplayedSame(hash, e, f);
        if revenue == e.p.revenue && cs == e.p.contributions {
          ReplayedBack(hash, e, f);
        }
      }
    }
  }

  /** Stored records in id order but not in index order replay from no inputs at all. */
  lemma {:induction false} ReplayDisordered(hash: ReconciliationHash, b: Books, runId: string, revenue: int, cs: seq<Contribution>)
    requires |RecordsForRun(Flat(hash, b.posts), runId)| > PADDED_LIMIT
    requires SortedBy(IdOrder, RecordsForRun(Flat(hash, b.posts), runId))
    ensures Replay(hash, b, runId, revenue, cs).Err?
  {
    var expected := RecordsForRun(Flat(hash, b.posts), runId);
    var split := Allocate(revenue, Weights(cs));
    if split.Ok? && |cs| <= |expected| {
      var replayed := Replayed(hash, Entry(Posting(runId, revenue, cs, 0), split.value), expected);
      CompareIffEqual(replayed, expected);
      if |cs| == |expected| {
        OrderBreaks(replayed, runId);
      }
    }
  }

  /**
   * Replay is exact: for a posted run it returns normally if and only if the run has at most 10,000 contributions
   * and the revenue and the whole (asset, custodian, weight) list are the posted ones; it then returns the stored
   * records. A run with more contributions can never be replayed.
   */
  lemma {:induction false} ReplayExact(hash: ReconciliationHash, b: Books, k: nat, revenue: int, cs: seq<Contribution>)
    requires ValidBooks(hash, b) && k < |b.posts|
    ensures var e := b.posts[k];
            var r := Replay(hash, b, e.p.runId, revenue, cs);
            && (r.Ok? <==> |e.p.contributions| <= PADDED_LIMIT && revenue == e.p.revenue && cs == e.p.contributions)
            && (r.Ok? ==> r.value == RecordsForRun(Flat(hash, b.posts), e.p.runId) == RecordsOf(hash, e))
  {
    var e := b.posts[k];
    OfRunPosted(hash, b.posts, k);
    if |e.p.contributions| <= PADDED_LIMIT {
      StoredOrder(hash, e);
      ReplayStored(hash, b, e, revenue, cs);
    } else {
      SortByPermutes(IdOrder, RecordsOf(hash, e));
      IdOrderTotal();
      SortBySorted(IdOrder, RecordsOf(hash, e));
      ReplayDisordered(hash, b, e.p.runId, revenue, cs);
    }
  }

  /** How a replay fails, from the stored records alone: a bad split, too many contributions, or the comparison. */
  lemma {:induction false} ReplayFaults(hash: ReconciliationHash, b: Books, runId: string, revenue: int, cs: seq<Contribution>)
    ensures var stored := RecordsForRun(Flat(hash, b.posts), runId);
            var r := Replay(hash, b, runId, revenue, cs);
            match Allocate(revenue, Weights(cs))
            case Err(e) => r == Err(BadSplit(e))
            case Ok(shares) =>
              if |cs| > |stored| then r == Err(ReplayTooLong)
              else
                var got := Replayed(hash, Entry(Posting(runId, revenue, cs, 0), shares), stored);
                && (r == Ok(got) <==> got == stored)
                && (got != stored ==> (r == Err(ReplayTooShort) <==> |cs| < |stored| && stored[..|cs|] == got))
                && (forall k: nat | FirstDifferent(got, stored, k) :: r == Err(ReplayDrift(stored[k].recordId)))
  {
    var stored := RecordsForRun(Flat(hash, b.posts), runId);
    var split := Allocate(revenue, Weights(cs));
    if split.Ok? && |cs| <= |stored| {
      var got := Replayed(hash, Entry(Posting(runId, revenue, cs, 0), split.value), stored);
      CompareIffEqual(got, stored);
      CompareSays(got, stored);
    }
  }

  /** A run that was never posted cannot be replayed. */
  lemma {:induction false} ReplayUnposted(hash: ReconciliationHash, b: Books, runId: string, revenue: int, cs: seq<Contribution>)
    requires !IsPosted(b.posts, runId)
    ensures Replay(hash, b, runId, revenue, cs).Err?
  {
    OfRunUnposted(hash, b.posts, runId);
    assert Weights([]) == [];
  }

  /** The same after any history: a posted run replays exactly on its inputs. */
  lemma {:induction false} ReplayAfterAnyHistory(hash: ReconciliationHash, ops: seq<Op>, k: nat, revenue: int, cs: seq<Contribution>)
    requires k < |Run(hash, ops).posts|
    ensures var b := Run(hash, ops);
            Replay(hash, b, b.posts[k].p.runId, revenue, cs).Ok? <==>
              |b.posts[k].p.contributions| <= PADDED_LIMIT && revenue == b.posts[k].p.revenue && cs == b.posts[k].p.contributions
  {
    RunValid(hash, ops);
    ReplayExact(hash, Run(hash, ops), k, revenue, cs);
  }
}
