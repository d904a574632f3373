/** What a posting writes, record by record, and which operations are accepted after any history. */
module PostingTheorems {
  import opened Wrappers
  import opened Sequences
  import opened Text
  import opened Allocation
  import opened Rounding
  import opened Ledger
  import opened LedgerTheorems

  // ---------- what a posting writes ----------

  /** The record of one contribution, field by field. */
  ghost predicate RecordOf(hash: ReconciliationHash, p: Posting, i: nat, share: int, r: LedgerRecord)
    requires i < |p.contributions|
  {
    && r.runId == p.runId && r.revenueCents == p.revenue && r.createdAt == p.createdAt
    && r.recordId == p.runId + ":" + Pad4(i)
    && r.assetId == p.contributions[i].assetId && r.custodianId == p.contributions[i].custodianId
    && r.shareBasisPoints == p.contributions[i].weight && r.allocatedCents == share
    && r.reconciliationHash == hash(p.runId, p.contributions[i].assetId, p.revenue, p.contributions[i].weight, share)
  }

  lemma {:induction false} EntryRecord(hash: ReconciliationHash, e: Entry, i: nat)
    requires i < |e.p.contributions| == |e.shares|
    ensures RecordOf(hash, e.p, i, e.shares[i], RecordsOf(hash, e)[i])
  {
  }

  /** After an accepted post the books hold, behind what they held, one record per contribution with its own fields. */
  lemma {:induction false} PostedRecords(hash: ReconciliationHash, b: Books, p: Posting)
    requires Post(b, p).1.None?
    ensures var before, after := Flat(hash, b.posts), Flat(hash, Post(b, p).0.posts);
            var shares := Allocate(p.revenue, Weights(p.contributions)).value;
            && |after| == |before| + |p.contributions| && after[..|before|] == before
            && |shares| == |p.contributions|
            && forall i | 0 <= i < |p.contributions| :: RecordOf(hash, p, i, shares[i], after[|before| + i])
  {
    var e := PostEntry(b, p);
    ProperShares(e);
    EntryRecords(hash, b.posts, e);
  }

  lemma {:induction false} EntryRecordAt(hash: ReconciliationHash, before: seq<LedgerRecord>, e: Entry, i: nat)
    requires i < |e.p.contributions| == |e.shares|
    ensures RecordOf(hash, e.p, i, e.shares[i], (before + RecordsOf(hash, e))[|before| + i])
  {
    EntryRecord(hash, e, i);
  }

  lemma {:induction false} EntryRecords(hash: ReconciliationHash, posts: seq<Entry>, e: Entry)
    requires |e.shares| == |e.p.contributions|
    ensures var before, after := Flat(hash, posts), Flat(hash, posts + [e]);
            && |after| == |before| + |e.p.contributions| && after[..|before|] == before
            && forall i | 0 <= i < |e.p.contributions| :: RecordOf(hash, e.p, i, e.shares[i], after[|before| + i])
  {
    FlatAppend(hash, posts, e);
    forall i | 0 <= i < |e.p.contributions|
      ensures RecordOf(hash, e.p, i, e.shares[i], Flat(hash, posts + [e])[|Flat(hash, posts)| + i])
    {
      EntryRecordAt(hash, Flat(hash, posts), e, i);
    }
  }

  /** The shares of the contributions that name a custodian. */
  ghost function CustodianShares(cs: seq<Contribution>, shares: seq<int>, custodianId: string): int
    requires |shares| == |cs|
  {
    if cs == [] then 0
    else
      var n := |cs| - 1;
      CustodianShares(cs[..n], shares[..n], custodianId) + if cs[n].custodianId == custodianId then shares[n] else 0
  }

  lemma {:induction false} GrossOfRecords(hash: ReconciliationHash, e: Entry, n: nat, custodianId: string)
    requires n <= |e.p.contributions| == |e.shares|
    ensures SumOf(GrossTerm(custodianId), RecordsOf(hash, e)[..n])
         == CustodianShares(e.p.contributions[..n], e.shares[..n], custodianId)
  {
    if n > 0 {
      var records := RecordsOf(hash, e);
      GrossOfRecords(hash, e, n - 1, custodianId);
      assert records[..n] == records[..n - 1] + [records[n - 1]];
      assert e.p.contributions[..n][..n - 1] == e.p.contributions[..n - 1] && e.shares[..n][..n - 1] == e.shares[..n - 1];
      SumOfAppend(GrossTerm(custodianId), records[..n - 1], records[n - 1]);
    }
  }

  lemma {:induction false} NewRecordsUnadjusted(hash: ReconciliationHash, b: Books, e: Entry, custodianId: string)
    requires ValidBooks(hash, b) && !IsPosted(b.posts, e.p.runId)
    ensures SumOf(AdjustmentTerm(b.offsets, custodianId), RecordsOf(hash, e)) == 0
  {
    forall r | r in RecordsOf(hash, e) ensures AdjustmentTerm(b.offsets, custodianId)(r) == 0 {
      var i :| 0 <= i < |RecordsOf(hash, e)| && RecordsOf(hash, e)[i] == r;
      NewRunIds(hash, b.posts, e, i);
    }
    SumOfZero(AdjustmentTerm(b.offsets, custodianId), RecordsOf(hash, e));
  }

  /** A post raises a custodian's gross by the shares of exactly the contributions naming it, and adjusts nothing. */
  lemma {:induction false} PostedStatement(hash: ReconciliationHash, b: Books, p: Posting, custodianId: string)
    requires ValidBooks(hash, b) && Post(b, p).1.None?
    ensures var before, after := StatementFor(hash, b, custodianId), StatementFor(hash, Post(b, p).0, custodianId);
            var shares := Allocate(p.revenue, Weights(p.contributions)).value;
            && |shares| == |p.contributions|
            && after.gross == before.gross + CustodianShares(p.contributions, shares, custodianId)
            && after.adjustments == before.adjustments
  {
    var e := PostEntry(b, p);
    PostAcceptedIff(b, p);
    ProperShares(e);
    EntryStatement(hash, b, e, custodianId);
  }

  lemma {:induction false} EntryStatement(hash: ReconciliationHash, b: Books, e: Entry, custodianId: string)
    requires ValidBooks(hash, b) && !IsPosted(b.posts, e.p.runId) && |e.shares| == |e.p.contributions|
    ensures var before := StatementFor(hash, b, custodianId);
            var after := StatementFor(hash, Books(b.posts + [e], b.offsets), custodianId);
            && after.gross == before.gross + CustodianShares(e.p.contributions, e.shares, custodianId)
            && after.adjustments == before.adjustments
  {
    var n := |e.p.contributions|;
    FlatAppend(hash, b.posts, e);
    GrossOfRecords(hash, e, n, custodianId);
    assert RecordsOf(hash, e)[..n] == RecordsOf(hash, e) && e.p.contributions[..n] == e.p.contributions && e.shares[..n] == e.shares;
    NewRecordsUnadjusted(hash, b, e, custodianId);
    SumOfConcat(GrossTerm(custodianId), Flat(hash, b.posts), RecordsOf(hash, e));
    SumOfConcat(AdjustmentTerm(b.offsets, custodianId), Flat(hash, b.posts), RecordsOf(hash, e));
  }

  /** An accepted offset moves the adjustments of its record's custodian by its amount, and nobody's gross. */
  lemma {:induction false} AdjustmentAdds(records: seq<LedgerRecord>, offsets: map<string, seq<DisputeOffset>>, o: DisputeOffset, c: string)
    requires DistinctIds(records)
    ensures SumOf(AdjustmentTerm(AddOffset(offsets, o), c), records) == SumOf(AdjustmentTerm(offsets, c), records)
              + if Find(records, o.recordId).Some? && Find(records, o.recordId).value.custodianId == c then o.adjustmentCents else 0
  {
    if records != [] {
      var n := |records| - 1;
      var rest, r := records[..n], records[n];
      assert records == rest + [r];
      AdjustmentAdds(rest, offsets, o, c);
      FindConcat(rest, [r], o.recordId);
      assert [r][1..] == [];
      SumOfAppend(Adjustment, OffsetsOf(offsets, o.recordId), o);
      if r.recordId == o.recordId {
        assert !HasRecord(rest, o.recordId);
      }
    }
  }

  /** What an offset means to a custodian: its amount, if the record is the custodian's. */
  ghost function OwnAmount(hash: ReconciliationHash, b: Books, o: DisputeOffset, custodianId: string): int {
    match Find(Flat(hash, b.posts), o.recordId)
    case None => 0
    case Some(r) => if r.custodianId == custodianId then o.adjustmentCents else 0
  }

  lemma {:induction false} DisputedStatement(hash: ReconciliationHash, b: Books, o: DisputeOffset, custodianId: string)
    requires ValidBooks(hash, b) && Dispute(hash, b, o).1.None?
    ensures var before, after := StatementFor(hash, b, custodianId), StatementFor(hash, Dispute(hash, b, o).0, custodianId);
            && after.gross == before.gross
            && after.adjustments == before.adjustments + OwnAmount(hash, b, o, custodianId)
            && after.net == after.gross + after.adjustments
  {
    FlatDistinct(hash, b.posts);
    FindConcat(Flat(hash, b.posts), [], o.recordId);
    AdjustmentAdds(Flat(hash, b.posts), b.offsets, o, custodianId);
  }

  /** Right after its post, each record of the run nets exactly its share. */
  lemma {:induction false} PostedNet(hash: ReconciliationHash, b: Books, p: Posting, i: nat)
    requires ValidBooks(hash, b) && Post(b, p).1.None? && i < |p.contributions|
    ensures var shares := Allocate(p.revenue, Weights(p.contributions)).value;
            |shares| == |p.contributions| && Net(hash, Post(b, p).0, p.runId + ":" + Pad4(i)) == Some(shares[i])
  {
    var e := PostEntry(b, p);
    PostAcceptedIff(b, p);
    ProperShares(e);
    var before, added := Flat(hash, b.posts), RecordsOf(hash, e);
    FlatAppend(hash, b.posts, e);
    NewRunIds(hash, b.posts, e, i);
    FindConcat(before, added, RecordId(p.runId, i));
    FindOwn(hash, e, i);
    assert RecordId(p.runId, i) !in b.offsets;
  }

  lemma {:induction false} FindAt(records: seq<LedgerRecord>, i: nat)
    requires DistinctIds(records) && i < |records|
    ensures Find(records, records[i].recordId) == Some(records[i])
  {
    if i > 0 {
      assert records[0].recordId != records[i].recordId;
      assert records[1..][i - 1] == records[i];
      FindAt(records[1..], i - 1);
    }
  }

  lemma {:induction false} FindOwn(hash: ReconciliationHash, e: Entry, i: nat)
    requires i < |e.p.contributions|
    ensures Find(RecordsOf(hash, e), RecordId(e.p.runId, i)) == Some(RecordsOf(hash, e)[i])
  {
    var records := RecordsOf(hash, e);
    forall j, k | 0 <= j < k < |records| ensures records[j].recordId != records[k].recordId {
      RecordIdInjective(e.p.runId, j, e.p.runId, k);
    }
    FindAt(records, i);
  }

  // ---------- what is accepted, over histories ----------

  ghost predicate PostsRun(op: Op, runId: string) {
    op.DoPost? && op.p.runId == runId && Postable(op.p)
  }

  /** The history holds a well-formed post of the run. */
  ghost predicate RunPosted(ops: seq<Op>, runId: string) {
    exists k | 0 <= k < |ops| :: PostsRun(ops[k], runId)
  }

  lemma {:induction false} RunPostedExtends(before: seq<Op>, op: Op, runId: string)
    ensures RunPosted(before + [op], runId) <==> RunPosted(before, runId) || PostsRun(op, runId)
  {
    var ops := before + [op];
    assert ops[|before|] == op;
    if k :| 0 <= k < |before| && PostsRun(before[k], runId) {
      assert PostsRun(ops[k], runId);
    }
  }

  /** A run is on the books exactly when the history holds a well-formed post of it. */
  lemma {:induction false} PostedIff(hash: ReconciliationHash, ops: seq<Op>, runId: string)
    ensures IsPosted(Run(hash, ops).posts, runId) <==> RunPosted(ops, runId)
  {
    if ops != [] {
      var before, op := ops[..|ops| - 1], ops[|ops| - 1];
      PostedIff(hash, before, runId);
      StepPosts(hash, Run(hash, before), op, runId);
      RunPostedExtends(before, op, runId);
      assert ops == before + [op];
    }
  }

  lemma {:induction false} StepPosts(hash: ReconciliationHash, b: Books, op: Op, runId: string)
    ensures IsPosted(Step(hash, b, op).0.posts, runId) <==> IsPosted(b.posts, runId) || PostsRun(op, runId)
  {
    if op.DoPost? {
      PostAcceptedIff(b, op.p);
      if Post(b, op.p).1.None? {
        var e := PostEntry(b, op.p);
        assert (b.posts + [e])[|b.posts|] == e && forall k | 0 <= k < |b.posts| :: (b.posts + [e])[k] == b.posts[k];
      }
    } else {
      OnlyPostsPost(hash, b, op);
    }
  }

  lemma {:induction false} OnlyPostsPost(hash: ReconciliationHash, b: Books, op: Op)
    requires !op.DoPost?
    ensures Step(hash, b, op).0.posts == b.posts
  {
  }

  /** An offset is accepted exactly on a record of a posted run, with a reason of at most 512 characters. */
  lemma {:induction false} DisputeAcceptedIff(hash: ReconciliationHash, ops: seq<Op>, o: DisputeOffset)
    ensures Dispute(hash, Run(hash, ops), o).1 ==
              if !RecordPosted(ops, o.recordId) then Some(UnknownRecord(o.recordId))
              else if |o.reason| > 512 then Some(ReasonTooLong) else None
  {
    RecordPostedIff(hash, ops, o.recordId);
  }

  /** The postings on the books are the first well-formed ones of their runs. */
  ghost predicate FirstPost(ops: seq<Op>, k: int) {
    0 <= k < |ops| && ops[k].DoPost? && Postable(ops[k].p) && !RunPosted(ops[..k], ops[k].p.runId)
  }

  /** The history's first well-formed post of some run has a contribution with this record id. */
  ghost predicate RecordPosted(ops: seq<Op>, recordId: string) {
    exists k, i: nat :: FirstPost(ops, k) && i < |ops[k].p.contributions| && recordId == RecordId(ops[k].p.runId, i)
  }

  ghost predicate Holds(posts: seq<Entry>, p: Posting) {
    exists e :: e in posts && e.p == p
  }

  ghost predicate FirstPosts(ops: seq<Op>, p: Posting) {
    exists k :: FirstPost(ops, k) && ops[k].p == p
  }

  lemma {:induction false} BooksAreFirstPosts(hash: ReconciliationHash, ops: seq<Op>, p: Posting)
    ensures Holds(Run(hash, ops).posts, p) <==> FirstPosts(ops, p)
  {
    if ops != [] {
      var before, op := ops[..|ops| - 1], ops[|ops| - 1];
      BooksAreFirstPosts(hash, before, p);
      FirstPostsExtend(before, op, p);
      assert before + [op] == ops;
      PostedIff(hash, before, p.runId);
      StepHolds(hash, Run(hash, before), op, p);
    }
  }

  lemma {:induction false} StepHolds(hash: ReconciliationHash, b: Books, op: Op, p: Posting)
    ensures Holds(Step(hash, b, op).0.posts, p) <==>
              Holds(b.posts, p) || (op.DoPost? && op.p == p && Postable(p) && !IsPosted(b.posts, p.runId))
  {
    if op.DoPost? {
      PostAcceptedIff(b, op.p);
      if Post(b, op.p).1.None? {
        var e := PostEntry(b, op.p);
        assert e in b.posts + [e] && forall x | x in b.posts :: x in b.posts + [e];
      }
    } else {
      OnlyPostsPost(hash, b, op);
    }
  }

  lemma {:induction false} FirstPostsExtend(before: seq<Op>, op: Op, p: Posting)
    ensures FirstPosts(before + [op], p) <==>
              FirstPosts(before, p) || (op.DoPost? && op.p == p && Postable(p) && !RunPosted(before, p.runId))
  {
    var ops := before + [op];
    assert ops[|before|] == op && ops[..|before|] == before;
    if k :| FirstPost(ops, k) && ops[k].p == p {
      if k < |before| {
        assert ops[..k] == before[..k] && FirstPost(before, k);
      }
    }
    if k :| FirstPost(before, k) && before[k].p == p {
      assert ops[..k] == before[..k] && FirstPost(ops, k);
    }
    if op.DoPost? && op.p == p && Postable(p) && !RunPosted(before, p.runId) {
      assert FirstPost(ops, |before|);
    }
  }

  lemma {:induction false} RecordPostedIff(hash: ReconciliationHash, ops: seq<Op>, recordId: string)
    ensures HasRecord(Flat(hash, Run(hash, ops).posts), recordId) <==> RecordPosted(ops, recordId)
  {
    var posts := Run(hash, ops).posts;
    if HasRecord(Flat(hash, posts), recordId) {
      var r :| r in Flat(hash, posts) && r.recordId == recordId;
      var k, i := FlatOrigin(hash, posts, r);
      BooksAreFirstPosts(hash, ops, posts[k].p);
      var j :| FirstPost(ops, j) && ops[j].p == posts[k].p;
      assert recordId == RecordId(ops[j].p.runId, i);
    }
    if k, i: nat :| FirstPost(ops, k) && i < |ops[k].p.contributions| && recordId == RecordId(ops[k].p.runId, i) {
      BooksAreFirstPosts(hash, ops, ops[k].p);
      var e :| e in posts && e.p == ops[k].p;
      var m :| 0 <= m < |posts| && posts[m] == e;
      HasRecordIff(hash, posts, e.p.runId, i);
    }
  }

  /** The offset a refund files: the rounded share of the allocation, negated, on its own record. */
  lemma {:induction false} RefundFiles(hash: ReconciliationHash, b: Books, recordId: string, n: int, d: int, at: int)
    requires Refund(hash, b, recordId, n, d, at).1.None?
    ensures d > 0 && Find(Flat(hash, b.posts), recordId).Some?
    ensures var r := Find(Flat(hash, b.posts), recordId).value;
            var ratio := IntText(n) + "/" + IntText(d);
            Refund(hash, b, recordId, n, d, at) == Dispute(hash, b,
              DisputeOffset("refund:" + recordId + ":" + ratio, recordId, -HalfEven(r.allocatedCents * n, d), "partial refund " + ratio, at))
  {
    var r := Find(Flat(hash, b.posts), recordId).value;
    RefundOffsetIs(recordId, HalfEven(r.allocatedCents * n, d), n, d, at);
  }

  lemma {:induction false} RefundOffsetIs(recordId: string, refund: int, n: int, d: int, at: int)
    ensures var ratio := IntText(n) + "/" + IntText(d);
            var o := DisputeOffset("refund:" + recordId + ":" + ratio, recordId, -refund, "partial refund " + ratio, at);
            RefundOffset(recordId, refund, n, d, at) == o
  {
  }

  lemma {:induction false} RefundOutcome(hash: ReconciliationHash, b: Books, recordId: string, n: int, d: int, at: int)
    requires ValidBooks(hash, b) && HasRecord(Flat(hash, b.posts), recordId)
    ensures Refund(hash, b, recordId, n, d, at).1 ==
              if d <= 0 then Some(BadRatio(BadDenominator))
              else if n < 0 then Some(BadRatio(NegativeArgument))
              else if |IntText(n)| + |IntText(d)| > 496 then Some(ReasonTooLong) else None
  {
    FindConcat(Flat(hash, b.posts), [], recordId);
    RecordNonNegative(hash, b, recordId);
    var r := Find(Flat(hash, b.posts), recordId).value;
    if d > 0 && n >= 0 {
      RefundText(recordId, HalfEven(r.allocatedCents * n, d), n, d, at);
    }
  }

  lemma {:induction false} RefundText(recordId: string, refund: int, n: int, d: int, at: int)
    ensures |RefundOffset(recordId, refund, n, d, at).reason| == 16 + |IntText(n)| + |IntText(d)|
    ensures RefundOffset(recordId, refund, n, d, at).recordId == recordId
  {
  }

  /** A refund is accepted exactly on a posted record, for a non-negative numerator over a positive denominator whose text fits. */
  lemma {:induction false} RefundAcceptedIff(hash: ReconciliationHash, ops: seq<Op>, recordId: string, n: int, d: int, at: int)
    ensures Refund(hash, Run(hash, ops), recordId, n, d, at).1 ==
              if !RecordPosted(ops, recordId) then Some(UnknownRecord(recordId))
              else if d <= 0 then Some(BadRatio(BadDenominator))
              else if n < 0 then Some(BadRatio(NegativeArgument))
              else if |IntText(n)| + |IntText(d)| > 496 then Some(ReasonTooLong) else None
  {
    var b := Run(hash, ops);
    RecordPostedIff(hash, ops, recordId);
    FindConcat(Flat(hash, b.posts), [], recordId);
    if RecordPosted(ops, recordId) {
      RunValid(hash, ops);
      RefundOutcome(hash, b, recordId, n, d, at);
    }
  }

  lemma {:induction false} FindIsIn(records: seq<LedgerRecord>, id: string)
    ensures Find(records, id).Some? ==> Find(records, id).value in records && Find(records, id).value.recordId == id
  {
    if records != [] && records[0].recordId != id {
      FindIsIn(records[1..], id);
    }
  }

  lemma {:induction false} RecordNonNegative(hash: ReconciliationHash, b: Books, id: string)
    requires ValidBooks(hash, b) && Find(Flat(hash, b.posts), id).Some?
    ensures Find(Flat(hash, b.posts), id).value.allocatedCents >= 0
  {
    FindIsIn(Flat(hash, b.posts), id);
    var k, i := FlatOrigin(hash, b.posts, Find(Flat(hash, b.posts), id).value);
    ProperShares(b.posts[k]);
  }

  /** The whole answer to a posting after any history: the first fault it has, and otherwise acceptance. */
  lemma {:induction false} PostOutcome(hash: ReconciliationHash, ops: seq<Op>, p: Posting)
    ensures var r := Post(Run(hash, ops), p).1;
            && (r == Some(NoContributions) <==> |p.contributions| == 0)
            && (p.contributions != [] ==>
                  match Allocate(p.revenue, Weights(p.contributions))
                  case Err(e) => r == Some(BadSplit(e))
                  case Ok(_) => r == if RunPosted(ops, p.runId) then Some(DuplicateRecord(p.runId + ":0000")) else None)
  {
    PostedIff(hash, ops, p.runId);
    FirstId(p.runId);
  }

  lemma {:induction false} FirstId(runId: string)
    ensures RecordId(runId, 0) == runId + ":0000"
  {
    Pad4Digits(0);
    assert runId + ":" + "0000" == runId + ":0000";
  }

  // ---------- offsets stand in the order they were accepted ----------

  /** The offset an operation files on `id` when it is accepted. */
  ghost function Filed(hash: ReconciliationHash, b: Books, op: Op, id: string): seq<DisputeOffset> {
    if Step(hash, b, op).1.Some? then []
    else match op
      case DoPost(_) => []
      case DoDispute(o) => if o.recordId == id then [o] else []
      case DoRefund(rid, n, d, at) =>
        match Find(Flat(hash, b.posts), rid)
        case None => []
        case Some(r) =>
          var ratio := IntText(n) + "/" + IntText(d);
          if rid == id && d > 0
          then [DisputeOffset("refund:" + rid + ":" + ratio, rid, -HalfEven(r.allocatedCents * n, d), "partial refund " + ratio, at)]
          else []
  }

  ghost function FiledInAll(hash: ReconciliationHash, ops: seq<Op>, id: string): seq<DisputeOffset> {
    if ops == [] then []
    else FiledInAll(hash, ops[..|ops| - 1], id) + Filed(hash, Run(hash, ops[..|ops| - 1]), ops[|ops| - 1], id)
  }

  lemma {:induction false} StepFiles(hash: ReconciliationHash, b: Books, op: Op, id: string)
    ensures OffsetsOf(Step(hash, b, op).0.offsets, id) == OffsetsOf(b.offsets, id) + Filed(hash, b, op, id)
  {
    RejectedChangesNothing(hash, b, op);
    if Step(hash, b, op).1.None? && op.DoRefund? {
      RefundFiles(hash, b, op.recordId, op.numer, op.denom, op.createdAt);
    }
  }

  /** After any history the offsets of a record are the accepted ones, whole and in order. */
  lemma {:induction false} OffsetsInOrder(hash: ReconciliationHash, ops: seq<Op>, id: string)
    ensures OffsetsOf(Run(hash, ops).offsets, id) == FiledInAll(hash, ops, id)
  {
    if ops != [] {
      OffsetsInOrder(hash, ops[..|ops| - 1], id);
      StepFiles(hash, Run(hash, ops[..|ops| - 1]), ops[|ops| - 1], id);
    }
  }
}
