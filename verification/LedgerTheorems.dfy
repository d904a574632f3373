/** Conservation of money over every history of posts, disputes and refunds. */
module LedgerTheorems {
  import opened Wrappers
  import opened Sequences
  import opened Allocation
  import opened AllocationTheorems
  import opened Rounding
  import opened Ledger

  datatype Op =
    | DoPost(p: Posting)
    | DoDispute(o: DisputeOffset)
    | DoRefund(recordId: string, numer: int, denom: int, createdAt: int)

  function Step(hash: ReconciliationHash, b: Books, op: Op): (Books, Option<LedgerError>) {
    match op
    case DoPost(p) => Post(b, p)
    case DoDispute(o) => Dispute(hash, b, o)
    case DoRefund(id, n, d, at) => Refund(hash, b, id, n, d, at)
  }

  /** The books after a history, accepted and rejected operations alike. */
  function Run(hash: ReconciliationHash, ops: seq<Op>): Books {
    if ops == [] then Books([], map[]) else Step(hash, Run(hash, ops[..|ops| - 1]), ops[|ops| - 1]).0
  }

  /** Money an operation brings in: revenue of an accepted post, adjustment of an accepted offset. */
  function Flow(hash: ReconciliationHash, b: Books, op: Op): int {
    if Step(hash, b, op).1.Some? then 0
    else match op
      case DoPost(p) => p.revenue
      case DoDispute(o) => o.adjustmentCents
      case DoRefund(id, n, d, _) => match Find(Flat(hash, b.posts), id)
        case Some(r) => if d > 0 then -HalfEven(r.allocatedCents * n, d) else 0
        case None => 0
  }

  function TotalFlow(hash: ReconciliationHash, ops: seq<Op>): int {
    if ops == [] then 0
    else TotalFlow(hash, ops[..|ops| - 1]) + Flow(hash, Run(hash, ops[..|ops| - 1]), ops[|ops| - 1])
  }

  // ---------- a rejected operation changes nothing ----------

  lemma {:induction false} RejectedChangesNothing(hash: ReconciliationHash, b: Books, op: Op)
    ensures Step(hash, b, op).1.Some? ==> Step(hash, b, op).0 == b
  {
  }

  /** A posting is accepted exactly when its split is well formed and its run was never posted before. */
  lemma {:induction false} PostAcceptedIff(b: Books, p: Posting)
    ensures Post(b, p).1.None? <==> Postable(p) && !IsPosted(b.posts, p.runId)
    ensures Post(b, p).1.None? ==> IsPosted(Post(b, p).0.posts, p.runId)
  {
    if p.contributions != [] {
      PostableOk(p);
    }
    if Post(b, p).1.None? {
      var posts := Post(b, p).0.posts;
      assert posts[|b.posts|].p.runId == p.runId;
    }
  }

  lemma {:induction false} RunValid(hash: ReconciliationHash, ops: seq<Op>)
    ensures ValidBooks(hash, Run(hash, ops))
  {
    if ops != [] {
      var b, op := Run(hash, ops[..|ops| - 1]), ops[|ops| - 1];
      RunValid(hash, ops[..|ops| - 1]);
      StepValid(hash, b, op);
    }
  }

  lemma {:induction false} StepValid(hash: ReconciliationHash, b: Books, op: Op)
    requires ValidBooks(hash, b)
    ensures ValidBooks(hash, Step(hash, b, op).0)
  {
    match op
    case DoPost(p) => ValidAfterPost(hash, b, p);
    case DoDispute(o) => ValidAfterDispute(hash, b, o);
    case DoRefund(id, n, d, at) =>
      match Find(Flat(hash, b.posts), id)
      case None =>
      case Some(r) =>
        match RoundHalfEven(r.allocatedCents, n, d)
        case Err(_) =>
        case Ok(refund) => ValidAfterDispute(hash, b, RefundOffset(id, refund, n, d, at));
  }

  // ---------- each posted run ----------

  const AllocatedCents: LedgerRecord -> int := (r: LedgerRecord) => r.allocatedCents

  lemma {:induction false} RecordsSum(hash: ReconciliationHash, e: Entry, n: nat)
    requires n <= |e.p.contributions| == |e.shares|
    ensures SumOf(AllocatedCents, RecordsOf(hash, e)[..n]) == Sum(e.shares[..n])
  {
    if n > 0 {
      var records := RecordsOf(hash, e);
      RecordsSum(hash, e, n - 1);
      assert records[..n] == records[..n - 1] + [records[n - 1]];
      SumStep(e.shares, n);
      SumOfAppend(AllocatedCents, records[..n - 1], records[n - 1]);
    }
  }

  /** What the split rule gives an entry: one non-negative share per contribution, summing to the revenue. */
  lemma {:induction false} ProperShares(e: Entry)
    requires Proper(e)
    ensures |e.shares| == |e.p.contributions| && Sum(e.shares) == e.p.revenue
    ensures forall i | 0 <= i < |e.shares| :: e.shares[i] >= 0
  {
    var weights := Weights(e.p.contributions);
    SharesLargestRemainder(e.p.revenue, weights);
    forall i | 0 <= i < |e.shares| ensures e.shares[i] >= 0 {
      WithinQuota(e.p.revenue, weights, i);
    }
  }

  /** A posted run has contiguous indices from zero, and its allocations sum to its revenue. */
  lemma {:induction false} PostedRun(hash: ReconciliationHash, e: Entry)
    requires Proper(e)
    ensures SumOf(AllocatedCents, RecordsOf(hash, e)) == e.p.revenue
    ensures |RecordsOf(hash, e)| == |e.p.contributions|
    ensures forall i | 0 <= i < |e.p.contributions| ::
              RecordsOf(hash, e)[i].recordId == RecordId(e.p.runId, i) && RecordsOf(hash, e)[i].allocatedCents >= 0
  {
    ProperShares(e);
    RecordsSum(hash, e, |e.p.contributions|);
    assert RecordsOf(hash, e)[..|e.p.contributions|] == RecordsOf(hash, e);
    assert e.shares[..|e.p.contributions|] == e.shares;
  }

  // ---------- records are keyed by distinct ids ----------

  ghost predicate DistinctIds(records: seq<LedgerRecord>) {
    forall i, j | 0 <= i < j < |records| :: records[i].recordId != records[j].recordId
  }

  lemma {:induction false} NewRunIds(hash: ReconciliationHash, posts: seq<Entry>, e: Entry, i: nat)
    requires !IsPosted(posts, e.p.runId) && i < |e.p.contributions|
    ensures !HasRecord(Flat(hash, posts), RecordsOf(hash, e)[i].recordId)
  {
    HasRecordIff(hash, posts, e.p.runId, i);
  }

  lemma {:induction false} FlatDistinct(hash: ReconciliationHash, posts: seq<Entry>)
    requires DistinctRuns(posts)
    ensures DistinctIds(Flat(hash, posts))
  {
    if posts != [] {
      var n := |posts| - 1;
      var before, added := Flat(hash, posts[..n]), RecordsOf(hash, posts[n]);
      FlatDistinct(hash, posts[..n]);
      forall i | 0 <= i < |added| ensures !HasRecord(before, added[i].recordId) {
        NewRunIds(hash, posts[..n], posts[n], i);
      }
      forall i, j | 0 <= i < j < |added| ensures added[i].recordId != added[j].recordId {
        RecordIdInjective(posts[n].p.runId, i, posts[n].p.runId, j);
      }
      DistinctConcat(before, added);
    }
  }

  lemma {:induction false} DistinctConcat(a: seq<LedgerRecord>, b: seq<LedgerRecord>)
    requires DistinctIds(a) && DistinctIds(b)
    requires forall i | 0 <= i < |b| :: !HasRecord(a, b[i].recordId)
    ensures DistinctIds(a + b)
  {
    var c := a + b;
    forall i, j | 0 <= i < j < |c| ensures c[i].recordId != c[j].recordId {
      if i < |a| && j >= |a| {
        assert a[i] in a && !HasRecord(a, b[j - |a|].recordId);
      }
    }
  }

  // ---------- totals over all records ----------

  function OffsetTerm(offsets: map<string, seq<DisputeOffset>>): LedgerRecord -> int {
    (r: LedgerRecord) => OffsetTotal(offsets, r.recordId)
  }

  /** All money on the books: what was allocated, plus every offset. */
  function TotalNet(hash: ReconciliationHash, b: Books): int {
    SumOf(AllocatedCents, Flat(hash, b.posts)) + SumOf(OffsetTerm(b.offsets), Flat(hash, b.posts))
  }

  lemma {:induction false} OffsetAdds(records: seq<LedgerRecord>, offsets: map<string, seq<DisputeOffset>>, o: DisputeOffset)
    requires DistinctIds(records)
    ensures SumOf(OffsetTerm(AddOffset(offsets, o)), records)
         == SumOf(OffsetTerm(offsets), records) + if HasRecord(records, o.recordId) then o.adjustmentCents else 0
  {
    if records != [] {
      var n := |records| - 1;
      var r := records[n];
      OffsetAdds(records[..n], offsets, o);
      SumOfAppend(Adjustment, OffsetsOf(offsets, o.recordId), o);
      assert records == records[..n] + [r];
      if r.recordId == o.recordId {
        assert !HasRecord(records[..n], o.recordId);
      }
    }
  }

  lemma {:induction false} NoOffsetsYet(hash: ReconciliationHash, b: Books, e: Entry)
    requires ValidBooks(hash, b) && !IsPosted(b.posts, e.p.runId)
    ensures SumOf(OffsetTerm(b.offsets), RecordsOf(hash, e)) == 0
  {
    forall r | r in RecordsOf(hash, e) ensures OffsetTerm(b.offsets)(r) == 0 {
      var i :| 0 <= i < |RecordsOf(hash, e)| && RecordsOf(hash, e)[i] == r;
      NewRunIds(hash, b.posts, e, i);
    }
    SumOfZero(OffsetTerm(b.offsets), RecordsOf(hash, e));
  }

  /** An accepted posting adds one proper entry, and no offset. */
  lemma {:induction false} PostEntry(b: Books, p: Posting) returns (e: Entry)
    requires Post(b, p).1.None?
    ensures Proper(e) && e.p == p && Post(b, p).0 == Books(b.posts + [e], b.offsets)
  {
    PostableOk(p);
    e := Entry(p, Shares(p.revenue, Weights(p.contributions)));
  }

  lemma {:induction false} EntryConserves(hash: ReconciliationHash, b: Books, e: Entry)
    requires ValidBooks(hash, b) && Proper(e) && !IsPosted(b.posts, e.p.runId)
    ensures TotalNet(hash, Books(b.posts + [e], b.offsets)) == TotalNet(hash, b) + e.p.revenue
  {
    FlatAppend(hash, b.posts, e);
    PostedRun(hash, e);
    NoOffsetsYet(hash, b, e);
    SumOfConcat(AllocatedCents, Flat(hash, b.posts), RecordsOf(hash, e));
    SumOfConcat(OffsetTerm(b.offsets), Flat(hash, b.posts), RecordsOf(hash, e));
  }

  lemma {:induction false} DisputeConserves(hash: ReconciliationHash, b: Books, o: DisputeOffset)
    requires ValidBooks(hash, b) && Dispute(hash, b, o).1.None?
    ensures TotalNet(hash, Dispute(hash, b, o).0) == TotalNet(hash, b) + o.adjustmentCents
  {
    FlatDistinct(hash, b.posts);
    OffsetAdds(Flat(hash, b.posts), b.offsets, o);
  }

  lemma {:induction false} StepConserves(hash: ReconciliationHash, b: Books, op: Op)
    requires ValidBooks(hash, b)
    ensures TotalNet(hash, Step(hash, b, op).0) == TotalNet(hash, b) + Flow(hash, b, op)
  {
    RejectedChangesNothing(hash, b, op);
    if Step(hash, b, op).1.None? {
      match op
      case DoPost(p) =>
        var e := PostEntry(b, p);
        PostAcceptedIff(b, p);
        EntryConserves(hash, b, e);
      case DoDispute(o) => DisputeConserves(hash, b, o);
      case DoRefund(id, n, d, at) =>
        var r := Find(Flat(hash, b.posts), id).value;
        DisputeConserves(hash, b, RefundOffset(id, HalfEven(r.allocatedCents * n, d), n, d, at));
    }
  }

  lemma {:induction false} RunConserves(hash: ReconciliationHash, ops: seq<Op>)
    ensures TotalNet(hash, Run(hash, ops)) == TotalFlow(hash, ops)
  {
    if ops != [] {
      var before := ops[..|ops| - 1];
      RunConserves(hash, before);
      RunValid(hash, before);
      StepConserves(hash, Run(hash, before), ops[|ops| - 1]);
    }
  }

  // ---------- custodian statements partition the total ----------

  function NetTerm(hash: ReconciliationHash, b: Books): string -> int {
    (c: string) => StatementFor(hash, b, c).net
  }

  /** The custodian's share of a list of records. */
  function ShareTerm(offsets: map<string, seq<DisputeOffset>>, records: seq<LedgerRecord>): string -> int {
    (c: string) => SumOf(GrossTerm(c), records) + SumOf(AdjustmentTerm(offsets, c), records)
  }

  function Picked(custodianId: string, amount: int): string -> int {
    (c: string) => if c == custodianId then amount else 0
  }

  lemma {:induction false} PickedOnce(custodians: seq<string>, c: string, amount: int)
    requires Distinct(custodians)
    ensures SumOf(Picked(c, amount), custodians) == if c in custodians then amount else 0
  {
    if custodians != [] {
      var n := |custodians| - 1;
      PickedOnce(custodians[..n], c, amount);
      assert custodians == custodians[..n] + [custodians[n]];
      assert custodians[n] !in custodians[..n];
    }
  }

  lemma {:induction false} CustodiansPartition(offsets: map<string, seq<DisputeOffset>>, records: seq<LedgerRecord>, custodians: seq<string>)
    requires Distinct(custodians) && forall r | r in records :: r.custodianId in custodians
    ensures SumOf(ShareTerm(offsets, records), custodians)
         == SumOf(AllocatedCents, records) + SumOf(OffsetTerm(offsets), records)
  {
    if records == [] {
      SumOfZero(ShareTerm(offsets, records), custodians);
    } else {
      var n := |records| - 1;
      var r, rest := records[n], records[..n];
      var amount := r.allocatedCents + OffsetTotal(offsets, r.recordId);
      CustodiansPartition(offsets, rest, custodians);
      PickedOnce(custodians, r.custodianId, amount);
      SumOfAdd(ShareTerm(offsets, rest), Picked(r.custodianId, amount), ShareTerm(offsets, records), custodians);
    }
  }

  /**
   * Conservation: after any history, the custodians' nets sum to the revenue of the accepted posts plus every
   * accepted offset, as the history itself tells them.
   */
  lemma {:induction false} CustodianNetsConserve(hash: ReconciliationHash, ops: seq<Op>, custodians: seq<string>)
    requires Distinct(custodians)
    requires forall r | r in Flat(hash, Run(hash, ops).posts) :: r.custodianId in custodians
    ensures SumOf(NetTerm(hash, Run(hash, ops)), custodians) == TotalFlow(hash, ops)
  {
    var b := Run(hash, ops);
    RunConserves(hash, ops);
    CustodiansPartition(b.offsets, Flat(hash, b.posts), custodians);
    SumOfSame(NetTerm(hash, b), ShareTerm(b.offsets, Flat(hash, b.posts)), custodians);
  }

  /** No offset is orphaned, ids are distinct, and every posted run is whole, after any history. */
  lemma {:induction false} HistoryWellFormed(hash: ReconciliationHash, ops: seq<Op>)
    ensures var b := Run(hash, ops);
            && DistinctIds(Flat(hash, b.posts))
            && (forall id | id in b.offsets :: HasRecord(Flat(hash, b.posts), id))
            && (forall id, k | id in b.offsets && 0 <= k < |b.offsets[id]| :: b.offsets[id][k].recordId == id)
            && (forall k | 0 <= k < |b.posts| :: SumOf(AllocatedCents, RecordsOf(hash, b.posts[k])) == b.posts[k].p.revenue)
  {
    var b := Run(hash, ops);
    RunValid(hash, ops);
    FlatDistinct(hash, b.posts);
    forall k | 0 <= k < |b.posts| ensures SumOf(AllocatedCents, RecordsOf(hash, b.posts[k])) == b.posts[k].p.revenue {
      PostedRun(hash, b.posts[k]);
    }
  }

  // ---------- rounding drift of refunds ----------

  ghost function NetOrZero(hash: ReconciliationHash, b: Books, id: string): int {
    match Net(hash, b, id) case Some(n) => n case None => 0
  }

  /** The exact rational net of a record: refunds are not rounded. */
  ghost function ExactFlow(hash: ReconciliationHash, b: Books, op: Op, id: string): real {
    if Step(hash, b, op).1.Some? then 0.0
    else match op
      case DoPost(p) => NetOrZero(hash, Post(Books([], map[]), p).0, id) as real
      case DoDispute(o) => if o.recordId == id then o.adjustmentCents as real else 0.0
      case DoRefund(rid, n, d, _) =>
        if rid != id || d <= 0 then 0.0
        else match Find(Flat(hash, b.posts), id)
          case Some(r) => -((r.allocatedCents * n) as real / d as real)
          case None => 0.0
  }

  ghost function ExactNet(hash: ReconciliationHash, ops: seq<Op>, id: string): real {
    if ops == [] then 0.0
    else
      var before := ops[..|ops| - 1];
      ExactNet(hash, before, id) + ExactFlow(hash, Run(hash, before), ops[|ops| - 1], id)
  }

  /** Accepted refunds of one record. */
  ghost function Refunds(hash: ReconciliationHash, ops: seq<Op>, id: string): nat {
    if ops == [] then 0
    else
      var before, op := ops[..|ops| - 1], ops[|ops| - 1];
      Refunds(hash, before, id)
      + if op.DoRefund? && op.recordId == id && Step(hash, Run(hash, before), op).1.None? then 1 else 0
  }

  lemma {:induction false} FindConcat(a: seq<LedgerRecord>, b: seq<LedgerRecord>, id: string)
    ensures Find(a + b, id) == if HasRecord(a, id) then Find(a, id) else Find(b, id)
    ensures Find(a, id).Some? <==> HasRecord(a, id)
  {
    if a == [] {
      assert a + b == b;
    } else {
      assert (a + b)[1..] == a[1..] + b;
      FindConcat(a[1..], b, id);
      if HasRecord(a, id) && a[0].recordId != id {
        assert HasRecord(a[1..], id);
      }
    }
  }

  lemma {:induction false} PostNet(hash: ReconciliationHash, b: Books, p: Posting, id: string)
    requires ValidBooks(hash, b) && Post(b, p).1.None?
    ensures NetOrZero(hash, Post(b, p).0, id) == NetOrZero(hash, b, id) + NetOrZero(hash, Post(Books([], map[]), p).0, id)
  {
    var e := PostEntry(b, p);
    PostAcceptedIff(b, p);
    PostAcceptedIff(Books([], map[]), p);
    var first := PostEntry(Books([], map[]), p);
    assert [] + [first] == [e];
    EntryNet(hash, b, e, id);
  }

  lemma {:induction false} EntryNet(hash: ReconciliationHash, b: Books, e: Entry, id: string)
    requires ValidBooks(hash, b) && !IsPosted(b.posts, e.p.runId)
    ensures NetOrZero(hash, Books(b.posts + [e], b.offsets), id)
         == NetOrZero(hash, b, id) + NetOrZero(hash, Books([e], map[]), id)
  {
    var before, added := Flat(hash, b.posts), RecordsOf(hash, e);
    FlatAppend(hash, b.posts, e);
    FlatAppend(hash, [], e);
    assert [] + [e] == [e] && Flat(hash, [e]) == [] + added == added;
    FindConcat(before, added, id);
    FindConcat(added, [], id);
    NotBoth(hash, b.posts, e, id);
  }

  lemma {:induction false} NotBoth(hash: ReconciliationHash, posts: seq<Entry>, e: Entry, id: string)
    requires !IsPosted(posts, e.p.runId)
    ensures !(HasRecord(Flat(hash, posts), id) && HasRecord(RecordsOf(hash, e), id))
  {
    if HasRecord(RecordsOf(hash, e), id) {
      var r :| r in RecordsOf(hash, e) && r.recordId == id;
      var i :| 0 <= i < |RecordsOf(hash, e)| && RecordsOf(hash, e)[i] == r;
      NewRunIds(hash, posts, e, i);
    }
  }

  lemma {:induction false} OffsetNet(hash: ReconciliationHash, b: Books, o: DisputeOffset, id: string)
    requires Dispute(hash, b, o).1.None?
    ensures NetOrZero(hash, Dispute(hash, b, o).0, id)
         == NetOrZero(hash, b, id) + if o.recordId == id then o.adjustmentCents else 0
  {
    FindConcat(Flat(hash, b.posts), [], id);
    SumOfAppend(Adjustment, OffsetsOf(b.offsets, id), o);
  }

  /** What an accepted refund moves, and what it would move unrounded. */
  lemma {:induction false} RefundMoves(hash: ReconciliationHash, b: Books, rid: string, n: int, d: int, at: int, id: string)
    returns (refund: int, exact: real)
    requires Refund(hash, b, rid, n, d, at).1.None?
    ensures -0.5 <= refund as real - exact <= 0.5
    ensures NetOrZero(hash, Refund(hash, b, rid, n, d, at).0, id) == NetOrZero(hash, b, id) - if rid == id then refund else 0
    ensures ExactFlow(hash, b, DoRefund(rid, n, d, at), id) == if rid == id then -exact else 0.0
  {
    var r := Find(Flat(hash, b.posts), rid).value;
    refund, exact := HalfEven(r.allocatedCents * n, d), (r.allocatedCents * n) as real / d as real;
    OffsetNet(hash, b, RefundOffset(rid, refund, n, d, at), id);
    HalfEvenWithinHalf(r.allocatedCents * n, d);
  }

  lemma {:induction false} RefundDriftStep(hash: ReconciliationHash, b: Books, rid: string, n: int, d: int, at: int, id: string)
    requires Refund(hash, b, rid, n, d, at).1.None?
    ensures var moved := (NetOrZero(hash, Refund(hash, b, rid, n, d, at).0, id) - NetOrZero(hash, b, id)) as real;
            var exact := ExactFlow(hash, b, DoRefund(rid, n, d, at), id);
            if rid == id then -0.5 <= moved - exact <= 0.5 else moved == exact
  {
    var before, after := NetOrZero(hash, b, id), NetOrZero(hash, Refund(hash, b, rid, n, d, at).0, id);
    var refund, exact := RefundMoves(hash, b, rid, n, d, at, id);
    if rid == id {
      Negated(after - before, refund);
    }
  }

  lemma {:induction false} Negated(moved: int, refund: int)
    requires moved == -refund
    ensures moved as real == -(refund as real)
  {
  }

  lemma {:induction false} StepDrift(hash: ReconciliationHash, b: Books, op: Op, id: string)
    requires ValidBooks(hash, b)
    ensures var moved := (NetOrZero(hash, Step(hash, b, op).0, id) - NetOrZero(hash, b, id)) as real;
            var exact := ExactFlow(hash, b, op, id);
            if op.DoRefund? && op.recordId == id && Step(hash, b, op).1.None?
            then -0.5 <= moved - exact <= 0.5 else moved == exact
  {
    RejectedChangesNothing(hash, b, op);
    if Step(hash, b, op).1.None? {
      match op
      case DoPost(p) => PostNet(hash, b, p, id);
      case DoDispute(o) => OffsetNet(hash, b, o, id);
      case DoRefund(rid, n, d, at) => RefundDriftStep(hash, b, rid, n, d, at, id);
    }
  }

  /** After any history, a record's net is within half a cent per accepted refund of its exact rational net. */
  lemma {:induction false} RefundDrift(hash: ReconciliationHash, ops: seq<Op>, id: string)
    ensures var drift := NetOrZero(hash, Run(hash, ops), id) as real - ExactNet(hash, ops, id);
            -(Refunds(hash, ops, id) as real) <= drift + drift <= Refunds(hash, ops, id) as real
  {
    if ops != [] {
      var before := ops[..|ops| - 1];
      RefundDrift(hash, before, id);
      RunValid(hash, before);
      StepDrift(hash, Run(hash, before), ops[|ops| - 1], id);
    }
  }
}
