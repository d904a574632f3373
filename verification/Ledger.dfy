/** The contribution ledger: posted runs, dispute offsets, refunds and statements. */
module Ledger {
  import opened Wrappers
  import opened Sequences
  import opened Text
  import opened Allocation
  import opened Rounding

  datatype Contribution = Contribution(assetId: string, custodianId: string, weight: int)

  datatype LedgerRecord = LedgerRecord(
    recordId: string, runId: string, assetId: string, custodianId: string, revenueCents: int,
    shareBasisPoints: int, allocatedCents: int, reconciliationHash: string, createdAt: int)

  datatype DisputeOffset = DisputeOffset(
    offsetId: string, recordId: string, adjustmentCents: int, reason: string, createdAt: int)

  datatype LedgerError =
    | NoContributions
    | BadSplit(split: AllocationError)
    | DuplicateRecord(recordId: string)
    | UnknownRecord(recordId: string)
    | ReasonTooLong
    | BadRatio(ratio: RoundingError)
    | ReplayTooLong
    | ReplayTooShort
    | ReplayDrift(recordId: string)

  const MAX_REASON := 512

  /** SHA-256 over the canonical JSON of run, asset, revenue, weight and allocation. */
  type ReconciliationHash = (string, string, int, int, int) -> string

  /** One accepted revenue event. */
  datatype Posting = Posting(runId: string, revenue: int, contributions: seq<Contribution>, createdAt: int)

  /** A posting on the books, with the split it was given. */
  datatype Entry = Entry(p: Posting, shares: seq<int>)

  /** What the ledger has accepted: its postings in order, and its offsets by record. */
  datatype Books = Books(posts: seq<Entry>, offsets: map<string, seq<DisputeOffset>>)

  function RecordId(runId: string, idx: nat): string {
    runId + ":" + Pad4(idx)
  }

  function Weights(cs: seq<Contribution>): seq<int> {
    seq(|cs|, i requires 0 <= i < |cs| => cs[i].weight)
  }

  function MakeRecord(hash: ReconciliationHash, p: Posting, idx: nat, share: int, createdAt: int): LedgerRecord
    requires idx < |p.contributions|
  {
    var c := p.contributions[idx];
    LedgerRecord(RecordId(p.runId, idx), p.runId, c.assetId, c.custodianId, p.revenue, c.weight, share,
                 hash(p.runId, c.assetId, p.revenue, c.weight, share), createdAt)
  }

  /** The records of one entry, in index order. */
  function RecordsOf(hash: ReconciliationHash, e: Entry): seq<LedgerRecord> {
    seq(|e.p.contributions|, i requires 0 <= i < |e.p.contributions| =>
      MakeRecord(hash, e.p, i, At(e.shares, i), e.p.createdAt))
  }

  /** The record dictionary of the source, in insertion order. */
  function Flat(hash: ReconciliationHash, posts: seq<Entry>): seq<LedgerRecord> {
    if posts == [] then [] else Flat(hash, posts[..|posts| - 1]) + RecordsOf(hash, posts[|posts| - 1])
  }

  predicate HasRecord(records: seq<LedgerRecord>, recordId: string) {
    exists r | r in records :: r.recordId == recordId
  }

  function Find(records: seq<LedgerRecord>, recordId: string): Option<LedgerRecord> {
    if records == [] then None
    else if records[0].recordId == recordId then Some(records[0])
    else Find(records[1..], recordId)
  }

  function OffsetsOf(offsets: map<string, seq<DisputeOffset>>, recordId: string): seq<DisputeOffset> {
    if recordId in offsets then offsets[recordId] else []
  }

  const Adjustment: DisputeOffset -> int := (o: DisputeOffset) => o.adjustmentCents

  function OffsetTotal(offsets: map<string, seq<DisputeOffset>>, recordId: string): int {
    SumOf(Adjustment, OffsetsOf(offsets, recordId))
  }

  predicate IsPosted(posts: seq<Entry>, runId: string) {
    exists k | 0 <= k < |posts| :: posts[k].p.runId == runId
  }

  // ---------- operations on the books ----------

  /** A posting is refused on a bad split or when its run was posted before. */
  function Post(b: Books, p: Posting): (Books, Option<LedgerError>) {
    if p.contributions == [] then (b, Some(NoContributions))
    else match Allocate(p.revenue, Weights(p.contributions))
      case Err(e) => (b, Some(BadSplit(e)))
      case Ok(shares) =>
        if IsPosted(b.posts, p.runId) then (b, Some(DuplicateRecord(RecordId(p.runId, 0))))
        else (b.(posts := b.posts + [Entry(p, shares)]), None)
  }

  function AddOffset(offsets: map<string, seq<DisputeOffset>>, o: DisputeOffset): map<string, seq<DisputeOffset>> {
    offsets[o.recordId := OffsetsOf(offsets, o.recordId) + [o]]
  }

  function Dispute(hash: ReconciliationHash, b: Books, o: DisputeOffset): (Books, Option<LedgerError>) {
    if !HasRecord(Flat(hash, b.posts), o.recordId) then (b, Some(UnknownRecord(o.recordId)))
    else if |o.reason| > MAX_REASON then (b, Some(ReasonTooLong))
    else (b.(offsets := AddOffset(b.offsets, o)), None)
  }

  function RefundOffset(recordId: string, refund: int, numer: int, denom: int, createdAt: int): DisputeOffset {
    var ratio := IntText(numer) + "/" + IntText(denom);
    DisputeOffset("refund:" + recordId + ":" + ratio, recordId, -refund, "partial refund " + ratio, createdAt)
  }

  function Refund(hash: ReconciliationHash, b: Books, recordId: string, numer: int, denom: int, createdAt: int)
    : (Books, Option<LedgerError>)
  {
    match Find(Flat(hash, b.posts), recordId)
    case None => (b, Some(UnknownRecord(recordId)))
    case Some(r) =>
      match RoundHalfEven(r.allocatedCents, numer, denom)
      case Err(e) => (b, Some(BadRatio(e)))
      case Ok(refund) => Dispute(hash, b, RefundOffset(recordId, refund, numer, denom, createdAt))
  }

  function Net(hash: ReconciliationHash, b: Books, recordId: string): Option<int> {
    match Find(Flat(hash, b.posts), recordId)
    case None => None
    case Some(r) => Some(r.allocatedCents + OffsetTotal(b.offsets, recordId))
  }

  function GrossTerm(custodianId: string): LedgerRecord -> int {
    (r: LedgerRecord) => if r.custodianId == custodianId then r.allocatedCents else 0
  }

  function AdjustmentTerm(offsets: map<string, seq<DisputeOffset>>, custodianId: string): LedgerRecord -> int {
    (r: LedgerRecord) => if r.custodianId == custodianId then OffsetTotal(offsets, r.recordId) else 0
  }

  datatype Statement = Statement(gross: int, adjustments: int, net: int)

  function StatementFor(hash: ReconciliationHash, b: Books, custodianId: string): Statement {
    var records := Flat(hash, b.posts);
    var gross := SumOf(GrossTerm(custodianId), records);
    var adjustments := SumOf(AdjustmentTerm(b.offsets, custodianId), records);
    Statement(gross, adjustments, gross + adjustments)
  }

  // ---------- replay ----------

  predicate ById(a: LedgerRecord, b: LedgerRecord) {
    StrLe(a.recordId, b.recordId)
  }

  const IdOrder: (LedgerRecord, LedgerRecord) -> bool := (a: LedgerRecord, b: LedgerRecord) => ById(a, b)

  function OfRun(records: seq<LedgerRecord>, runId: string): seq<LedgerRecord> {
    if records == [] then []
    else
      var last := records[|records| - 1];
      OfRun(records[..|records| - 1], runId) + if last.runId == runId then [last] else []
  }

  function RecordsForRun(records: seq<LedgerRecord>, runId: string): seq<LedgerRecord> {
    SortBy(IdOrder, OfRun(records, runId))
  }

  /** The recomputed records; each borrows the creation time of the stored record at its position. */
  function Replayed(hash: ReconciliationHash, e: Entry, expected: seq<LedgerRecord>): seq<LedgerRecord>
    requires |e.p.contributions| <= |expected|
  {
    seq(|e.p.contributions|, i requires 0 <= i < |e.p.contributions| =>
      MakeRecord(hash, e.p, i, At(e.shares, i), expected[i].createdAt))
  }

  /** Pairwise comparison under Python's strict `zip`. */
  function Compare(got: seq<LedgerRecord>, want: seq<LedgerRecord>): Option<LedgerError> {
    if got == [] then (if want == [] then None else Some(ReplayTooShort))
    else if want == [] then Some(ReplayTooLong)
    else if got[0] != want[0] then Some(ReplayDrift(want[0].recordId))
    else Compare(got[1..], want[1..])
  }

  function Replay(hash: ReconciliationHash, b: Books, runId: string, revenue: int, cs: seq<Contribution>)
    : Result<seq<LedgerRecord>, LedgerError>
  {
    var expected := RecordsForRun(Flat(hash, b.posts), runId);
    match Allocate(revenue, Weights(cs))
    case Err(e) => Err(BadSplit(e))
    case Ok(shares) =>
      if |cs| > |expected| then Err(ReplayTooLong)
      else
        var replayed := Replayed(hash, Entry(Posting(runId, revenue, cs, 0), shares), expected);
        match Compare(replayed, expected)
        case Some(e) => Err(e)
        case None => Ok(replayed)
  }

  // ---------- well-formed books ----------

  ghost predicate Postable(p: Posting) {
    p.contributions != [] && ValidSplit(p.revenue, Weights(p.contributions))
  }

  /** An entry as `Post` makes it: a well-formed split, and the shares that split gives. */
  ghost predicate Proper(e: Entry) {
    Postable(e.p) && e.shares == Shares(e.p.revenue, Weights(e.p.contributions))
  }

  ghost predicate DistinctRuns(posts: seq<Entry>) {
    forall j, k | 0 <= j < k < |posts| :: posts[j].p.runId != posts[k].p.runId
  }

  ghost predicate ValidPosts(posts: seq<Entry>) {
    (forall k | 0 <= k < |posts| :: Proper(posts[k])) && DistinctRuns(posts)
  }

  ghost predicate ValidBooks(hash: ReconciliationHash, b: Books) {
    && ValidPosts(b.posts)
    && (forall id | id in b.offsets :: HasRecord(Flat(hash, b.posts), id))
    && (forall id, k | id in b.offsets && 0 <= k < |b.offsets[id]| :: b.offsets[id][k].recordId == id)
  }

  /** A record id determines its run and its index. */
  lemma {:induction false} RecordIdInjective(run: string, idx: nat, run': string, idx': nat)
    ensures RecordId(run, idx) == RecordId(run', idx') ==> run == run' && idx == idx'
  {
    Pad4Injective(idx, idx');
    Pad4Injective(idx', idx);
    if RecordId(run, idx) == RecordId(run', idx') {
      SplitLast(run, Pad4(idx), run', Pad4(idx'), ':');
    }
  }

  lemma {:induction false} FlatHas(hash: ReconciliationHash, posts: seq<Entry>, k: nat, r: LedgerRecord)
    requires k < |posts| && r in RecordsOf(hash, posts[k])
    ensures r in Flat(hash, posts)
  {
    var n := |posts| - 1;
    if k < n {
      assert posts[..n][k] == posts[k];
      FlatHas(hash, posts[..n], k, r);
    }
  }

  lemma {:induction false} FlatOrigin(hash: ReconciliationHash, posts: seq<Entry>, r: LedgerRecord)
    returns (k: nat, i: nat)
    requires r in Flat(hash, posts)
    ensures k < |posts| && i < |posts[k].p.contributions| && r == RecordsOf(hash, posts[k])[i]
  {
    var n := |posts| - 1;
    if r in RecordsOf(hash, posts[n]) {
      k := n;
      i :| 0 <= i < |RecordsOf(hash, posts[n])| && RecordsOf(hash, posts[n])[i] == r;
    } else {
      k, i := FlatOrigin(hash, posts[..n], r);
    }
  }

  /** A record id is on the books exactly when its run was posted with more contributions than its index. */
  lemma {:induction false} HasRecordIff(hash: ReconciliationHash, posts: seq<Entry>, run: string, idx: nat)
    ensures HasRecord(Flat(hash, posts), RecordId(run, idx)) <==>
              exists k | 0 <= k < |posts| :: posts[k].p.runId == run && idx < |posts[k].p.contributions|
  {
    var id := RecordId(run, idx);
    if HasRecord(Flat(hash, posts), id) {
      var r :| r in Flat(hash, posts) && r.recordId == id;
      var k, i := FlatOrigin(hash, posts, r);
      RecordIdInjective(posts[k].p.runId, i, run, idx);
    }
    if k :| 0 <= k < |posts| && posts[k].p.runId == run && idx < |posts[k].p.contributions| {
      FlatHas(hash, posts, k, RecordsOf(hash, posts[k])[idx]);
    }
  }

  // ---------- the invariant over one operation ----------

  lemma {:induction false} FlatAppend(hash: ReconciliationHash, posts: seq<Entry>, e: Entry)
    ensures Flat(hash, posts + [e]) == Flat(hash, posts) + RecordsOf(hash, e)
  {
    assert (posts + [e])[..|posts|] == posts;
  }

  lemma {:induction false} ValidAfterPost(hash: ReconciliationHash, b: Books, p: Posting)
    requires ValidBooks(hash, b)
    ensures ValidBooks(hash, Post(b, p).0)
  {
    if Post(b, p).1.None? {
      var e := Entry(p, Shares(p.revenue, Weights(p.contributions)));
      PostableOk(p);
      ValidPostsExtend(b.posts, e);
      forall id | id in b.offsets ensures HasRecord(Flat(hash, b.posts + [e]), id) {
        RecordsStay(hash, b.posts, e, id);
      }
    }
  }

  lemma {:induction false} ValidPostsExtend(posts: seq<Entry>, e: Entry)
    requires ValidPosts(posts) && Proper(e) && !IsPosted(posts, e.p.runId)
    ensures ValidPosts(posts + [e])
  {
  }

  lemma {:induction false} RecordsStay(hash: ReconciliationHash, posts: seq<Entry>, e: Entry, id: string)
    requires HasRecord(Flat(hash, posts), id)
    ensures HasRecord(Flat(hash, posts + [e]), id)
  {
    FlatAppend(hash, posts, e);
    var r :| r in Flat(hash, posts) && r.recordId == id;
    assert r in Flat(hash, posts + [e]);
  }

  lemma {:induction false} ValidAfterDispute(hash: ReconciliationHash, b: Books, o: DisputeOffset)
    requires ValidBooks(hash, b)
    ensures ValidBooks(hash, Dispute(hash, b, o).0)
  {
  }

  /** The split succeeds exactly on a postable posting, and gives the shares of the rule. */
  lemma {:induction false} PostableOk(p: Posting)
    requires p.contributions != []
    ensures var split := Allocate(p.revenue, Weights(p.contributions));
            && (split.Ok? <==> Postable(p))
            && (split.Ok? ==> split.value == Shares(p.revenue, Weights(p.contributions)))
  {
  }

  /** The ids of a run: none is on the books before it is posted; index 0 is afterwards. */
  lemma {:induction false} FreshIds(hash: ReconciliationHash, posts: seq<Entry>, runId: string)
    requires forall k | 0 <= k < |posts| :: posts[k].p.contributions != []
    ensures IsPosted(posts, runId) ==> HasRecord(Flat(hash, posts), RecordId(runId, 0))
    ensures !IsPosted(posts, runId) ==> forall idx: nat :: !HasRecord(Flat(hash, posts), RecordId(runId, idx))
  {
    HasRecordIff(hash, posts, runId, 0);
    forall idx: nat | !IsPosted(posts, runId) ensures !HasRecord(Flat(hash, posts), RecordId(runId, idx)) {
      HasRecordIff(hash, posts, runId, idx);
    }
  }

  /** What a run wrote before an index does not collide with that index. */
  lemma {:induction false} OwnIdsDiffer(hash: ReconciliationHash, records: seq<LedgerRecord>, e: Entry, idx: nat)
    requires idx < |e.p.contributions|
    ensures HasRecord(records + RecordsOf(hash, e)[..idx], RecordId(e.p.runId, idx)) <==> HasRecord(records, RecordId(e.p.runId, idx))
  {
    var id := RecordId(e.p.runId, idx);
    forall i: nat | i < idx ensures RecordsOf(hash, e)[..idx][i].recordId != id {
      RecordIdInjective(e.p.runId, i, e.p.runId, idx);
    }
    if HasRecord(records, id) {
      var r :| r in records && r.recordId == id;
      assert r in records + RecordsOf(hash, e)[..idx];
    }
  }

  // ---------- the loops ----------

  /** The posting loop: stops at the first id already present, keeping what it wrote so far. */
  method WriteRecords(hash: ReconciliationHash, records: seq<LedgerRecord>, e: Entry)
    returns (written: seq<LedgerRecord>, dup: Option<string>)
    ensures |written| <= |e.p.contributions| && written == RecordsOf(hash, e)[..|written|]
    ensures forall i: nat | i < |written| :: !HasRecord(records, RecordId(e.p.runId, i))
    ensures dup == if |written| == |e.p.contributions| then None else Some(RecordId(e.p.runId, |written|))
    ensures dup.Some? ==> HasRecord(records, dup.value)
  {
    written := [];
    var all := records;
    for idx := 0 to |e.p.contributions|
      invariant written == RecordsOf(hash, e)[..idx] && all == records + written
      invariant forall i: nat | i < idx :: !HasRecord(records, RecordId(e.p.runId, i))
    {
      var recordId := RecordId(e.p.runId, idx);
      OwnIdsDiffer(hash, records, e, idx);
      if HasRecord(all, recordId) {
        return written, Some(recordId);
      }
      var record := MakeRecord(hash, e.p, idx, At(e.shares, idx), e.p.createdAt);
      assert record == RecordsOf(hash, e)[idx];
      all := all + [record];
      written := written + [record];
    }
    return written, None;
  }

  /** On well-formed books the loop writes a run whole or not at all. */
  lemma {:induction false} WrittenWhole(hash: ReconciliationHash, posts: seq<Entry>, e: Entry, written: seq<LedgerRecord>, dup: Option<string>)
    requires forall k | 0 <= k < |posts| :: posts[k].p.contributions != []
    requires e.p.contributions != [] && |written| <= |e.p.contributions| && written == RecordsOf(hash, e)[..|written|]
    requires forall i: nat | i < |written| :: !HasRecord(Flat(hash, posts), RecordId(e.p.runId, i))
    requires dup == if |written| == |e.p.contributions| then None else Some(RecordId(e.p.runId, |written|))
    requires dup.Some? ==> HasRecord(Flat(hash, posts), dup.value)
    ensures IsPosted(posts, e.p.runId) ==> written == [] && dup == Some(RecordId(e.p.runId, 0))
    ensures !IsPosted(posts, e.p.runId) ==> written == RecordsOf(hash, e) && dup == None
  {
    FreshIds(hash, posts, e.p.runId);
  }

  method TotalOf(own: seq<DisputeOffset>, start: int) returns (total: int)
    ensures total == start + SumOf(Adjustment, own)
  {
    total := start;
    for k := 0 to |own|
      invariant total == start + SumOf(Adjustment, own[..k])
    {
      assert own[..k + 1] == own[..k] + [own[k]];
      SumOfAppend(Adjustment, own[..k], own[k]);
      total := total + own[k].adjustmentCents;
    }
    assert own[..|own|] == own;
  }

  method Tally(records: seq<LedgerRecord>, offsets: map<string, seq<DisputeOffset>>, custodianId: string)
    returns (gross: int, adjustments: int)
    ensures gross == SumOf(GrossTerm(custodianId), records)
    ensures adjustments == SumOf(AdjustmentTerm(offsets, custodianId), records)
  {
    gross, adjustments := 0, 0;
    for k := 0 to |records|
      invariant gross == SumOf(GrossTerm(custodianId), records[..k])
      invariant adjustments == SumOf(AdjustmentTerm(offsets, custodianId), records[..k])
    {
      var record := records[k];
      assert records[..k + 1] == records[..k] + [record];
      SumOfAppend(GrossTerm(custodianId), records[..k], record);
      SumOfAppend(AdjustmentTerm(offsets, custodianId), records[..k], record);
      if record.custodianId == custodianId {
        gross := gross + record.allocatedCents;
        adjustments := TotalOf(OffsetsOf(offsets, record.recordId), adjustments);
      }
    }
    assert records[..|records|] == records;
  }

  /** The first loop of a replay: indexing past the stored records fails. */
  method Recompute(hash: ReconciliationHash, e: Entry, expected: seq<LedgerRecord>) returns (replayed: Option<seq<LedgerRecord>>)
    ensures replayed == if |e.p.contributions| > |expected| then None else Some(Replayed(hash, e, expected))
  {
    var got: seq<LedgerRecord> := [];
    for idx := 0 to |e.p.contributions|
      invariant idx <= |expected| && |got| == idx
      invariant forall k | 0 <= k < idx :: got[k] == MakeRecord(hash, e.p, k, At(e.shares, k), expected[k].createdAt)
    {
      if idx >= |expected| { return None; }
      got := got + [MakeRecord(hash, e.p, idx, At(e.shares, idx), expected[idx].createdAt)];
    }
    assert got == Replayed(hash, e, expected);
    return Some(got);
  }

  /** The second loop: strict `zip`, stopping at the first difference. */
  method FirstDrift(replayed: seq<LedgerRecord>, expected: seq<LedgerRecord>) returns (drift: Option<LedgerError>)
    ensures drift == Compare(replayed, expected)
  {
    var k := 0;
    while k < |replayed| && k < |expected|
      invariant 0 <= k <= |replayed| && k <= |expected|
      invariant Compare(replayed[k..], expected[k..]) == Compare(replayed, expected)
    {
      if replayed[k] != expected[k] { return Some(ReplayDrift(expected[k].recordId)); }
      k := k + 1;
    }
    if k < |replayed| { return Some(ReplayTooLong); }
    if k < |expected| { return Some(ReplayTooShort); }
    return None;
  }

  class ContributionLedger {
    const hash: ReconciliationHash
    var records: seq<LedgerRecord>
    var offsets: map<string, seq<DisputeOffset>>
    ghost var posts: seq<Entry>

    ghost predicate Valid()
      reads this
    {
      records == Flat(hash, posts) && ValidBooks(hash, Books(posts, offsets))
    }

    ghost function TheBooks(): Books
      reads this
    {
      Books(posts, offsets)
    }

    constructor (hash: ReconciliationHash)
      ensures Valid() && this.hash == hash && TheBooks() == Books([], map[])
    {
      this.hash := hash;
      records, offsets, posts := [], map[], [];
    }

    method PostRun(p: Posting) returns (r: Result<seq<LedgerRecord>, LedgerError>)
      requires Valid()
      modifies this
      ensures Valid()
      ensures (TheBooks(), if r.Err? then Some(r.error) else None) == Post(old(TheBooks()), p)
      ensures r.Ok? ==> r.value == RecordsOf(hash, Entry(p, Shares(p.revenue, Weights(p.contributions))))
    {
      if p.contributions == [] { return Err(NoContributions); }
      var split := AllocateCents(p.revenue, Weights(p.contributions));
      if split.Err? { return Err(BadSplit(split.error)); }
      PostableOk(p);
      var e := Entry(p, split.value);
      var written, dup := WriteRecords(hash, records, e);
      WrittenWhole(hash, posts, e, written, dup);
      ValidAfterPost(hash, Books(posts, offsets), p);
      FlatAppend(hash, posts, e);
      records := records + written;
      if dup.Some? { return Err(DuplicateRecord(dup.value)); }
      posts := posts + [e];
      return Ok(written);
    }

    method ApplyDisputeOffset(o: DisputeOffset) returns (r: Result<DisputeOffset, LedgerError>)
      requires Valid()
      modifies this`offsets
      ensures Valid()
      ensures (TheBooks(), if r.Err? then Some(r.error) else None) == Dispute(hash, old(TheBooks()), o)
      ensures r.Ok? ==> r.value == o
    {
      if !HasRecord(records, o.recordId) { return Err(UnknownRecord(o.recordId)); }
      if |o.reason| > MAX_REASON { return Err(ReasonTooLong); }
      ValidAfterDispute(hash, Books(posts, offsets), o);
      offsets := AddOffset(offsets, o);
      return Ok(o);
    }

    method ApplyPartialRefund(recordId: string, numer: int, denom: int, createdAt: int)
      returns (r: Result<DisputeOffset, LedgerError>)
      requires Valid()
      modifies this`offsets
      ensures Valid()
      ensures (TheBooks(), if r.Err? then Some(r.error) else None)
           == Refund(hash, old(TheBooks()), recordId, numer, denom, createdAt)
    {
      var found := Find(records, recordId);
      if found.None? { return Err(UnknownRecord(recordId)); }
      var refund := RoundHalfEven(found.value.allocatedCents, numer, denom);
      if refund.Err? { return Err(BadRatio(refund.error)); }
      r := ApplyDisputeOffset(RefundOffset(recordId, refund.value, numer, denom, createdAt));
    }

    method NetForRecord(recordId: string) returns (net: Option<int>)
      requires Valid()
      ensures net == Net(hash, TheBooks(), recordId)
    {
      var found := Find(records, recordId);
      if found.None? { return None; }
      var total := TotalOf(OffsetsOf(offsets, recordId), found.value.allocatedCents);
      return Some(total);
    }

    method StatementForCustodian(custodianId: string) returns (s: Statement)
      requires Valid()
      ensures s == StatementFor(hash, TheBooks(), custodianId)
    {
      var gross, adjustments := Tally(records, offsets, custodianId);
      return Statement(gross, adjustments, gross + adjustments);
    }

    method ReplayRun(runId: string, revenue: int, cs: seq<Contribution>) returns (r: Result<seq<LedgerRecord>, LedgerError>)
      requires Valid()
      ensures r == Replay(hash, TheBooks(), runId, revenue, cs)
    {
      var expected := RecordsForRun(records, runId);
      var split := AllocateCents(revenue, Weights(cs));
      if split.Err? { return Err(BadSplit(split.error)); }
      var e := Entry(Posting(runId, revenue, cs, 0), split.value);
      var replayed := Recompute(hash, e, expected);
      if replayed.None? { return Err(ReplayTooLong); }
      var drift := FirstDrift(replayed.value, expected);
      return if drift.Some? then Err(drift.value) else Ok(replayed.value);
    }
  }
}
