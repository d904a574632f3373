/** The hash-chained trace recorder. */
module Trace {
  import opened Text
  import opened Gateway

  /** The event names the engine writes, and any other. */
  datatype EventName =
    | RequestReceived
    | PolicyDecided(state: PolicyState)
    | ToolCalled
    | RunCompleted
    | HoldReleased
    | OtherEvent(name: string)

  datatype Detail =
    | NoDetail
    | ActionDetail(action: string)
    | DecisionDetail(reason: Reason, sequence: nat)
    | ToolDetail(tool: string)
    | OtherDetail(text: string)

  /** What an event hash covers besides the previous hash. */
  datatype Body = Body(
    traceId: string, requestId: string, sequence: nat, wallTime: string, monotonicNs: nat,
    event: EventName, actor: string, detail: Detail)

  datatype ExecutionTrace = ExecutionTrace(body: Body, prevHash: string, eventHash: string)

  /** SHA-256 over the previous hash and the canonical JSON of the body. */
  type ChainHash = (string, Body) -> string

  const GENESIS: string := Zeros(64)

  lemma {:induction false} GenesisIs()
    ensures |GENESIS| == 64 && forall k | 0 <= k < 64 :: GENESIS[k] == '0'
  {
  }

  predicate VerifyLink(chain: ChainHash, record: ExecutionTrace, expected: string) {
    record.prevHash == expected && chain(record.prevHash, record.body) == record.eventHash
  }

  /** The verifier's walk. */
  predicate VerifyFrom(chain: ChainHash, events: seq<ExecutionTrace>, expected: string, lastMono: int) {
    events == [] ||
      (&& VerifyLink(chain, events[0], expected)
       && events[0].body.monotonicNs >= lastMono
       && VerifyFrom(chain, events[1..], events[0].eventHash, events[0].body.monotonicNs))
  }

  predicate ChainOk(chain: ChainHash, events: seq<ExecutionTrace>) {
    VerifyFrom(chain, events, GENESIS, -1)
  }

  function LastHash(events: seq<ExecutionTrace>): string {
    if events == [] then GENESIS else events[|events| - 1].eventHash
  }

  function LastMono(events: seq<ExecutionTrace>): int {
    if events == [] then -1 else events[|events| - 1].body.monotonicNs
  }

  function NextRecord(chain: ChainHash, traceId: string, events: seq<ExecutionTrace>, requestId: string,
                      event: EventName, actor: string, detail: Detail, wall: string, mono: nat): ExecutionTrace
  {
    var body := Body(traceId, requestId, |events|, wall, mono, event, actor, detail);
    ExecutionTrace(body, LastHash(events), chain(LastHash(events), body))
  }

  class TraceRecorder {
    const traceId: string
    const chain: ChainHash
    var events: seq<ExecutionTrace>

    constructor (traceId: string, chain: ChainHash)
      ensures this.traceId == traceId && this.chain == chain && events == []
    {
      this.traceId, this.chain, events := traceId, chain, [];
    }

    /** `wall` and `mono` are the two clock readings taken under the lock. */
    method Append(requestId: string, event: EventName, actor: string, detail: Detail, wall: string, mono: nat)
      returns (record: ExecutionTrace)
      modifies this
      ensures record == NextRecord(chain, traceId, old(events), requestId, event, actor, detail, wall, mono)
      ensures events == old(events) + [record]
      ensures old(ChainOk(chain, events)) && mono >= old(LastMono(events)) ==> ChainOk(chain, events)
    {
      var sequence := |events|;
      var prevHash := if events != [] then events[|events| - 1].eventHash else GENESIS;
      var body := Body(traceId, requestId, sequence, wall, mono, event, actor, detail);
      record := ExecutionTrace(body, prevHash, chain(prevHash, body));
      AppendKeepsChain(chain, events, record);
      events := events + [record];
    }

    method VerifyChain() returns (ok: bool)
      ensures ok <==> ChainOk(chain, events)
    {
      var expected, lastMono: int, k := GENESIS, -1, 0;
      while k < |events|
        invariant 0 <= k <= |events|
        invariant VerifyFrom(chain, events[k..], expected, lastMono) == ChainOk(chain, events)
      {
        var record := events[k];
        if !VerifyLink(chain, record, expected) { return false; }
        if record.body.monotonicNs < lastMono { return false; }
        lastMono := record.body.monotonicNs;
        expected := record.eventHash;
        k := k + 1;
      }
      return true;
    }
  }

  // ---------- what the walk checks ----------

  ghost predicate LinkedAt(chain: ChainHash, events: seq<ExecutionTrace>, expected: string, lastMono: int, k: nat)
    requires k < |events|
  {
    && VerifyLink(chain, events[k], if k == 0 then expected else events[k - 1].eventHash)
    && events[k].body.monotonicNs >= (if k == 0 then lastMono else events[k - 1].body.monotonicNs)
  }

  ghost predicate Linked(chain: ChainHash, events: seq<ExecutionTrace>, expected: string, lastMono: int) {
    forall k | 0 <= k < |events| :: LinkedAt(chain, events, expected, lastMono, k)
  }

  /** The walk accepts exactly the lists whose every event links to its predecessor in hash and in time. */
  lemma {:induction false} WalkIsLinked(chain: ChainHash, events: seq<ExecutionTrace>, expected: string, lastMono: int)
    ensures VerifyFrom(chain, events, expected, lastMono) <==> Linked(chain, events, expected, lastMono)
  {
    if events != [] {
      var first, rest := events[0], events[1..];
      WalkIsLinked(chain, rest, first.eventHash, first.body.monotonicNs);
      forall k | 0 <= k < |rest|
        ensures LinkedAt(chain, rest, first.eventHash, first.body.monotonicNs, k)
           <==> LinkedAt(chain, events, expected, lastMono, k + 1)
      {
      }
      assert VerifyFrom(chain, events, expected, lastMono) <==>
               LinkedAt(chain, events, expected, lastMono, 0) && VerifyFrom(chain, rest, first.eventHash, first.body.monotonicNs);
      if VerifyFrom(chain, events, expected, lastMono) {
        forall k | 0 <= k < |events| ensures LinkedAt(chain, events, expected, lastMono, k) {
          if k > 0 { assert LinkedAt(chain, rest, first.eventHash, first.body.monotonicNs, k - 1); }
        }
      }
    }
  }

  lemma {:induction false} AppendKeepsChain(chain: ChainHash, events: seq<ExecutionTrace>, record: ExecutionTrace)
    requires VerifyLink(chain, record, LastHash(events))
    ensures ChainOk(chain, events) && record.body.monotonicNs >= LastMono(events) ==> ChainOk(chain, events + [record])
  {
    var more := events + [record];
    WalkIsLinked(chain, events, GENESIS, -1);
    WalkIsLinked(chain, more, GENESIS, -1);
    if ChainOk(chain, events) && record.body.monotonicNs >= LastMono(events) {
      forall k | 0 <= k < |more| ensures LinkedAt(chain, more, GENESIS, -1, k) {
        assert k < |events| ==> LinkedAt(chain, events, GENESIS, -1, k);
      }
    }
  }

  /** In a verifying chain each event continues the prefix before it. */
  lemma {:induction false} LinkOf(chain: ChainHash, events: seq<ExecutionTrace>, k: nat)
    requires ChainOk(chain, events) && k < |events|
    ensures VerifyLink(chain, events[k], LastHash(events[..k]))
    ensures LastHash(events[..k + 1]) == events[k].eventHash
  {
    WalkIsLinked(chain, events, GENESIS, -1);
    assert LinkedAt(chain, events, GENESIS, -1, k);
  }

  // ---------- every recorder verifies ----------

  /** One append: what is recorded, and how far the monotonic clock moved since the last reading. */
  datatype Entry = Entry(requestId: string, event: EventName, actor: string, detail: Detail, wall: string, elapsed: nat)

  function MonoNow(events: seq<ExecutionTrace>, elapsed: nat): nat {
    if events == [] then elapsed else events[|events| - 1].body.monotonicNs + elapsed
  }

  function Recorded(chain: ChainHash, traceId: string, events: seq<ExecutionTrace>, e: Entry): seq<ExecutionTrace> {
    events + [NextRecord(chain, traceId, events, e.requestId, e.event, e.actor, e.detail, e.wall, MonoNow(events, e.elapsed))]
  }

  function RecordAll(chain: ChainHash, traceId: string, entries: seq<Entry>): seq<ExecutionTrace> {
    if entries == [] then []
    else Recorded(chain, traceId, RecordAll(chain, traceId, entries[..|entries| - 1]), entries[|entries| - 1])
  }

  ghost predicate Records(b: Body, traceId: string, e: Entry) {
    && b.traceId == traceId && b.requestId == e.requestId && b.wallTime == e.wall
    && b.event == e.event && b.actor == e.actor && b.detail == e.detail
  }

  /** How far the monotonic clock has moved in all. */
  ghost function Elapsed(entries: seq<Entry>): nat {
    if entries == [] then 0 else Elapsed(entries[..|entries| - 1]) + entries[|entries| - 1].elapsed
  }

  /** Every reachable recorder state verifies, holds what was appended in order, and numbers its events by position. */
  lemma {:induction false} ReachableVerifies(chain: ChainHash, traceId: string, entries: seq<Entry>)
    ensures var events := RecordAll(chain, traceId, entries);
            && ChainOk(chain, events) && |events| == |entries|
            && forall k | 0 <= k < |events| :: events[k].body.sequence == k && Records(events[k].body, traceId, entries[k])
  {
    if entries != [] {
      var before := RecordAll(chain, traceId, entries[..|entries| - 1]);
      ReachableVerifies(chain, traceId, entries[..|entries| - 1]);
      var after := RecordAll(chain, traceId, entries);
      AppendKeepsChain(chain, before, after[|after| - 1]);
    }
  }

  lemma {:induction false} RecordPrefix(chain: ChainHash, traceId: string, entries: seq<Entry>, n: nat)
    requires n <= |entries|
    ensures |RecordAll(chain, traceId, entries)| == |entries|
    ensures RecordAll(chain, traceId, entries[..n]) == RecordAll(chain, traceId, entries)[..n]
  {
    if n == |entries| {
      assert entries[..n] == entries;
      if n > 0 { RecordPrefix(chain, traceId, entries[..n - 1], n - 1); }
    } else {
      RecordPrefix(chain, traceId, entries[..|entries| - 1], n);
      assert entries[..|entries| - 1][..n] == entries[..n];
    }
  }

  lemma {:induction false} LastClock(chain: ChainHash, traceId: string, entries: seq<Entry>)
    requires entries != []
    ensures var events := RecordAll(chain, traceId, entries);
            events != [] && events[|events| - 1].body.monotonicNs == Elapsed(entries)
  {
    var before := entries[..|entries| - 1];
    if before != [] {
      LastClock(chain, traceId, before);
    }
  }

  /** Event `k` carries the monotonic time that has passed up to its own append. */
  lemma {:induction false} ClockAdds(chain: ChainHash, traceId: string, entries: seq<Entry>, k: nat)
    requires k < |entries|
    ensures var events := RecordAll(chain, traceId, entries);
            |events| == |entries| && events[k].body.monotonicNs == Elapsed(entries[..k + 1])
  {
    RecordPrefix(chain, traceId, entries, k + 1);
    LastClock(chain, traceId, entries[..k + 1]);
  }

  // ---------- the head commits to the history ----------

  /** Among these records no two inputs of the chain hash collide, and none gives the genesis digest. */
  ghost predicate Committing(chain: ChainHash, records: set<ExecutionTrace>) {
    && (forall r, s | r in records && s in records && chain(r.prevHash, r.body) == chain(s.prevHash, s.body) ::
          r.prevHash == s.prevHash && r.body == s.body)
    && (forall r | r in records :: chain(r.prevHash, r.body) != GENESIS)
  }

  ghost function In(a: seq<ExecutionTrace>): set<ExecutionTrace> {
    set r | r in a
  }

  lemma {:induction false} PrefixOk(chain: ChainHash, events: seq<ExecutionTrace>, n: nat)
    requires ChainOk(chain, events) && n <= |events|
    ensures ChainOk(chain, events[..n])
  {
    WalkIsLinked(chain, events, GENESIS, -1);
    WalkIsLinked(chain, events[..n], GENESIS, -1);
    forall k | 0 <= k < n ensures LinkedAt(chain, events[..n], GENESIS, -1, k) {
      assert LinkedAt(chain, events, GENESIS, -1, k);
    }
  }

  /** The head of a non-empty chain is a hash of its last record. */
  lemma {:induction false} HeadIsHash(chain: ChainHash, a: seq<ExecutionTrace>)
    requires ChainOk(chain, a) && a != []
    ensures var r := a[|a| - 1]; r in In(a) && LastHash(a) == r.eventHash == chain(r.prevHash, r.body)
    ensures a[|a| - 1].prevHash == LastHash(a[..|a| - 1]) && ChainOk(chain, a[..|a| - 1])
    ensures In(a[..|a| - 1]) <= In(a)
  {
    LinkOf(chain, a, |a| - 1);
    PrefixOk(chain, a, |a| - 1);
  }

  /** Two verifying chains with one final hash are the same chain. */
  lemma {:induction false} HeadCommits(chain: ChainHash, a: seq<ExecutionTrace>, b: seq<ExecutionTrace>)
    requires Committing(chain, In(a) + In(b)) && ChainOk(chain, a) && ChainOk(chain, b)
    requires LastHash(a) == LastHash(b)
    ensures a == b
  {
    if a != [] { HeadIsHash(chain, a); }
    if b != [] { HeadIsHash(chain, b); }
    if a != [] && b != [] {
      var m, n := |a| - 1, |b| - 1;
      assert a[m] == b[n];
      CommittingLess(chain, In(a) + In(b), In(a[..m]) + In(b[..n]));
      HeadCommits(chain, a[..m], b[..n]);
      assert a == a[..m] + [a[m]] && b == b[..n] + [b[n]];
    }
  }

  lemma {:induction false} CommittingLess(chain: ChainHash, records: set<ExecutionTrace>, fewer: set<ExecutionTrace>)
    requires Committing(chain, records) && fewer <= records
    ensures Committing(chain, fewer)
  {
  }

  lemma {:induction false} HashesDistinct(chain: ChainHash, events: seq<ExecutionTrace>, i: nat, j: nat)
    requires Committing(chain, In(events)) && ChainOk(chain, events) && i <= j <= |events|
    ensures LastHash(events[..i]) == LastHash(events[..j]) ==> i == j
  {
    PrefixOk(chain, events, i);
    PrefixOk(chain, events, j);
    if LastHash(events[..i]) == LastHash(events[..j]) {
      HeadCommits(chain, events[..i], events[..j]);
    }
  }

  /**
   * The promise that any deletion breaks the chain holds exactly away from the end: dropping one event goes unnoticed
   * if and only if it is the last.
   */
  lemma {:induction false} DeletionUndetectedIff(chain: ChainHash, events: seq<ExecutionTrace>, k: nat)
    requires Committing(chain, In(events)) && ChainOk(chain, events) && k < |events|
    ensures ChainOk(chain, events[..k] + events[k + 1..]) <==> k == |events| - 1
  {
    var cut := events[..k] + events[k + 1..];
    if k == |events| - 1 {
      assert cut == events[..k];
      PrefixOk(chain, events, k);
    } else {
      HashesDistinct(chain, events, k, k + 1);
      LinkOf(chain, events, k + 1);
      LinkOf(chain, events, k);
      assert cut[k] == events[k + 1] && cut[..k] == events[..k];
      if ChainOk(chain, cut) { LinkOf(chain, cut, k); }
    }
  }

  /** What the last event may be replaced by, for any hash: whatever continues the chain before it. */
  lemma {:induction false} LastMutationIff(chain: ChainHash, events: seq<ExecutionTrace>, other: ExecutionTrace)
    requires ChainOk(chain, events) && events != []
    ensures var n := |events| - 1;
            ChainOk(chain, events[n := other]) <==>
              VerifyLink(chain, other, LastHash(events[..n])) && other.body.monotonicNs >= LastMono(events[..n])
  {
    var n := |events| - 1;
    var changed := events[n := other];
    PrefixOk(chain, events, n);
    assert changed == events[..n] + [other] && changed[..n] == events[..n];
    if VerifyLink(chain, other, LastHash(events[..n])) && other.body.monotonicNs >= LastMono(events[..n]) {
      AppendKeepsChain(chain, events[..n], other);
    }
    if ChainOk(chain, changed) {
      LinkOf(chain, changed, n);
      WalkIsLinked(chain, changed, GENESIS, -1);
      assert LinkedAt(chain, changed, GENESIS, -1, n);
    }
  }

  lemma {:induction false} InnerMutation(chain: ChainHash, events: seq<ExecutionTrace>, k: nat, other: ExecutionTrace)
    requires Committing(chain, In(events) + {other}) && ChainOk(chain, events) && k + 1 < |events|
    requires ChainOk(chain, events[k := other])
    ensures other == events[k]
  {
    var changed := events[k := other];
    LinkOf(chain, events, k + 1);
    LinkOf(chain, changed, k + 1);
    PrefixOk(chain, events, k + 1);
    PrefixOk(chain, changed, k + 1);
    assert changed[k + 1] == events[k + 1];
    assert In(changed[..k + 1]) <= In(events) + {other};
    HeadCommits(chain, events[..k + 1], changed[..k + 1]);
    assert events[..k + 1][k] == changed[..k + 1][k];
  }

  /**
   * The promise that any mutation breaks the chain: before the last event nothing but the event itself verifies; in
   * the last place exactly the records that continue the chain before it do.
   */
  lemma {:induction false} MutationUndetectedIff(chain: ChainHash, events: seq<ExecutionTrace>, k: nat, other: ExecutionTrace)
    requires Committing(chain, In(events) + {other}) && ChainOk(chain, events) && k < |events|
    ensures ChainOk(chain, events[k := other]) <==>
              if k + 1 < |events| then other == events[k]
              else VerifyLink(chain, other, LastHash(events[..k])) && other.body.monotonicNs >= LastMono(events[..k])
  {
    if k + 1 == |events| {
      LastMutationIff(chain, events, other);
    } else if other == events[k] {
      assert events[k := other] == events;
    } else if ChainOk(chain, events[k := other]) {
      InnerMutation(chain, events, k, other);
    }
  }

  /** The last event with its actor rewritten and its hash recomputed. */
  function Rewritten(chain: ChainHash, last: ExecutionTrace, actor: string): ExecutionTrace {
    var body := last.body.(actor := actor);
    ExecutionTrace(body, last.prevHash, chain(last.prevHash, body))
  }

  /** It verifies, whoever is named, for any hash. */
  lemma {:induction false} RewrittenLastVerifies(chain: ChainHash, events: seq<ExecutionTrace>, actor: string)
    requires ChainOk(chain, events) && events != [] && actor != events[|events| - 1].body.actor
    ensures var n := |events| - 1;
            ChainOk(chain, events[n := Rewritten(chain, events[n], actor)]) && Rewritten(chain, events[n], actor) != events[n]
  {
    var n := |events| - 1;
    LinkOf(chain, events, n);
    WalkIsLinked(chain, events, GENESIS, -1);
    assert LinkedAt(chain, events, GENESIS, -1, n);
    LastMutationIff(chain, events, Rewritten(chain, events[n], actor));
  }

  lemma {:induction false} ReorderedPrefix(chain: ChainHash, a: seq<ExecutionTrace>, b: seq<ExecutionTrace>, n: nat)
    requires Committing(chain, In(a)) && ChainOk(chain, a) && ChainOk(chain, b)
    requires multiset(a) == multiset(b) && n <= |a|
    ensures |a| == |b| && a[..n] == b[..n]
  {
    assert |multiset(a)| == |multiset(b)|;
    if n > 0 {
      ReorderedPrefix(chain, a, b, n - 1);
      var r := b[n - 1];
      assert r in multiset(a);
      var j :| 0 <= j < |a| && a[j] == r;
      SamePlace(chain, a, j, b, n - 1);
      assert a[..n] == a[..n - 1] + [r] && b[..n] == b[..n - 1] + [r];
    }
  }

  /** After a common prefix, the same event stands at the same place. */
  lemma {:induction false} SamePlace(chain: ChainHash, a: seq<ExecutionTrace>, j: nat, b: seq<ExecutionTrace>, m: nat)
    requires Committing(chain, In(a)) && ChainOk(chain, a) && ChainOk(chain, b)
    requires j < |a| && m < |a| && m < |b| && a[j] == b[m] && a[..m] == b[..m]
    ensures j == m
  {
    LinkOf(chain, a, j);
    LinkOf(chain, b, m);
    if j <= m {
      HashesDistinct(chain, a, j, m);
    } else {
      HashesDistinct(chain, a, m, j);
    }
  }

  /** No proper reordering of a verifying chain verifies. */
  lemma {:induction false} ReorderingDetected(chain: ChainHash, a: seq<ExecutionTrace>, b: seq<ExecutionTrace>)
    requires Committing(chain, In(a)) && ChainOk(chain, a) && multiset(a) == multiset(b)
    ensures ChainOk(chain, b) <==> b == a
  {
    if ChainOk(chain, b) {
      ReorderedPrefix(chain, a, b, |a|);
      assert a[..|a|] == a && b[..|b|] == b;
    }
  }
}
