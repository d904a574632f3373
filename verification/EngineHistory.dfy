/** Every run and both queues, told by the sequence of operations alone. */
module EngineHistory {
  import opened Wrappers
  import opened Gateway
  import opened Trace
  import opened Engine

  /** A submission always enters a run; a release does when its request is held. */
  ghost predicate Enters(before: seq<EngineOp>, op: EngineOp) {
    op.DoSubmit? || (op.DoRelease? && HeldByHistory(before, op.requestId))
  }

  ghost function EntryCount(ops: seq<EngineOp>): nat {
    if ops == [] then 0
    else EntryCount(ops[..|ops| - 1]) + if Enters(ops[..|ops| - 1], ops[|ops| - 1]) then 1 else 0
  }

  /** Operation `j` entered run `id`. */
  ghost predicate EnteredBy(ops: seq<EngineOp>, j: int, id: nat) {
    0 <= j < |ops| && Enters(ops[..j], ops[j]) && EntryCount(ops[..j]) == id
  }

  predicate IsOutput(op: EngineOp, id: nat) {
    op.DoOutput? && op.runId == id
  }

  /** Run `id` was entered by an Allowed operation, and no output was offered to it since. */
  ghost predicate MayWork(ops: seq<EngineOp>, id: nat) {
    exists j :: EnteredBy(ops, j, id) && ops[j].d.state == Allowed && forall k | j < k < |ops| :: !IsOutput(ops[k], id)
  }

  /** The tool calls made while the run might work, in order. */
  ghost function AcceptedCalls(ops: seq<EngineOp>, id: nat): seq<ToolCall> {
    if ops == [] then []
    else
      var before, op := ops[..|ops| - 1], ops[|ops| - 1];
      AcceptedCalls(before, id) + if op.DoTool? && op.runId == id && MayWork(before, id) then [op.call] else []
  }

  /** The outputs offered while the run might work: one at most, since the first ends its work. */
  ghost function AcceptedOutputs(ops: seq<EngineOp>, id: nat): seq<string> {
    if ops == [] then []
    else
      var before, op := ops[..|ops| - 1], ops[|ops| - 1];
      AcceptedOutputs(before, id) + if IsOutput(op, id) && MayWork(before, id) then [op.output] else []
  }

  lemma {:induction false} EnteredExtends(before: seq<EngineOp>, op: EngineOp, j: int, id: nat)
    ensures EnteredBy(before + [op], j, id) <==>
              EnteredBy(before, j, id) || (j == |before| && Enters(before, op) && EntryCount(before) == id)
  {
    var ops := before + [op];
    if 0 <= j < |before| {
      assert ops[..j] == before[..j] && ops[j] == before[j];
    } else if j == |before| {
      assert ops[..j] == before && ops[j] == op;
    }
  }

  lemma {:induction false} MayWorkExtends(before: seq<EngineOp>, op: EngineOp, id: nat)
    ensures MayWork(before + [op], id) <==>
              || (Enters(before, op) && EntryCount(before) == id && op.d.state == Allowed)
              || (MayWork(before, id) && !IsOutput(op, id))
  {
    var ops := before + [op];
    assert ops[|before|] == op && forall k | 0 <= k < |before| :: ops[k] == before[k];
    if Enters(before, op) && EntryCount(before) == id && op.d.state == Allowed {
      EnteredExtends(before, op, |before|, id);
    }
    if MayWork(before, id) && !IsOutput(op, id) {
      var j :| EnteredBy(before, j, id) && before[j].d.state == Allowed && forall k | j < k < |before| :: !IsOutput(before[k], id);
      EnteredExtends(before, op, j, id);
      assert ops[j].d.state == Allowed && forall k | j < k < |ops| :: !IsOutput(ops[k], id);
    }
    if MayWork(ops, id) {
      var j :| EnteredBy(ops, j, id) && ops[j].d.state == Allowed && forall k | j < k < |ops| :: !IsOutput(ops[k], id);
      EnteredExtends(before, op, j, id);
      assert j < |before| ==> !IsOutput(ops[|before|], id) && forall k | j < k < |before| :: !IsOutput(before[k], id);
    }
  }

  /** How one operation changes one run. */
  lemma {:induction false} RunStep(v: EngineView, op: EngineOp, id: nat)
    requires RunsOk(v)
    ensures var v' := Apply(v, op);
            var enters := op.DoSubmit? || (op.DoRelease? && op.requestId in v.conditional);
            && |v'.runs| == |v.runs| + (if enters then 1 else 0)
            && (enters ==> v'.runs[|v.runs|] == RunView(op.requestId, StateFor(op.d.state), op.d, [], []))
            && (id < |v.runs| ==>
                  var r, r' := v.runs[id], v'.runs[id];
                  && r'.requestId == r.requestId && r'.decision == r.decision
                  && r'.toolCalls == r.toolCalls + (if op.DoTool? && op.runId == id && r.state == Executing then [op.call] else [])
                  && r'.outputs == r.outputs + (if IsOutput(op, id) && r.state == Executing then [op.output] else [])
                  && (r'.state == Executing <==> r.state == Executing && !IsOutput(op, id)))
  {
    assert id < |v.runs| ==> RunOk(v.runs[id]);
  }

  /** What the history says about one run. */
  ghost predicate Told(ops: seq<EngineOp>, id: nat) {
    var v := RunOps(ops);
    && |v.runs| == EntryCount(ops)
    && (MayWork(ops, id) <==> id < |v.runs| && v.runs[id].state == Executing)
    && (id < |v.runs| ==> v.runs[id].toolCalls == AcceptedCalls(ops, id) && v.runs[id].outputs == AcceptedOutputs(ops, id))
    && (id >= |v.runs| ==> AcceptedCalls(ops, id) == [] && AcceptedOutputs(ops, id) == [])
  }

  lemma {:induction false} RunIsItsHistory(ops: seq<EngineOp>, id: nat)
    ensures Told(ops, id)
  {
    if ops != [] {
      var before, op := ops[..|ops| - 1], ops[|ops| - 1];
      RunIsItsHistory(before, id);
      StatesMirrorDecisions(before);
      if op.DoRelease? { QueueIffHistory(before, op.requestId); }
      RunStep(RunOps(before), op, id);
      MayWorkExtends(before, op, id);
      assert before + [op] == ops;
    }
  }

  /** Run `id` carries the request and the decision of the operation that entered it. */
  lemma {:induction false} EnteredRun(ops: seq<EngineOp>, j: nat, id: nat)
    requires EnteredBy(ops, j, id)
    ensures id < |RunOps(ops).runs|
    ensures RunOps(ops).runs[id].requestId == ops[j].requestId && RunOps(ops).runs[id].decision == ops[j].d
  {
    var before, op := ops[..|ops| - 1], ops[|ops| - 1];
    RunIsItsHistory(before, id);
    StatesMirrorDecisions(before);
    if op.DoRelease? { QueueIffHistory(before, op.requestId); }
    RunStep(RunOps(before), op, id);
    assert before + [op] == ops;
    EnteredExtends(before, op, j, id);
    if j < |before| {
      EnteredRun(before, j, id);
    }
  }

  /**
   * After any history a tool call succeeds exactly when the run was entered by an Allowed operation and no output was
   * offered to it since; it then adds itself at the end of that run's list and changes nothing else.
   */
  lemma {:induction false} ToolCallIff(ops: seq<EngineOp>, id: nat, call: ToolCall)
    ensures var v := RunOps(ops);
            var (v', refused) := CallTool(v, id, call);
            && refused == (if id >= EntryCount(ops) then Some(NoSuchRun) else if !MayWork(ops, id) then Some(NotExecuting) else None)
            && (refused.Some? ==> v' == v)
            && (refused.None? ==>
                  && id < |v.runs| == |v'.runs| && v'.conditional == v.conditional && v'.review == v.review
                  && v'.runs[id] == v.runs[id].(toolCalls := AcceptedCalls(ops, id) + [call])
                  && forall k | 0 <= k < |v.runs| && k != id :: v'.runs[k] == v.runs[k])
  {
    RunIsItsHistory(ops, id);
    StatesMirrorDecisions(ops);
    assert id < |RunOps(ops).runs| ==> RunOk(RunOps(ops).runs[id]);
  }

  /** An output is accepted on the same terms; it becomes the run's only output and completes the run. */
  lemma {:induction false} OutputIff(ops: seq<EngineOp>, id: nat, output: string)
    ensures var v := RunOps(ops);
            var (v', refused) := AddOutput(v, id, output);
            && refused == (if id >= EntryCount(ops) then Some(NoSuchRun) else if !MayWork(ops, id) then Some(NotExecuting) else None)
            && (refused.Some? ==> v' == v)
            && (refused.None? ==>
                  && id < |v.runs| == |v'.runs| && v'.conditional == v.conditional && v'.review == v.review
                  && v'.runs[id] == v.runs[id].(outputs := [output], state := Completed)
                  && forall k | 0 <= k < |v.runs| && k != id :: v'.runs[k] == v.runs[k])
  {
    RunIsItsHistory(ops, id);
    StatesMirrorDecisions(ops);
    assert id < |RunOps(ops).runs| ==> RunOk(RunOps(ops).runs[id]);
  }

  // ---------- the queues ----------

  /** The latest run held for human review under this ticket. */
  ghost predicate LatestReview(v: EngineView, ticket: string, k: nat) {
    && k < |v.runs| && v.runs[k].decision.state == HumanReview && v.runs[k].decision.ticket == Some(ticket)
    && forall j | k < j < |v.runs| :: !(v.runs[j].decision.state == HumanReview && v.runs[j].decision.ticket == Some(ticket))
  }

  /** The latest run held conditionally for this request. */
  ghost predicate LatestHold(v: EngineView, requestId: string, k: nat) {
    && k < |v.runs| && v.runs[k].decision.state == Conditional && v.runs[k].requestId == requestId
    && forall j | k < j < |v.runs| :: !(v.runs[j].decision.state == Conditional && v.runs[j].requestId == requestId)
  }

  ghost predicate QueuesOk(v: EngineView, ticket: string, requestId: string) {
    && (ticket in v.review <==> exists k: nat :: LatestReview(v, ticket, k))
    && (ticket in v.review ==> LatestReview(v, ticket, v.review[ticket]))
    && (requestId in v.conditional ==> LatestHold(v, requestId, v.conditional[requestId]))
  }

  lemma {:induction false} EnterQueues(v: EngineView, r: string, d: Decision, ticket: string, requestId: string)
    requires QueuesOk(v, ticket, requestId)
    ensures QueuesOk(Enter(v, r, d), ticket, requestId)
  {
    var v', n := Enter(v, r, d), |v.runs|;
    assert v'.runs[n].decision == d && v'.runs[n].requestId == r && forall k | 0 <= k < n :: v'.runs[k] == v.runs[k];
    if d.state == HumanReview && d.ticket == Some(ticket) {
      assert LatestReview(v', ticket, n);
    } else {
      forall k: nat ensures LatestReview(v', ticket, k) <==> LatestReview(v, ticket, k) {
        assert k < n ==> v'.runs[k] == v.runs[k];
      }
    }
  }

  lemma {:induction false} SameQueues(v: EngineView, v': EngineView, ticket: string, requestId: string)
    requires QueuesOk(v, ticket, requestId) && v'.review == v.review && v'.conditional.Items <= v.conditional.Items
    requires |v'.runs| == |v.runs|
    requires forall k | 0 <= k < |v.runs| :: v'.runs[k].requestId == v.runs[k].requestId && v'.runs[k].decision == v.runs[k].decision
    ensures QueuesOk(v', ticket, requestId)
  {
    forall k: nat ensures LatestReview(v', ticket, k) <==> LatestReview(v, ticket, k) {}
    if requestId in v'.conditional {
      assert (requestId, v'.conditional[requestId]) in v'.conditional.Items;
      assert (requestId, v'.conditional[requestId]) in v.conditional.Items;
    }
  }

  /**
   * After any history a ticket is in the review queue exactly when some run was held for human review under it, with the
   * latest such run; and a request in the conditional queue stands there with its latest conditional run.
   */
  lemma {:induction false} QueuesHoldTheLatest(ops: seq<EngineOp>, ticket: string, requestId: string)
    ensures QueuesOk(RunOps(ops), ticket, requestId)
  {
    if ops != [] {
      var before, op := ops[..|ops| - 1], ops[|ops| - 1];
      var v, v' := RunOps(before), RunOps(ops);
      QueuesHoldTheLatest(before, ticket, requestId);
      match op
      case DoSubmit(r, d) => EnterQueues(v, r, d, ticket, requestId);
      case DoTool(_, _) => SameQueues(v, v', ticket, requestId);
      case DoOutput(_, _) => SameQueues(v, v', ticket, requestId);
      case DoRelease(r, d) =>
        if r in v.conditional {
          EnterQueues(v, r, d, ticket, requestId);
          SameQueues(Enter(v, r, d), v', ticket, requestId);
        }
    }
  }

  // ---------- releases and traces ----------

  /** A release after any history: refused without a hold, else a new run, and the hold dropped exactly on Allowed. */
  lemma {:induction false} ReleaseOutcome(ops: seq<EngineOp>, requestId: string, d: Decision)
    ensures var v := RunOps(ops);
            var (v', refused) := Release(v, requestId, d);
            && refused == (if HeldByHistory(ops, requestId) then None else Some(NoHold))
            && (refused.Some? ==> v' == v)
            && (refused.None? ==> |v'.runs| == |v.runs| + 1 && (requestId in v'.conditional <==> d.state != Allowed))
  {
    QueueIffHistory(ops, requestId);
  }

  /** The end of a release when the hold is gone: an error exactly on Allowed, and nothing changes. */
  lemma {:induction false} DropWithoutHold(v: EngineView, requestId: string, d: Decision)
    requires requestId !in v.conditional
    ensures DropHold(v, requestId, d) == (v, if d.state == Allowed then Some(NoHold) else None)
  {
  }

  /** What a submission adds to the trace. */
  lemma {:induction false} SubmissionTrace(chain: ChainHash, traceId: string, events: seq<ExecutionTrace>, requestId: string, action: string, d: Decision,
                        first: Tick, second: Tick)
    ensures var n, t := |events|, Traced(chain, traceId, events, requestId, action, d, first, second);
            && |t| == n + 2 && t[..n] == events
            && t[n].body == Body(traceId, requestId, n, first.wall, first.mono, RequestReceived, "workflow", ActionDetail(action))
            && t[n + 1].body == Body(traceId, requestId, n + 1, second.wall, second.mono, PolicyDecided(d.state), "gateway",
                                     DecisionDetail(d.reason, d.sequence))
  {
  }

  /** What a release adds. */
  lemma {:induction false} ReleaseTrace(chain: ChainHash, traceId: string, events: seq<ExecutionTrace>, requestId: string, action: string, d: Decision,
                     first: Tick, second: Tick, third: Tick)
    ensures var n, t := |events|, ReleaseTraced(chain, traceId, events, requestId, action, d, first, second, third);
            && |t| == n + 3 && t[..n + 2] == Traced(chain, traceId, events, requestId, action, d, first, second)
            && t[n + 2].body == Body(traceId, requestId, n + 2, third.wall, third.mono, HoldReleased, "workflow", NoDetail)
  {
    SubmissionTrace(chain, traceId, events, requestId, action, d, first, second);
  }
}
