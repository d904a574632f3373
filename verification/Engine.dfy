/** The workflow engine: runs, holding queues, and the events it traces. */
module Engine {
  import opened Wrappers
  import opened Gateway
  import opened Trace

  datatype RunState = Pending | Executing | HeldConditional | HeldReview | Completed | Rejected

  datatype ToolCall = ToolCall(tool: string, arguments: string)

  datatype EngineError = NoSuchRun | NotExecuting | NotAllowed | NoHold

  // ---------- the engine as a value: one function per locked region ----------

  datatype RunView = RunView(
    requestId: string, state: RunState, decision: Decision, toolCalls: seq<ToolCall>, outputs: seq<string>)

  /** Run ids are fresh; here a run's id is its position. */
  datatype EngineView = EngineView(runs: seq<RunView>, conditional: map<string, nat>, review: map<string, nat>)

  const EmptyEngine := EngineView([], map[], map[])

  function StateFor(s: PolicyState): RunState {
    match s
    case Allowed => Executing
    case Conditional => HeldConditional
    case HumanReview => HeldReview
    case Blocked => Rejected
  }

  /** Registers a decided run and parks it in a queue when it is held. */
  function Enter(v: EngineView, requestId: string, d: Decision): EngineView {
    var id := |v.runs|;
    EngineView(
      v.runs + [RunView(requestId, StateFor(d.state), d, [], [])],
      if d.state == Conditional then v.conditional[requestId := id] else v.conditional,
      if d.state == HumanReview && d.ticket.Some? then v.review[d.ticket.value := id] else v.review)
  }

  function CheckExecuting(v: EngineView, runId: nat): Option<EngineError> {
    if runId >= |v.runs| then Some(NoSuchRun)
    else if v.runs[runId].state != Executing then Some(NotExecuting)
    else None
  }

  function CallTool(v: EngineView, runId: nat, call: ToolCall): (EngineView, Option<EngineError>) {
    match CheckExecuting(v, runId)
    case Some(e) => (v, Some(e))
    case None =>
      var run := v.runs[runId];
      if run.decision.state != Allowed then (v, Some(NotAllowed))
      else (v.(runs := v.runs[runId := run.(toolCalls := run.toolCalls + [call])]), None)
  }

  function AddOutput(v: EngineView, runId: nat, output: string): (EngineView, Option<EngineError>) {
    match CheckExecuting(v, runId)
    case Some(e) => (v, Some(e))
    case None =>
      var run := v.runs[runId];
      (v.(runs := v.runs[runId := run.(outputs := run.outputs + [output], state := Completed)]), None)
  }

  /** The last region of a release: an Allowed decision drops the hold; dropping it twice is a key error. */
  function DropHold(v: EngineView, requestId: string, d: Decision): (EngineView, Option<EngineError>) {
    if d.state != Allowed then (v, None)
    else if requestId !in v.conditional then (v, Some(NoHold))
    else (v.(conditional := v.conditional - {requestId}), None)
  }

  function Release(v: EngineView, requestId: string, d: Decision): (EngineView, Option<EngineError>) {
    if requestId !in v.conditional then (v, Some(NoHold)) else DropHold(Enter(v, requestId, d), requestId, d)
  }

  /** The two clocks as one append reads them. */
  datatype Tick = Tick(wall: string, mono: nat)

  /** The trace after a submission: the request, then its decision. */
  function Traced(chain: ChainHash, traceId: string, events: seq<ExecutionTrace>, requestId: string, action: string, d: Decision,
                  first: Tick, second: Tick): seq<ExecutionTrace>
  {
    var received := events + [NextRecord(chain, traceId, events, requestId, RequestReceived, "workflow", ActionDetail(action),
                                         first.wall, first.mono)];
    received + [NextRecord(chain, traceId, received, requestId, PolicyDecided(d.state), "gateway",
                           DecisionDetail(d.reason, d.sequence), second.wall, second.mono)]
  }

  /** The trace after a release: a submission, then the release itself. */
  function ReleaseTraced(chain: ChainHash, traceId: string, events: seq<ExecutionTrace>, requestId: string, action: string,
                         d: Decision, first: Tick, second: Tick, third: Tick): seq<ExecutionTrace>
  {
    var submitted := Traced(chain, traceId, events, requestId, action, d, first, second);
    submitted + [NextRecord(chain, traceId, submitted, requestId, HoldReleased, "workflow", NoDetail, third.wall, third.mono)]
  }

  class WorkflowRun {
    const runId: nat
    const requestId: string
    const decision: Decision
    var state: RunState
    var toolCalls: seq<ToolCall>
    var outputs: seq<string>

    constructor (runId: nat, requestId: string, decision: Decision)
      ensures this.runId == runId && View() == RunView(requestId, Pending, decision, [], [])
    {
      this.runId, this.requestId, this.decision := runId, requestId, decision;
      state, toolCalls, outputs := Pending, [], [];
    }

    ghost function View(): RunView
      reads this
    {
      RunView(requestId, state, decision, toolCalls, outputs)
    }
  }

  ghost function RunViews(runs: seq<WorkflowRun>): (views: seq<RunView>)
    reads runs
    ensures |views| == |runs| && forall i | 0 <= i < |runs| :: views[i] == runs[i].View()
  {
    seq(|runs|, i requires 0 <= i < |runs| reads runs => runs[i].View())
  }

  lemma {:induction false} RunViewsAppend(runs: seq<WorkflowRun>, run: WorkflowRun)
    ensures RunViews(runs + [run]) == RunViews(runs) + [run.View()]
  {
    assert forall i | 0 <= i < |runs| :: (runs + [run])[i] == runs[i];
  }

  ghost function Ids(queue: map<string, WorkflowRun>): (ids: map<string, nat>)
    ensures ids.Keys == queue.Keys && forall k | k in queue :: ids[k] == queue[k].runId
  {
    map k | k in queue :: queue[k].runId
  }

  lemma {:induction false} IdsInsert(queue: map<string, WorkflowRun>, key: string, run: WorkflowRun)
    ensures Ids(queue[key := run]) == Ids(queue)[key := run.runId]
  {
  }

  class WorkflowEngine {
    const gateway: PolicyGateway
    const recorder: TraceRecorder
    var runs: seq<WorkflowRun>
    var conditionalQueue: map<string, WorkflowRun>
    var reviewQueue: map<string, WorkflowRun>

    ghost predicate Valid()
      reads this, gateway
    {
      && gateway.Valid()
      && (forall i | 0 <= i < |runs| :: runs[i].runId == i)
    }

    ghost function View(): EngineView
      reads this, runs
    {
      EngineView(RunViews(runs), Ids(conditionalQueue), Ids(reviewQueue))
    }

    constructor (gateway: PolicyGateway, recorder: TraceRecorder)
      requires gateway.Valid()
      ensures Valid() && View() == EmptyEngine && runs == [] && this.gateway == gateway && this.recorder == recorder
    {
      this.gateway, this.recorder := gateway, recorder;
      runs, conditionalQueue, reviewQueue := [], map[], map[];
    }

    /** Evaluates, traces the request and the decision, then registers the run. */
    method Submit(req: Request, now: int, ticket: string, first: Tick, second: Tick) returns (run: WorkflowRun)
      requires Valid()
      modifies this`runs, this`conditionalQueue, this`reviewQueue
      modifies recorder, gateway`counter, gateway.tokens`usedNonces
      ensures Valid() && fresh(run) && runs == old(runs) + [run]
      ensures Evaluated(req, now, ticket, old(gateway.tokens.usedNonces), old(gateway.counter), run.decision)
      ensures View() == Enter(old(View()), req.requestId, run.decision)
      ensures recorder.events ==
                Traced(recorder.chain, recorder.traceId, old(recorder.events), req.requestId, req.action, run.decision, first, second)
    {
      var decision := EvaluateAndTrace(req, now, ticket, first, second);
      run := RegisterRun(req.requestId, decision);
    }

    /** The gateway's answer, and what it did to the shared nonces and counter. */
    ghost predicate Evaluated(req: Request, now: int, ticket: string, used: set<string>, counter: nat, d: Decision)
      reads gateway, gateway.store, gateway.tokens
    {
      var (v, burned) := Judge(gateway.env, gateway.store.assets, used, req, now);
      && (d, gateway.counter) == Conclude(gateway.env, v, req, now, ticket, counter)
      && gateway.tokens.usedNonces == used + NonceSet(burned)
    }

    method EvaluateAndTrace(req: Request, now: int, ticket: string, first: Tick, second: Tick) returns (d: Decision)
      requires gateway.Valid()
      modifies recorder, gateway`counter, gateway.tokens`usedNonces
      ensures Evaluated(req, now, ticket, old(gateway.tokens.usedNonces), old(gateway.counter), d)
      ensures recorder.events ==
                Traced(recorder.chain, recorder.traceId, old(recorder.events), req.requestId, req.action, d, first, second)
    {
      d := gateway.Evaluate(req, now, ticket);
      var received := recorder.Append(req.requestId, RequestReceived, "workflow", ActionDetail(req.action), first.wall, first.mono);
      var decided := recorder.Append(req.requestId, PolicyDecided(d.state), "gateway",
                                     DecisionDetail(d.reason, d.sequence), second.wall, second.mono);
    }

    /** The locked region that ends a submission. */
    method RegisterRun(requestId: string, d: Decision) returns (run: WorkflowRun)
      requires Valid()
      modifies this`runs, this`conditionalQueue, this`reviewQueue
      ensures Valid() && fresh(run) && runs == old(runs) + [run] && run.decision == d
      ensures View() == Enter(old(View()), requestId, d)
    {
      run := AddRun(requestId, d);
      Park(run);
    }

    method AddRun(requestId: string, d: Decision) returns (run: WorkflowRun)
      requires Valid()
      modifies this`runs
      ensures Valid() && fresh(run) && runs == old(runs) + [run]
      ensures run.requestId == requestId && run.decision == d && run.runId == |old(runs)|
      ensures RunViews(runs) == old(RunViews(runs)) + [RunView(requestId, StateFor(d.state), d, [], [])]
    {
      ghost var before := RunViews(runs);
      run := new WorkflowRun(|runs|, requestId, d);
      run.state := StateFor(d.state);
      assert RunViews(runs) == before;
      assert run.View() == RunView(requestId, StateFor(d.state), d, [], []);
      RunViewsAppend(runs, run);
      runs := runs + [run];
      assert RunViews(runs) == before + [RunView(requestId, StateFor(d.state), d, [], [])];
    }

    /** Holds a Conditional run under its request and a Human Review run under its ticket. */
    method Park(run: WorkflowRun)
      requires Valid()
      modifies this`conditionalQueue, this`reviewQueue
      ensures Valid()
      ensures var d := run.decision;
              && Ids(conditionalQueue) == (if d.state == Conditional then Ids(old(conditionalQueue))[run.requestId := run.runId]
                                           else Ids(old(conditionalQueue)))
              && Ids(reviewQueue) == (if d.state == HumanReview && d.ticket.Some? then Ids(old(reviewQueue))[d.ticket.value := run.runId]
                                      else Ids(old(reviewQueue)))
    {
      if run.decision.state == Conditional {
        IdsInsert(conditionalQueue, run.requestId, run);
        conditionalQueue := conditionalQueue[run.requestId := run];
      } else if run.decision.state == HumanReview && run.decision.ticket.Some? {
        IdsInsert(reviewQueue, run.decision.ticket.value, run);
        reviewQueue := reviewQueue[run.decision.ticket.value := run];
      }
    }

    method RecordToolCall(runId: nat, call: ToolCall, tick: Tick) returns (refused: Option<EngineError>)
      requires Valid()
      modifies runs, recorder
      ensures Valid()
      ensures (View(), refused) == CallTool(old(View()), runId, call)
      ensures recorder.events == old(recorder.events) + if refused.Some? then [] else
                [NextRecord(recorder.chain, recorder.traceId, old(recorder.events), old(View()).runs[runId].requestId, ToolCalled,
                            "agent", ToolDetail(call.tool), tick.wall, tick.mono)]
    {
      if runId >= |runs| { return Some(NoSuchRun); }
      var run := runs[runId];
      if run.state != Executing { return Some(NotExecuting); }
      if run.decision.state != Allowed { return Some(NotAllowed); }
      run.toolCalls := run.toolCalls + [call];
      var traced := recorder.Append(run.requestId, ToolCalled, "agent", ToolDetail(call.tool), tick.wall, tick.mono);
      assert View().runs == CallTool(old(View()), runId, call).0.runs;
      return None;
    }

    method RecordOutput(runId: nat, output: string, tick: Tick) returns (refused: Option<EngineError>)
      requires Valid()
      modifies runs, recorder
      ensures Valid()
      ensures (View(), refused) == AddOutput(old(View()), runId, output)
      ensures recorder.events == old(recorder.events) + if refused.Some? then [] else
                [NextRecord(recorder.chain, recorder.traceId, old(recorder.events), old(View()).runs[runId].requestId, RunCompleted,
                            "workflow", NoDetail, tick.wall, tick.mono)]
    {
      if runId >= |runs| { return Some(NoSuchRun); }
      var run := runs[runId];
      if run.state != Executing { return Some(NotExecuting); }
      run.outputs := run.outputs + [output];
      run.state := Completed;
      var traced := recorder.Append(run.requestId, RunCompleted, "workflow", NoDetail, tick.wall, tick.mono);
      assert View().runs == AddOutput(old(View()), runId, output).0.runs;
      return None;
    }

    /** Re-evaluates a held request; traces a release whether or not the hold was dropped. */
    method ReleaseConditional(req: Request, now: int, ticket: string, first: Tick, second: Tick, third: Tick)
      returns (r: Result<WorkflowRun, EngineError>)
      requires Valid()
      modifies this`runs, this`conditionalQueue, this`reviewQueue
      modifies recorder, gateway`counter, gateway.tokens`usedNonces
      ensures Valid()
      ensures r.Ok? <==> req.requestId in old(View()).conditional
      ensures r.Err? ==> r.error == NoHold && View() == old(View()) && recorder.events == old(recorder.events)
      ensures r.Ok? ==> Evaluated(req, now, ticket, old(gateway.tokens.usedNonces), old(gateway.counter), r.value.decision)
      ensures r.Ok? ==> (View(), None) == Release(old(View()), req.requestId, r.value.decision)
      ensures r.Ok? ==> (recorder.events == ReleaseTraced(
        recorder.chain, recorder.traceId, old(recorder.events), req.requestId, req.action, r.value.decision, first, second, third))
    {
      if req.requestId !in conditionalQueue { return Err(NoHold); }
      var run := Submit(req, now, ticket, first, second);
      var failed := FinishRelease(req.requestId, run.decision, third);
      assert failed.None?;
      return Ok(run);
    }

    /** Ends a release; the trace is written only when the hold was still there to drop, or was not to be dropped. */
    method FinishRelease(requestId: string, d: Decision, tick: Tick) returns (failed: Option<EngineError>)
      requires Valid()
      modifies this`conditionalQueue, recorder
      ensures Valid()
      ensures (View(), failed) == DropHold(old(View()), requestId, d)
      ensures recorder.events == old(recorder.events) + if failed.Some? then [] else
                [NextRecord(recorder.chain, recorder.traceId, old(recorder.events), requestId, HoldReleased, "workflow", NoDetail,
                            tick.wall, tick.mono)]
    {
      failed := DropRunHold(requestId, d);
      if failed.None? {
        var traced := recorder.Append(requestId, HoldReleased, "workflow", NoDetail, tick.wall, tick.mono);
      }
    }

    /** The locked region that ends a release: dropping a hold that somebody else dropped meanwhile is a key error. */
    method DropRunHold(requestId: string, d: Decision) returns (failed: Option<EngineError>)
      requires Valid()
      modifies this`conditionalQueue
      ensures Valid()
      ensures (View(), failed) == DropHold(old(View()), requestId, d)
    {
      if d.state == Allowed {
        if requestId !in conditionalQueue { return Some(NoHold); }
        conditionalQueue := conditionalQueue - {requestId};
        assert Ids(conditionalQueue) == old(View()).conditional - {requestId};
      }
      return None;
    }
  }

  // ---------- the state machine over every sequential run ----------

  datatype EngineOp =
    | DoSubmit(requestId: string, d: Decision)
    | DoTool(runId: nat, call: ToolCall)
    | DoOutput(runId: nat, output: string)
    | DoRelease(requestId: string, d: Decision)

  function Apply(v: EngineView, op: EngineOp): EngineView {
    match op
    case DoSubmit(r, d) => Enter(v, r, d)
    case DoTool(id, call) => CallTool(v, id, call).0
    case DoOutput(id, out) => AddOutput(v, id, out).0
    case DoRelease(r, d) => Release(v, r, d).0
  }

  function RunOps(ops: seq<EngineOp>): EngineView {
    if ops == [] then EmptyEngine else Apply(RunOps(ops[..|ops| - 1]), ops[|ops| - 1])
  }

  /** A run's state mirrors its decision; only Allowed runs call tools; a completed run has exactly one output. */
  ghost predicate RunOk(r: RunView) {
    && (r.state == Executing || r.state == Completed <==> r.decision.state == Allowed)
    && (r.state == HeldConditional <==> r.decision.state == Conditional)
    && (r.state == HeldReview <==> r.decision.state == HumanReview)
    && (r.state == Rejected <==> r.decision.state == Blocked)
    && (r.toolCalls != [] ==> r.decision.state == Allowed)
    && |r.outputs| == (if r.state == Completed then 1 else 0)
  }

  ghost predicate RunsOk(v: EngineView) {
    forall k | 0 <= k < |v.runs| :: RunOk(v.runs[k])
  }

  lemma {:induction false} StepRunsOk(v: EngineView, op: EngineOp)
    requires RunsOk(v)
    ensures RunsOk(Apply(v, op))
  {
  }

  lemma {:induction false} StatesMirrorDecisions(ops: seq<EngineOp>)
    ensures RunsOk(RunOps(ops))
  {
    if ops != [] {
      StatesMirrorDecisions(ops[..|ops| - 1]);
      StepRunsOk(RunOps(ops[..|ops| - 1]), ops[|ops| - 1]);
    }
  }

  ghost predicate DropsHold(op: EngineOp, requestId: string) {
    op.DoRelease? && op.requestId == requestId && op.d.state == Allowed
  }

  /** The latest of the request's Conditional submissions and Allowed releases is a submission. */
  ghost predicate HeldByHistory(ops: seq<EngineOp>, requestId: string) {
    exists i | 0 <= i < |ops| ::
      && ops[i].DoSubmit? && ops[i].requestId == requestId && ops[i].d.state == Conditional
      && forall j | i < j < |ops| :: !DropsHold(ops[j], requestId)
  }

  lemma {:induction false} HeldExtends(ops: seq<EngineOp>, op: EngineOp, requestId: string)
    ensures var submits := op.DoSubmit? && op.requestId == requestId && op.d.state == Conditional;
            HeldByHistory(ops + [op], requestId) <==> submits || (HeldByHistory(ops, requestId) && !DropsHold(op, requestId))
  {
    var more := ops + [op];
    assert more[|ops|] == op && forall j | 0 <= j < |ops| :: more[j] == ops[j];
    if op.DoSubmit? && op.requestId == requestId && op.d.state == Conditional {
      assert HeldByHistory(more, requestId);
    } else if HeldByHistory(more, requestId) {
      var i :| 0 <= i < |more| && more[i].DoSubmit? && more[i].requestId == requestId && more[i].d.state == Conditional
               && forall j | i < j < |more| :: !DropsHold(more[j], requestId);
      assert !DropsHold(more[|ops|], requestId);
      assert ops[i] == more[i] && forall j | i < j < |ops| :: !DropsHold(ops[j], requestId);
    }
    if HeldByHistory(ops, requestId) && !DropsHold(op, requestId) {
      var i :| 0 <= i < |ops| && ops[i].DoSubmit? && ops[i].requestId == requestId && ops[i].d.state == Conditional
               && forall j | i < j < |ops| :: !DropsHold(ops[j], requestId);
      assert more[i] == ops[i] && forall j | i < j < |more| :: !DropsHold(more[j], requestId);
    }
  }

  /** A request is in the conditional queue exactly when its history says so, and its entry is a held run of its own. */
  lemma {:induction false} QueueIffHistory(ops: seq<EngineOp>, requestId: string)
    ensures var v := RunOps(ops);
            && (requestId in v.conditional <==> HeldByHistory(ops, requestId))
            && (requestId in v.conditional ==>
                  && v.conditional[requestId] < |v.runs|
                  && v.runs[v.conditional[requestId]].requestId == requestId
                  && v.runs[v.conditional[requestId]].state == HeldConditional)
  {
    if ops != [] {
      var before, op := ops[..|ops| - 1], ops[|ops| - 1];
      assert ops == before + [op];
      QueueIffHistory(before, requestId);
      HeldExtends(before, op, requestId);
    }
  }
}
