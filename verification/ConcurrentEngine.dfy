/**
 * Submissions, tool calls, outputs and releases interleaving, one step per lock-protected region: the engine's locked
 * blocks and the recorder's appends are separate atomic steps, so events of different operations mix freely.
 */
module ConcurrentEngine {
  import opened Wrappers
  import opened Sequences
  import opened Gateway
  import opened Trace
  import opened Engine

  datatype SubmitStage = CheckingHold | Receiving | Deciding | Registering | Dropping | TracingRelease | SubmitDone | SubmitFailed

  datatype WorkStage = Working | Tracing(requestId: string) | WorkDone | WorkRefused

  /** An operation in flight; a submission carries the gateway's decision, whatever it was. */
  datatype Op =
    | Submission(requestId: string, action: string, d: Decision, releasing: bool, stage: SubmitStage)
    | WorkOp(runId: nat, job: Job, work: WorkStage)

  datatype Job = CallJob(call: ToolCall) | OutputJob(output: string)

  datatype Sys = Sys(events: seq<ExecutionTrace>, view: EngineView, ops: seq<Op>)

  datatype Action =
    | BeginSubmit(requestId: string, action: string, d: Decision)
    | BeginRelease(requestId: string, action: string, d: Decision)
    | BeginWork(runId: nat, job: Job)
    | Advance(k: nat, wall: string, elapsed: nat)

  datatype Env = Env(chain: ChainHash, traceId: string)

  const Fresh := Sys([], EmptyEngine, [])

  /** One append under the recorder's lock; the monotonic clock has moved by `elapsed`. */
  function Append(env: Env, s: Sys, requestId: string, event: EventName, actor: string, detail: Detail, wall: string, elapsed: nat): Sys {
    s.(events := Recorded(env.chain, env.traceId, s.events, Entry(requestId, event, actor, detail, wall, elapsed)))
  }

  function AdvanceSubmission(env: Env, s: Sys, op: Op, wall: string, elapsed: nat): (Sys, Op)
    requires op.Submission?
  {
    match op.stage
    case CheckingHold =>
      (s, op.(stage := if op.requestId in s.view.conditional then Receiving else SubmitFailed))
    case Receiving =>
      (Append(env, s, op.requestId, RequestReceived, "workflow", ActionDetail(op.action), wall, elapsed), op.(stage := Deciding))
    case Deciding =>
      (Append(env, s, op.requestId, PolicyDecided(op.d.state), "gateway", DecisionDetail(op.d.reason, op.d.sequence), wall, elapsed),
       op.(stage := Registering))
    case Registering =>
      (s.(view := Enter(s.view, op.requestId, op.d)), op.(stage := if op.releasing then Dropping else SubmitDone))
    case Dropping =>
      var (view, failed) := DropHold(s.view, op.requestId, op.d);
      (s.(view := view), op.(stage := if failed.Some? then SubmitFailed else TracingRelease))
    case TracingRelease =>
      (Append(env, s, op.requestId, HoldReleased, "workflow", NoDetail, wall, elapsed), op.(stage := SubmitDone))
    case SubmitDone => (s, op)
    case SubmitFailed => (s, op)
  }

  function DoJob(v: EngineView, runId: nat, job: Job): (EngineView, Option<EngineError>) {
    match job
    case CallJob(call) => CallTool(v, runId, call)
    case OutputJob(output) => AddOutput(v, runId, output)
  }

  function AppendJob(env: Env, s: Sys, requestId: string, job: Job, wall: string, elapsed: nat): Sys {
    match job
    case CallJob(call) => Append(env, s, requestId, ToolCalled, "agent", ToolDetail(call.tool), wall, elapsed)
    case OutputJob(_) => Append(env, s, requestId, RunCompleted, "workflow", NoDetail, wall, elapsed)
  }

  function AdvanceWork(env: Env, s: Sys, op: Op, wall: string, elapsed: nat): (Sys, Op)
    requires op.WorkOp?
  {
    match op.work
    case Working =>
      var (view, refused) := DoJob(s.view, op.runId, op.job);
      (s.(view := view),
       op.(work := if refused.Some? || op.runId >= |s.view.runs| then WorkRefused else Tracing(s.view.runs[op.runId].requestId)))
    case Tracing(r) => (AppendJob(env, s, r, op.job, wall, elapsed), op.(work := WorkDone))
    case WorkDone => (s, op)
    case WorkRefused => (s, op)
  }

  function AdvanceOp(env: Env, s: Sys, op: Op, wall: string, elapsed: nat): (Sys, Op) {
    match op
    case Submission(_, _, _, _, _) => AdvanceSubmission(env, s, op, wall, elapsed)
    case WorkOp(_, _, _) => AdvanceWork(env, s, op, wall, elapsed)
  }

  function Step(env: Env, s: Sys, a: Action): Sys {
    match a
    case BeginSubmit(r, act, d) => s.(ops := s.ops + [Submission(r, act, d, false, Receiving)])
    case BeginRelease(r, act, d) => s.(ops := s.ops + [Submission(r, act, d, true, CheckingHold)])
    case BeginWork(id, job) => s.(ops := s.ops + [WorkOp(id, job, Working)])
    case Advance(k, wall, elapsed) =>
      if k >= |s.ops| then s
      else var (s', op) := AdvanceOp(env, s, s.ops[k], wall, elapsed); s'.(ops := s.ops[k := op])
  }

  /** Every interleaving is a sequence of actions. */
  function Exec(env: Env, actions: seq<Action>): Sys {
    if actions == [] then Fresh else Step(env, Exec(env, actions[..|actions| - 1]), actions[|actions| - 1])
  }

  // ---------- what is counted, for one request or for all ----------

  /** `None` selects every request. */
  type Selector = Option<string>

  predicate Selects(sel: Selector, requestId: string) {
    sel.None? || sel.value == requestId
  }

  function Ind(b: bool): int { if b then 1 else 0 }

  function TracedOf(name: EventName, sel: Selector): ExecutionTrace -> int {
    (e: ExecutionTrace) => Ind(e.body.event == name && Selects(sel, e.body.requestId))
  }

  function CallsOf(sel: Selector): RunView -> int {
    (r: RunView) => if Selects(sel, r.requestId) then |r.toolCalls| else 0
  }

  function CompletedOf(sel: Selector): RunView -> int {
    (r: RunView) => Ind(r.state == Completed && Selects(sel, r.requestId))
  }

  function AllowedOf(sel: Selector): RunView -> int {
    (r: RunView) => Ind(r.decision.state == Allowed && Selects(sel, r.requestId))
  }

  /** Operations between recording a tool call and tracing it. */
  function ToolPending(sel: Selector): Op -> int {
    (op: Op) => Ind(op.WorkOp? && op.job.CallJob? && op.work.Tracing? && Selects(sel, op.work.requestId))
  }

  function OutputPending(sel: Selector): Op -> int {
    (op: Op) => Ind(op.WorkOp? && op.job.OutputJob? && op.work.Tracing? && Selects(sel, op.work.requestId))
  }

  /** Allowed submissions between tracing the decision and registering the run. */
  function AllowedPending(sel: Selector): Op -> int {
    (op: Op) => Ind(op.Submission? && op.stage == Registering && op.d.state == Allowed && Selects(sel, op.requestId))
  }

  ghost predicate Balanced(s: Sys, sel: Selector) {
    && SumOf(TracedOf(ToolCalled, sel), s.events) + SumOf(ToolPending(sel), s.ops) == SumOf(CallsOf(sel), s.view.runs)
    && SumOf(TracedOf(RunCompleted, sel), s.events) + SumOf(OutputPending(sel), s.ops) == SumOf(CompletedOf(sel), s.view.runs)
    && SumOf(TracedOf(PolicyDecided(Allowed), sel), s.events) == SumOf(AllowedOf(sel), s.view.runs) + SumOf(AllowedPending(sel), s.ops)
  }

  /** An operation waiting to trace its work names a request that has an Allowed run. */
  ghost predicate AllowedRunFor(v: EngineView, requestId: string) {
    exists k | 0 <= k < |v.runs| :: v.runs[k].requestId == requestId && v.runs[k].decision.state == Allowed
  }

  ghost predicate OpOk(v: EngineView, op: Op) {
    op.WorkOp? && op.work.Tracing? ==> AllowedRunFor(v, op.work.requestId)
  }

  ghost predicate SysOk(env: Env, s: Sys) {
    && RunsOk(s.view)
    && (forall sel :: Balanced(s, sel))
    && (forall k | 0 <= k < |s.ops| :: OpOk(s.view, s.ops[k]))
    && ChainOk(env.chain, s.events)
  }

  // ---------- one step keeps the balance ----------

  lemma {:induction false} BeginKeeps(env: Env, s: Sys, op: Op)
    requires SysOk(env, s)
    requires if op.Submission? then op.stage != Registering else op.work == Working
    ensures SysOk(env, s.(ops := s.ops + [op]))
  {
    var s' := s.(ops := s.ops + [op]);
    forall sel ensures Balanced(s', sel) {
      assert Balanced(s, sel);
      SumOfAppend(ToolPending(sel), s.ops, op);
      SumOfAppend(OutputPending(sel), s.ops, op);
      SumOfAppend(AllowedPending(sel), s.ops, op);
    }
  }

  /** How far one operation's change moves the three pending counts. */
  lemma {:induction false} PendingUpdate(s: Sys, k: nat, op: Op, sel: Selector)
    requires k < |s.ops|
    ensures SumOf(ToolPending(sel), s.ops[k := op])
         == SumOf(ToolPending(sel), s.ops) - ToolPending(sel)(s.ops[k]) + ToolPending(sel)(op)
    ensures SumOf(OutputPending(sel), s.ops[k := op])
         == SumOf(OutputPending(sel), s.ops) - OutputPending(sel)(s.ops[k]) + OutputPending(sel)(op)
    ensures SumOf(AllowedPending(sel), s.ops[k := op])
         == SumOf(AllowedPending(sel), s.ops) - AllowedPending(sel)(s.ops[k]) + AllowedPending(sel)(op)
  {
    SumOfUpdate(ToolPending(sel), s.ops, k, op);
    SumOfUpdate(OutputPending(sel), s.ops, k, op);
    SumOfUpdate(AllowedPending(sel), s.ops, k, op);
  }

  lemma {:induction false} EventsAppend(events: seq<ExecutionTrace>, e: ExecutionTrace, name: EventName, sel: Selector)
    ensures SumOf(TracedOf(name, sel), events + [e])
         == SumOf(TracedOf(name, sel), events) + Ind(e.body.event == name && Selects(sel, e.body.requestId))
  {
    SumOfAppend(TracedOf(name, sel), events, e);
  }

  /** A step that appends one event and moves one operation, leaving the runs alone. */
  lemma {:induction false} AppendBalanced(s: Sys, k: nat, op: Op, e: ExecutionTrace, sel: Selector)
    requires k < |s.ops| && Balanced(s, sel)
    requires ToolPending(sel)(s.ops[k]) - ToolPending(sel)(op) == TracedOf(ToolCalled, sel)(e)
    requires OutputPending(sel)(s.ops[k]) - OutputPending(sel)(op) == TracedOf(RunCompleted, sel)(e)
    requires AllowedPending(sel)(op) - AllowedPending(sel)(s.ops[k]) == TracedOf(PolicyDecided(Allowed), sel)(e)
    ensures Balanced(Sys(s.events + [e], s.view, s.ops[k := op]), sel)
  {
    PendingUpdate(s, k, op, sel);
    EventsAppend(s.events, e, ToolCalled, sel);
    EventsAppend(s.events, e, RunCompleted, sel);
    EventsAppend(s.events, e, PolicyDecided(Allowed), sel);
  }

  /** A step that changes one run and moves one operation, leaving the trace alone. */
  lemma {:induction false} RunBalanced(s: Sys, k: nat, op: Op, id: nat, run: RunView, sel: Selector)
    requires k < |s.ops| && id < |s.view.runs| && Balanced(s, sel)
    requires CallsOf(sel)(run) - CallsOf(sel)(s.view.runs[id]) == ToolPending(sel)(op) - ToolPending(sel)(s.ops[k])
    requires CompletedOf(sel)(run) - CompletedOf(sel)(s.view.runs[id]) == OutputPending(sel)(op) - OutputPending(sel)(s.ops[k])
    requires AllowedOf(sel)(run) == AllowedOf(sel)(s.view.runs[id]) && AllowedPending(sel)(op) == AllowedPending(sel)(s.ops[k])
    ensures Balanced(Sys(s.events, s.view.(runs := s.view.runs[id := run]), s.ops[k := op]), sel)
  {
    PendingUpdate(s, k, op, sel);
    SumOfUpdate(CallsOf(sel), s.view.runs, id, run);
    SumOfUpdate(CompletedOf(sel), s.view.runs, id, run);
    SumOfUpdate(AllowedOf(sel), s.view.runs, id, run);
  }

  /** Registering a decided run. */
  lemma {:induction false} EnterBalanced(s: Sys, k: nat, op: Op, sel: Selector)
    requires k < |s.ops| && Balanced(s, sel)
    requires s.ops[k].Submission? && s.ops[k].stage == Registering
    requires op.Submission? && op == s.ops[k].(stage := op.stage) && op.stage != Registering
    ensures Balanced(Sys(s.events, Enter(s.view, op.requestId, op.d), s.ops[k := op]), sel)
  {
    var run := RunView(op.requestId, StateFor(op.d.state), op.d, [], []);
    PendingUpdate(s, k, op, sel);
    SumOfAppend(CallsOf(sel), s.view.runs, run);
    SumOfAppend(CompletedOf(sel), s.view.runs, run);
    SumOfAppend(AllowedOf(sel), s.view.runs, run);
  }

  /** Moving one operation between uncounted stages, or touching only the queues. */
  lemma {:induction false} MoveBalanced(s: Sys, k: nat, op: Op, view: EngineView, sel: Selector)
    requires k < |s.ops| && Balanced(s, sel) && view.runs == s.view.runs
    requires ToolPending(sel)(op) == ToolPending(sel)(s.ops[k])
    requires OutputPending(sel)(op) == OutputPending(sel)(s.ops[k])
    requires AllowedPending(sel)(op) == AllowedPending(sel)(s.ops[k])
    ensures Balanced(Sys(s.events, view, s.ops[k := op]), sel)
  {
    PendingUpdate(s, k, op, sel);
  }

  lemma {:induction false} SubmissionBalanced(env: Env, s: Sys, k: nat, wall: string, elapsed: nat, sel: Selector)
    requires k < |s.ops| && s.ops[k].Submission? && Balanced(s, sel)
    ensures var (s', op) := AdvanceSubmission(env, s, s.ops[k], wall, elapsed);
            Balanced(s'.(ops := s.ops[k := op]), sel)
  {
    var stage := s.ops[k].stage;
    var (s', op) := AdvanceSubmission(env, s, s.ops[k], wall, elapsed);
    if stage == Registering {
      EnterBalanced(s, k, op, sel);
    } else if stage == Receiving || stage == Deciding || stage == TracingRelease {
      AppendBalanced(s, k, op, s'.events[|s.events|], sel);
    } else {
      MoveBalanced(s, k, op, s'.view, sel);
    }
  }

  lemma {:induction false} JobBalanced(s: Sys, k: nat, op: Op, sel: Selector)
    requires k < |s.ops| && s.ops[k].WorkOp? && s.ops[k].work == Working && Balanced(s, sel) && RunsOk(s.view)
    requires DoJob(s.view, s.ops[k].runId, s.ops[k].job).1.None? && s.ops[k].runId < |s.view.runs|
    requires op == s.ops[k].(work := Tracing(s.view.runs[s.ops[k].runId].requestId))
    ensures Balanced(Sys(s.events, DoJob(s.view, op.runId, op.job).0, s.ops[k := op]), sel)
  {
    var run := DoJob(s.view, op.runId, op.job).0.runs[op.runId];
    assert RunOk(s.view.runs[op.runId]);
    RunBalanced(s, k, op, op.runId, run, sel);
  }

  lemma {:induction false} WorkBalanced(env: Env, s: Sys, k: nat, wall: string, elapsed: nat, sel: Selector)
    requires k < |s.ops| && s.ops[k].WorkOp? && Balanced(s, sel) && RunsOk(s.view)
    ensures var (s', op) := AdvanceWork(env, s, s.ops[k], wall, elapsed);
            Balanced(s'.(ops := s.ops[k := op]), sel)
  {
    var (s', op) := AdvanceWork(env, s, s.ops[k], wall, elapsed);
    if s.ops[k].work.Tracing? {
      AppendBalanced(s, k, op, s'.events[|s.events|], sel);
    } else if op.work.Tracing? {
      JobBalanced(s, k, op, sel);
    } else {
      MoveBalanced(s, k, op, s'.view, sel);
    }
  }

  lemma {:induction false} AllowedRunStays(env: Env, s: Sys, op: Op, wall: string, elapsed: nat, requestId: string)
    requires RunsOk(s.view) && AllowedRunFor(s.view, requestId)
    ensures AllowedRunFor(AdvanceOp(env, s, op, wall, elapsed).0.view, requestId)
  {
    var k :| 0 <= k < |s.view.runs| && s.view.runs[k].requestId == requestId && s.view.runs[k].decision.state == Allowed;
    var v := AdvanceOp(env, s, op, wall, elapsed).0.view;
    assert v.runs[k].requestId == requestId && v.runs[k].decision.state == Allowed;
  }

  lemma {:induction false} AdvancedChain(env: Env, s: Sys, op: Op, wall: string, elapsed: nat)
    requires ChainOk(env.chain, s.events)
    ensures ChainOk(env.chain, AdvanceOp(env, s, op, wall, elapsed).0.events)
  {
    var (s', _) := AdvanceOp(env, s, op, wall, elapsed);
    if s'.events != s.events {
      var last := s'.events[|s.events|];
      AppendKeepsChain(env.chain, s.events, last);
    }
  }

  lemma {:induction false} AdvancedRunsOk(env: Env, s: Sys, op: Op, wall: string, elapsed: nat)
    requires RunsOk(s.view)
    ensures RunsOk(AdvanceOp(env, s, op, wall, elapsed).0.view)
  {
  }

  lemma {:induction false} AdvancedOpOk(env: Env, s: Sys, op: Op, wall: string, elapsed: nat)
    requires RunsOk(s.view) && OpOk(s.view, op)
    ensures var (s', op') := AdvanceOp(env, s, op, wall, elapsed);
            OpOk(s'.view, op')
  {
    var (s', op') := AdvanceOp(env, s, op, wall, elapsed);
    if op.WorkOp? && op.work == Working && op'.work.Tracing? {
      assert RunOk(s.view.runs[op.runId]);
      assert s'.view.runs[op.runId].requestId == op'.work.requestId && s'.view.runs[op.runId].decision.state == Allowed;
    }
  }

  lemma {:induction false} AdvanceKeeps(env: Env, s: Sys, k: nat, wall: string, elapsed: nat)
    requires SysOk(env, s) && k < |s.ops|
    ensures SysOk(env, Step(env, s, Advance(k, wall, elapsed)))
  {
    var (s1, op') := AdvanceOp(env, s, s.ops[k], wall, elapsed);
    var s' := Step(env, s, Advance(k, wall, elapsed));
    AdvancedChain(env, s, s.ops[k], wall, elapsed);
    AdvancedRunsOk(env, s, s.ops[k], wall, elapsed);
    AdvancedOpOk(env, s, s.ops[k], wall, elapsed);
    forall sel ensures Balanced(s', sel) {
      assert Balanced(s, sel);
      if s.ops[k].Submission? {
        SubmissionBalanced(env, s, k, wall, elapsed, sel);
      } else {
        WorkBalanced(env, s, k, wall, elapsed, sel);
      }
    }
    forall j | 0 <= j < |s'.ops| ensures OpOk(s'.view, s'.ops[j]) {
      if j != k {
        assert OpOk(s.view, s.ops[j]);
        if s.ops[j].WorkOp? && s.ops[j].work.Tracing? {
          AllowedRunStays(env, s, s.ops[k], wall, elapsed, s.ops[j].work.requestId);
        }
      }
    }
  }

  lemma {:induction false} StepKeeps(env: Env, s: Sys, a: Action)
    requires SysOk(env, s)
    ensures SysOk(env, Step(env, s, a))
  {
    match a
    case BeginSubmit(r, act, d) => BeginKeeps(env, s, Submission(r, act, d, false, Receiving));
    case BeginRelease(r, act, d) => BeginKeeps(env, s, Submission(r, act, d, true, CheckingHold));
    case BeginWork(id, job) => BeginKeeps(env, s, WorkOp(id, job, Working));
    case Advance(k, wall, elapsed) => if k < |s.ops| { AdvanceKeeps(env, s, k, wall, elapsed); }
  }

  lemma {:induction false} ExecOk(env: Env, actions: seq<Action>)
    ensures SysOk(env, Exec(env, actions))
  {
    if actions != [] {
      ExecOk(env, actions[..|actions| - 1]);
      StepKeeps(env, Exec(env, actions[..|actions| - 1]), actions[|actions| - 1]);
    }
  }

  // ---------- the trace agrees with the engine ----------

  predicate Finished(op: Op) {
    match op
    case Submission(_, _, _, _, stage) => stage == SubmitDone || stage == SubmitFailed
    case WorkOp(_, _, work) => work == WorkDone || work == WorkRefused
  }

  ghost predicate Quiescent(s: Sys) {
    forall op | op in s.ops :: Finished(op)
  }

  /**
   * At quiescence, for each request and over all requests: traced tool calls equal recorded ones, traced completions
   * equal completed runs, traced allowals equal Allowed runs; and at every moment the trace verifies as a chain.
   */
  lemma {:induction false} QuiescentCounts(env: Env, actions: seq<Action>, sel: Selector)
    ensures var s := Exec(env, actions);
            && ChainOk(env.chain, s.events)
            && (Quiescent(s) ==>
                  && SumOf(TracedOf(ToolCalled, sel), s.events) == SumOf(CallsOf(sel), s.view.runs)
                  && SumOf(TracedOf(RunCompleted, sel), s.events) == SumOf(CompletedOf(sel), s.view.runs)
                  && SumOf(TracedOf(PolicyDecided(Allowed), sel), s.events) == SumOf(AllowedOf(sel), s.view.runs))
  {
    var s := Exec(env, actions);
    ExecOk(env, actions);
    assert Balanced(s, sel);
    if Quiescent(s) {
      SumOfZero(ToolPending(sel), s.ops);
      SumOfZero(OutputPending(sel), s.ops);
      SumOfZero(AllowedPending(sel), s.ops);
    }
  }

  /** Completions traced so far never outnumber allowals traced so far. */
  lemma {:induction false} CompletionsBounded(env: Env, s: Sys, sel: Selector)
    requires SysOk(env, s)
    ensures SumOf(TracedOf(RunCompleted, sel), s.events) <= SumOf(TracedOf(PolicyDecided(Allowed), sel), s.events)
  {
    assert Balanced(s, sel);
    SumOfNonNegative(OutputPending(sel), s.ops);
    SumOfNonNegative(AllowedPending(sel), s.ops);
    forall r | r in s.view.runs ensures CompletedOf(sel)(r) <= AllowedOf(sel)(r) {
      var k :| 0 <= k < |s.view.runs| && s.view.runs[k] == r;
      assert RunOk(s.view.runs[k]);
    }
    SumOfLeq(CompletedOf(sel), AllowedOf(sel), s.view.runs);
  }

  lemma {:induction false} SumOfNonNegative<T>(f: T -> int, s: seq<T>)
    requires forall x | x in s :: f(x) >= 0
    ensures SumOf(f, s) >= 0
  {
    SumOfZero((x: T) => 0, s);
    SumOfLeq((x: T) => 0, f, s);
  }

  /** The trace only grows, by at most one event a step. */
  lemma {:induction false} StepGrows(env: Env, s: Sys, a: Action)
    ensures var s' := Step(env, s, a); s'.events == s.events || (|s'.events| == |s.events| + 1 && s'.events[..|s.events|] == s.events)
  {
  }

  /** Every prefix of every trace has at most as many completions as allowals, request by request. */
  lemma {:induction false} EveryPrefixBounded(env: Env, actions: seq<Action>, n: nat, sel: Selector)
    requires n <= |Exec(env, actions).events|
    ensures var prefix := Exec(env, actions).events[..n];
            SumOf(TracedOf(RunCompleted, sel), prefix) <= SumOf(TracedOf(PolicyDecided(Allowed), sel), prefix)
  {
    var s := Exec(env, actions);
    if n == |s.events| {
      assert s.events[..n] == s.events;
      ExecOk(env, actions);
      CompletionsBounded(env, s, sel);
    } else if actions != [] {
      var before := Exec(env, actions[..|actions| - 1]);
      StepGrows(env, before, actions[|actions| - 1]);
      assert s.events[..n] == before.events[..n];
      EveryPrefixBounded(env, actions[..|actions| - 1], n, sel);
    }
  }

  ghost predicate AllowedBefore(events: seq<ExecutionTrace>, n: nat, requestId: string)
    requires n <= |events|
  {
    exists j | 0 <= j < n :: events[j].body.event == PolicyDecided(Allowed) && events[j].body.requestId == requestId
  }

  lemma {:induction false} PositiveHasWitness<T>(f: T -> int, s: seq<T>) returns (j: nat)
    requires SumOf(f, s) > 0
    ensures j < |s| && f(s[j]) > 0
  {
    var n := |s| - 1;
    if f(s[n]) > 0 { j := n; } else { j := PositiveHasWitness(f, s[..n]); }
  }

  lemma {:induction false} AllowedIsTraced(env: Env, s: Sys, requestId: string)
    requires SysOk(env, s) && AllowedRunFor(s.view, requestId)
    ensures AllowedBefore(s.events, |s.events|, requestId)
  {
    var sel := Some(requestId);
    assert Balanced(s, sel);
    var k :| 0 <= k < |s.view.runs| && s.view.runs[k].requestId == requestId && s.view.runs[k].decision.state == Allowed;
    SumOfAtLeast(AllowedOf(sel), s.view.runs, k);
    SumOfNonNegative(AllowedPending(sel), s.ops);
    var j := PositiveHasWitness(TracedOf(PolicyDecided(Allowed), sel), s.events);
  }

  /** The newest event, when it traces work, comes from an operation whose request has an Allowed run. */
  lemma {:induction false} NewWorkIsAllowed(env: Env, s: Sys, a: Action)
    requires SysOk(env, s)
    ensures var s' := Step(env, s, a);
            |s'.events| == |s.events| + 1 && (s'.events[|s.events|].body.event == ToolCalled || s'.events[|s.events|].body.event == RunCompleted) ==>
              AllowedRunFor(s.view, s'.events[|s.events|].body.requestId)
  {
    if a.Advance? && a.k < |s.ops| {
      assert OpOk(s.view, s.ops[a.k]);
    }
  }

  /** Every traced tool call and every traced completion is preceded by an Allowed decision for its own request. */
  lemma {:induction false} WorkIsPreceded(env: Env, actions: seq<Action>, n: nat)
    requires n < |Exec(env, actions).events|
    ensures var events := Exec(env, actions).events;
            events[n].body.event == ToolCalled || events[n].body.event == RunCompleted ==>
              AllowedBefore(events, n, events[n].body.requestId)
  {
    if actions != [] {
      var before, last := Exec(env, actions[..|actions| - 1]), actions[|actions| - 1];
      var s := Exec(env, actions);
      ExecOk(env, actions[..|actions| - 1]);
      StepGrows(env, before, last);
      if n < |before.events| {
        WorkIsPreceded(env, actions[..|actions| - 1], n);
        assert s.events[n] == before.events[n];
        if AllowedBefore(before.events, n, before.events[n].body.requestId) {
          var j :| 0 <= j < n && before.events[j].body.event == PolicyDecided(Allowed)
                   && before.events[j].body.requestId == before.events[n].body.requestId;
          assert s.events[j] == before.events[j];
        }
      } else {
        NewWorkIsAllowed(env, before, last);
        if s.events[n].body.event == ToolCalled || s.events[n].body.event == RunCompleted {
          AllowedIsTraced(env, before, s.events[n].body.requestId);
          var j :| 0 <= j < |before.events| && before.events[j].body.event == PolicyDecided(Allowed)
                   && before.events[j].body.requestId == s.events[n].body.requestId;
          assert s.events[j] == before.events[j];
        }
      }
    }
  }

  // ---------- a hold is dropped once ----------

  /** A release, decided Allowed, that got past dropping its hold. */
  function DroppedBy(requestId: string): Op -> int {
    (op: Op) => Ind(op.Submission? && op.releasing && op.d.state == Allowed && op.requestId == requestId
                    && (op.stage == TracingRelease || op.stage == SubmitDone))
  }

  function HeldRun(requestId: string): RunView -> int {
    (r: RunView) => Ind(r.requestId == requestId && r.decision.state == Conditional)
  }

  /** Every hold dropped, and the one still standing, was entered by a conditional run of its own. */
  ghost predicate HoldsCovered(s: Sys, requestId: string) {
    SumOf(DroppedBy(requestId), s.ops) + Ind(requestId in s.view.conditional) <= SumOf(HeldRun(requestId), s.view.runs)
  }

  lemma {:induction false} WorkKeepsHolds(v: EngineView, runId: nat, job: Job, requestId: string)
    ensures SumOf(HeldRun(requestId), DoJob(v, runId, job).0.runs) == SumOf(HeldRun(requestId), v.runs)
    ensures DoJob(v, runId, job).0.conditional == v.conditional
  {
    if DoJob(v, runId, job).1.None? {
      SumOfUpdate(HeldRun(requestId), v.runs, runId, DoJob(v, runId, job).0.runs[runId]);
    }
  }

  lemma {:induction false} EnterKeepsHolds(v: EngineView, r: string, d: Decision, requestId: string)
    ensures Ind(requestId in Enter(v, r, d).conditional) - Ind(requestId in v.conditional)
              <= SumOf(HeldRun(requestId), Enter(v, r, d).runs) - SumOf(HeldRun(requestId), v.runs)
  {
    SumOfAppend(HeldRun(requestId), v.runs, RunView(r, StateFor(d.state), d, [], []));
  }

  /** Dropping a hold takes it away; without one an Allowed release fails. */
  lemma {:induction false} DropKeepsHolds(v: EngineView, r: string, d: Decision, requestId: string)
    ensures var (v', failed) := DropHold(v, r, d);
            && v'.runs == v.runs
            && Ind(failed.None? && d.state == Allowed && r == requestId) + Ind(requestId in v'.conditional) <= Ind(requestId in v.conditional)
  {
  }

  /** What one operation's step may do to the counts: its own, the standing hold, and the runs. */
  ghost predicate CountsMove(v: EngineView, op: Op, v': EngineView, op': Op, requestId: string) {
    DroppedBy(requestId)(op') - DroppedBy(requestId)(op) + Ind(requestId in v'.conditional) - Ind(requestId in v.conditional)
      <= SumOf(HeldRun(requestId), v'.runs) - SumOf(HeldRun(requestId), v.runs)
  }

  lemma {:induction false} SubmissionKeepsHolds(env: Env, s: Sys, op: Op, wall: string, elapsed: nat, requestId: string)
    requires op.Submission?
    ensures var (s', op') := AdvanceSubmission(env, s, op, wall, elapsed); CountsMove(s.view, op, s'.view, op', requestId)
  {
    if op.stage == Registering {
      RegisteringKeepsHolds(env, s, op, wall, elapsed, requestId);
    } else if op.stage == Dropping {
      DroppingKeepsHolds(env, s, op, wall, elapsed, requestId);
    } else {
      OtherStagesKeepView(env, s, op, wall, elapsed);
    }
  }

  lemma {:induction false} RegisteringKeepsHolds(env: Env, s: Sys, op: Op, wall: string, elapsed: nat, requestId: string)
    requires op.Submission? && op.stage == Registering
    ensures var (s', op') := AdvanceSubmission(env, s, op, wall, elapsed); CountsMove(s.view, op, s'.view, op', requestId)
  {
    EnterKeepsHolds(s.view, op.requestId, op.d, requestId);
  }

  lemma {:induction false} DroppingKeepsHolds(env: Env, s: Sys, op: Op, wall: string, elapsed: nat, requestId: string)
    requires op.Submission? && op.stage == Dropping
    ensures var (s', op') := AdvanceSubmission(env, s, op, wall, elapsed); CountsMove(s.view, op, s'.view, op', requestId)
  {
    DropKeepsHolds(s.view, op.requestId, op.d, requestId);
  }

  lemma {:induction false} OtherStagesKeepView(env: Env, s: Sys, op: Op, wall: string, elapsed: nat)
    requires op.Submission? && op.stage != Registering && op.stage != Dropping
    ensures AdvanceSubmission(env, s, op, wall, elapsed).0.view == s.view
    ensures var op' := AdvanceSubmission(env, s, op, wall, elapsed).1;
            op' == op.(stage := op'.stage) && op'.Submission?
            && (op'.stage == TracingRelease || op'.stage == SubmitDone <==> op.stage == TracingRelease || op.stage == SubmitDone)
  {
  }

  lemma {:induction false} WorkOpKeepsHolds(env: Env, s: Sys, op: Op, wall: string, elapsed: nat, requestId: string)
    requires op.WorkOp?
    ensures var (s', op') := AdvanceWork(env, s, op, wall, elapsed); CountsMove(s.view, op, s'.view, op', requestId)
  {
    WorkKeepsHolds(s.view, op.runId, op.job, requestId);
  }

  lemma {:induction false} OpKeepsHolds(env: Env, s: Sys, op: Op, wall: string, elapsed: nat, requestId: string)
    ensures var (s', op') := AdvanceOp(env, s, op, wall, elapsed); CountsMove(s.view, op, s'.view, op', requestId)
  {
    if op.WorkOp? {
      WorkOpKeepsHolds(env, s, op, wall, elapsed, requestId);
    } else {
      SubmissionKeepsHolds(env, s, op, wall, elapsed, requestId);
    }
  }

  lemma {:induction false} StepKeepsHolds(env: Env, s: Sys, a: Action, requestId: string)
    requires HoldsCovered(s, requestId)
    ensures HoldsCovered(Step(env, s, a), requestId)
  {
    match a
    case BeginSubmit(r, act, d) => SumOfAppend(DroppedBy(requestId), s.ops, Submission(r, act, d, false, Receiving));
    case BeginRelease(r, act, d) => SumOfAppend(DroppedBy(requestId), s.ops, Submission(r, act, d, true, CheckingHold));
    case BeginWork(id, job) => SumOfAppend(DroppedBy(requestId), s.ops, WorkOp(id, job, Working));
    case Advance(k, wall, elapsed) =>
      if k < |s.ops| {
        OpKeepsHolds(env, s, s.ops[k], wall, elapsed, requestId);
        SumOfUpdate(DroppedBy(requestId), s.ops, k, AdvanceOp(env, s, s.ops[k], wall, elapsed).1);
      }
  }

  /**
   * Over every interleaving, no more Allowed releases of a request get past dropping its hold than conditional runs of
   * that request were entered: of releases racing for one hold, one at most succeeds and the others fail.
   */
  lemma {:induction false} HoldDroppedOnce(env: Env, actions: seq<Action>, requestId: string)
    ensures HoldsCovered(Exec(env, actions), requestId)
  {
    if actions != [] {
      HoldDroppedOnce(env, actions[..|actions| - 1], requestId);
      StepKeepsHolds(env, Exec(env, actions[..|actions| - 1]), actions[|actions| - 1], requestId);
    }
  }

  // ---------- a completed run is finished ----------

  /** The state after more actions. */
  function Continue(env: Env, s: Sys, more: seq<Action>): Sys {
    if more == [] then s else Step(env, Continue(env, s, more[..|more| - 1]), more[|more| - 1])
  }

  lemma {:induction false} StepKeepsRuns(env: Env, s: Sys, a: Action, id: nat)
    requires RunsOk(s.view) && id < |s.view.runs|
    ensures var r, v' := s.view.runs[id], Step(env, s, a).view;
            && RunsOk(v') && id < |v'.runs|
            && v'.runs[id].requestId == r.requestId && v'.runs[id].decision == r.decision
            && r.toolCalls <= v'.runs[id].toolCalls && r.outputs <= v'.runs[id].outputs
            && (r.state != Executing ==> v'.runs[id] == r)
  {
    assert RunOk(s.view.runs[id]);
    if a.Advance? && a.k < |s.ops| {
      AdvancedRunsOk(env, s, s.ops[a.k], a.wall, a.elapsed);
    }
  }

  /**
   * Over every interleaving a run never changes its request or decision and never loses a call or an output; and once it
   * is not executing, completed in particular, it never changes at all.
   */
  lemma {:induction false} RunsAreKept(env: Env, actions: seq<Action>, more: seq<Action>, id: nat)
    requires id < |Exec(env, actions).view.runs|
    ensures var s, s' := Exec(env, actions), Continue(env, Exec(env, actions), more);
            && RunsOk(s'.view) && id < |s'.view.runs|
            && s'.view.runs[id].requestId == s.view.runs[id].requestId && s'.view.runs[id].decision == s.view.runs[id].decision
            && s.view.runs[id].toolCalls <= s'.view.runs[id].toolCalls && s.view.runs[id].outputs <= s'.view.runs[id].outputs
            && (s.view.runs[id].state != Executing ==> s'.view.runs[id] == s.view.runs[id])
  {
    ExecOk(env, actions);
    if more != [] {
      RunsAreKept(env, actions, more[..|more| - 1], id);
      StepKeepsRuns(env, Continue(env, Exec(env, actions), more[..|more| - 1]), more[|more| - 1], id);
    }
  }

  // ---------- one operation on its own is the sequential operation ----------

  /** What the two clocks give one step. */
  datatype Reading = Reading(wall: string, elapsed: nat)

  /** Advances one operation, once per reading, with nothing in between. */
  function Drive(env: Env, s: Sys, k: nat, clock: seq<Reading>): Sys
    decreases |clock|
  {
    if clock == [] then s else Drive(env, Step(env, s, Advance(k, clock[0].wall, clock[0].elapsed)), k, clock[1..])
  }

  /** The state in which `op` was begun last. */
  function With(s: Sys, op: Op): Sys {
    s.(ops := s.ops + [op])
  }

  /** One step of the operation begun last. */
  lemma {:induction false} DriveOnce(env: Env, s: Sys, op: Op, clock: seq<Reading>)
    requires clock != []
    ensures var (s', op') := AdvanceOp(env, With(s, op), op, clock[0].wall, clock[0].elapsed);
            Drive(env, With(s, op), |s.ops|, clock) == Drive(env, With(s'.(ops := s.ops), op'), |s.ops|, clock[1..])
  {
    var (s', op') := AdvanceOp(env, With(s, op), op, clock[0].wall, clock[0].elapsed);
    assert With(s, op).ops[|s.ops| := op'] == s.ops + [op'];
    assert Step(env, With(s, op), Advance(|s.ops|, clock[0].wall, clock[0].elapsed)) == With(s'.(ops := s.ops), op');
  }

  lemma {:induction false} FinishedStays(env: Env, s: Sys, op: Op, clock: seq<Reading>)
    requires Finished(op)
    ensures Drive(env, With(s, op), |s.ops|, clock) == With(s, op)
  {
    if clock != [] {
      DriveOnce(env, s, op, clock);
      FinishedStays(env, s, op, clock[1..]);
    }
  }

  /** The tick at which a record is appended after `events`. */
  function TickAfter(events: seq<ExecutionTrace>, r: Reading): Tick {
    Tick(r.wall, MonoNow(events, r.elapsed))
  }

  function Later(t: Tick, r: Reading): Tick {
    Tick(r.wall, t.mono + r.elapsed)
  }

  /** From its first trace to its registration a submission does what the sequential one does. */
  lemma {:induction false} SubmitStages(env: Env, s: Sys, op: Op, clock: seq<Reading>)
    requires op.Submission? && op.stage == Receiving && |clock| >= 3
    ensures var t := TickAfter(s.events, clock[0]);
            var events := Traced(env.chain, env.traceId, s.events, op.requestId, op.action, op.d, t, Later(t, clock[1]));
            var after := Sys(events, Enter(s.view, op.requestId, op.d), s.ops);
            var op' := op.(stage := if op.releasing then Dropping else SubmitDone);
            Drive(env, With(s, op), |s.ops|, clock) == Drive(env, With(after, op'), |s.ops|, clock[3..])
  {
    var t := TickAfter(s.events, clock[0]);
    var e1 := s.events + [NextRecord(env.chain, env.traceId, s.events, op.requestId, RequestReceived, "workflow",
                                     ActionDetail(op.action), t.wall, t.mono)];
    var e2 := Traced(env.chain, env.traceId, s.events, op.requestId, op.action, op.d, t, Later(t, clock[1]));
    assert MonoNow(e1, clock[1].elapsed) == Later(t, clock[1]).mono;
    assert clock[1..][1..] == clock[2..] && clock[2..][1..] == clock[3..];
    DriveOnce(env, s, op, clock);
    DriveOnce(env, s.(events := e1), op.(stage := Deciding), clock[1..]);
    DriveOnce(env, s.(events := e2), op.(stage := Registering), clock[2..]);
  }

  /** A submission run alone enters its run and traces its two events, exactly as the sequential engine does. */
  lemma {:induction false} SubmitAlone(env: Env, s: Sys, requestId: string, action: string, d: Decision, clock: seq<Reading>)
    requires |clock| >= 3
    ensures var s' := Drive(env, Step(env, s, BeginSubmit(requestId, action, d)), |s.ops|, clock);
            var t := TickAfter(s.events, clock[0]);
            && s'.view == Enter(s.view, requestId, d)
            && s'.events == Traced(env.chain, env.traceId, s.events, requestId, action, d, t, Later(t, clock[1]))
            && s'.ops == s.ops + [Submission(requestId, action, d, false, SubmitDone)]
  {
    var op := Submission(requestId, action, d, false, Receiving);
    var t := TickAfter(s.events, clock[0]);
    var events := Traced(env.chain, env.traceId, s.events, requestId, action, d, t, Later(t, clock[1]));
    SubmitStages(env, s, op, clock);
    FinishedStays(env, Sys(events, Enter(s.view, requestId, d), s.ops), op.(stage := SubmitDone), clock[3..]);
  }

  /** A release without a hold fails and leaves no mark. */
  lemma {:induction false} ReleaseRefusedAlone(env: Env, s: Sys, requestId: string, action: string, d: Decision, clock: seq<Reading>)
    requires |clock| >= 1 && requestId !in s.view.conditional
    ensures var s' := Drive(env, Step(env, s, BeginRelease(requestId, action, d)), |s.ops|, clock);
            && s'.view == s.view == Release(s.view, requestId, d).0 && s'.events == s.events
            && s'.ops == s.ops + [Submission(requestId, action, d, true, SubmitFailed)]
  {
    var op := Submission(requestId, action, d, true, CheckingHold);
    DriveOnce(env, s, op, clock);
    FinishedStays(env, s, op.(stage := SubmitFailed), clock[1..]);
  }

  /** A release run alone is the sequential release: a submission, the hold dropped on Allowed, and its third event. */
  lemma {:induction false} ReleaseAlone(env: Env, s: Sys, requestId: string, action: string, d: Decision, clock: seq<Reading>)
    requires |clock| >= 6 && requestId in s.view.conditional
    ensures var s' := Drive(env, Step(env, s, BeginRelease(requestId, action, d)), |s.ops|, clock);
            var t := TickAfter(s.events, clock[1]);
            && (s'.view, None) == Release(s.view, requestId, d)
            && s'.events == ReleaseTraced(env.chain, env.traceId, s.events, requestId, action, d, t, Later(t, clock[2]),
                                          Later(Later(t, clock[2]), clock[5]))
            && s'.ops == s.ops + [Submission(requestId, action, d, true, SubmitDone)]
  {
    var op := Submission(requestId, action, d, true, CheckingHold);
    var t := TickAfter(s.events, clock[1]);
    DriveOnce(env, s, op, clock);
    SubmitStages(env, s, op.(stage := Receiving), clock[1..]);
    assert clock[1..][0] == clock[1] && clock[1..][1] == clock[2] && clock[1..][3..] == clock[4..];
    var events := Traced(env.chain, env.traceId, s.events, requestId, action, d, t, Later(t, clock[2]));
    DropStages(env, Sys(events, Enter(s.view, requestId, d), s.ops), op.(stage := Dropping), clock[4..]);
  }

  lemma {:induction false} DropStages(env: Env, s: Sys, op: Op, clock: seq<Reading>)
    requires op.Submission? && op.stage == Dropping && |clock| >= 2 && op.requestId in s.view.conditional
    ensures var r := TickAfter(s.events, clock[1]);
            var last := NextRecord(env.chain, env.traceId, s.events, op.requestId, HoldReleased, "workflow", NoDetail, r.wall, r.mono);
            var after := Sys(s.events + [last], DropHold(s.view, op.requestId, op.d).0, s.ops);
            Drive(env, With(s, op), |s.ops|, clock) == With(after, op.(stage := SubmitDone))
  {
    var r := TickAfter(s.events, clock[1]);
    var last := NextRecord(env.chain, env.traceId, s.events, op.requestId, HoldReleased, "workflow", NoDetail, r.wall, r.mono);
    var view := DropHold(s.view, op.requestId, op.d).0;
    assert clock[1..][1..] == clock[2..];
    DriveOnce(env, s, op, clock);
    DriveOnce(env, Sys(s.events, view, s.ops), op.(stage := TracingRelease), clock[1..]);
    FinishedStays(env, Sys(s.events + [last], view, s.ops), op.(stage := SubmitDone), clock[2..]);
  }

  /** The event that the sequential engine appends for a job. */
  function JobRecord(env: Env, events: seq<ExecutionTrace>, requestId: string, job: Job, t: Tick): ExecutionTrace {
    match job
    case CallJob(call) =>
      NextRecord(env.chain, env.traceId, events, requestId, ToolCalled, "agent", ToolDetail(call.tool), t.wall, t.mono)
    case OutputJob(_) =>
      NextRecord(env.chain, env.traceId, events, requestId, RunCompleted, "workflow", NoDetail, t.wall, t.mono)
  }

  /** A tool call or an output run alone changes the runs as the sequential one does, and traces itself once if it was not refused. */
  lemma {:induction false} WorkAlone(env: Env, s: Sys, runId: nat, job: Job, clock: seq<Reading>)
    requires |clock| >= 2
    ensures var s' := Drive(env, Step(env, s, BeginWork(runId, job)), |s.ops|, clock);
            var (view, refused) := if job.CallJob? then CallTool(s.view, runId, job.call) else AddOutput(s.view, runId, job.output);
            var t := TickAfter(s.events, clock[1]);
            && s'.view == view
            && (refused.Some? ==> s'.events == s.events)
            && (refused.None? ==> runId < |s.view.runs|)
            && (refused.None? ==> s'.events == s.events + [JobRecord(env, s.events, s.view.runs[runId].requestId, job, t)])
  {
    var op := WorkOp(runId, job, Working);
    var (view, refused) := DoJob(s.view, runId, job);
    DriveOnce(env, s, op, clock);
    if refused.Some? {
      FinishedStays(env, Sys(s.events, view, s.ops), op.(work := WorkRefused), clock[1..]);
    } else {
      var traced := AppendJob(env, Sys(s.events, view, s.ops), s.view.runs[runId].requestId, job, clock[1].wall, clock[1].elapsed);
      DriveOnce(env, Sys(s.events, view, s.ops), op.(work := Tracing(s.view.runs[runId].requestId)), clock[1..]);
      FinishedStays(env, traced, op.(work := WorkDone), clock[1..][1..]);
    }
  }
}
