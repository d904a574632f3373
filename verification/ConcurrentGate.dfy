/**
 * Many evaluations, registrations and withdrawals interleaving: one step per lock-protected region (the store's get,
 * one nonce peek, one nonce check-and-burn, one draw of a sequence number, one registration, one withdrawal).
 */
module ConcurrentGate {
  import opened Wrappers
  import opened Mandate
  import opened Tokens
  import opened AssetStores
  import opened Gateway

  datatype Pc =
    | Start
    | Peeking(i: nat, last: Option<TokenError>)
    | Consuming(i: nat)
    | Concluding(v: Verdict)
    | Done(d: Decision)

  /** One evaluation: its inputs, the asset its `get` returned, the nonce it burned, and where it stands. */
  datatype Eval = Eval(req: Request, now: int, ticket: string, snapshot: Option<Asset>, burned: Option<string>, pc: Pc)

  datatype Shared = Shared(assets: map<string, Asset>, used: set<string>, counter: nat)

  /** Evaluations are numbered in the order they begin. */
  datatype Sys = Sys(sh: Shared, evals: seq<Eval>)

  datatype Action =
    | Begin(req: Request, now: int, ticket: string)
    | Advance(k: nat)
    | RegisterStep(a: Asset)
    | WithdrawStep(assetId: string)

  function AfterGet(env: Env, sh: Shared, e: Eval): Eval {
    if e.req.assetId !in sh.assets then e.(pc := Concluding(Block(UnknownAsset, e.req.assetId)))
    else
      var a := sh.assets[e.req.assetId];
      var pc := match Rules(env, a, e.req, e.now)
        case Some(reason) => Concluding(Block(reason, a.assetId))
        case None =>
          if !a.requiresConsent then Concluding(Granted(e.req, a))
          else if e.req.consentTokens == [] then Concluding(Verdict(Conditional, AwaitingConsent, a.assetId))
          else Peeking(0, None);
      e.(snapshot := Some(a), pc := pc)
  }

  function AfterPeek(env: Env, sh: Shared, e: Eval, a: Asset, i: nat, last: Option<TokenError>): Eval {
    if i >= |e.req.consentTokens| then e.(pc := Concluding(Refusal(PeekReason(last), e.req, a)))
    else match Peek(env.codec, sh.used, e.req.consentTokens[i], a.assetId, a.tenantId, WholeSeconds(e.now))
      case Accept(_) => e.(pc := Consuming(0))
      case Reject(err) => e.(pc := Peeking(i + 1, Some(err)))
      case Crash => e.(pc := Concluding(Refusal(InternalError, e.req, a)))
  }

  function AfterConsume(env: Env, sh: Shared, e: Eval, a: Asset, i: nat): (Shared, Eval) {
    if i >= |e.req.consentTokens| then (sh, e.(pc := Concluding(Refusal(ConsentReplay, e.req, a))))
    else match Verify(env.codec, sh.used, e.req.consentTokens[i], a.assetId, a.tenantId, WholeSeconds(e.now))
      case Accept(c) => (sh.(used := sh.used + {c.nonce}), e.(burned := Some(c.nonce), pc := Concluding(Granted(e.req, a))))
      case Reject(_) => (sh, e.(pc := Consuming(i + 1)))
      case Crash => (sh, e.(pc := Concluding(Refusal(InternalError, e.req, a))))
  }

  function AfterDraw(env: Env, sh: Shared, e: Eval, v: Verdict): (Shared, Eval) {
    (sh.(counter := sh.counter + 1),
     e.(pc := if ReasonFits(env, v.reason) then Done(MakeDecision(v, e.req, e.now, e.ticket, sh.counter))
              else Concluding(Block(InternalError, e.req.assetId))))
  }

  function StepEval(env: Env, sh: Shared, e: Eval): (Shared, Eval) {
    match e.pc
    case Start => (sh, AfterGet(env, sh, e))
    case Peeking(i, last) => if e.snapshot.Some? then (sh, AfterPeek(env, sh, e, e.snapshot.value, i, last)) else (sh, e)
    case Consuming(i) => if e.snapshot.Some? then AfterConsume(env, sh, e, e.snapshot.value, i) else (sh, e)
    case Concluding(v) => AfterDraw(env, sh, e, v)
    case Done(_) => (sh, e)
  }

  function Apply(env: Env, s: Sys, action: Action): Sys {
    match action
    case Begin(req, now, ticket) => s.(evals := s.evals + [Eval(req, now, ticket, None, None, Start)])
    case Advance(k) =>
      if k >= |s.evals| then s
      else var (sh, e) := StepEval(env, s.sh, s.evals[k]); Sys(sh, s.evals[k := e])
    case RegisterStep(a) => s.(sh := s.sh.(assets := RegisterAsset(s.sh.assets, a).0))
    case WithdrawStep(id) => s.(sh := s.sh.(assets := WithdrawAsset(s.sh.assets, id).0))
  }

  /** Every interleaving is a sequence of actions. */
  function Exec(env: Env, s: Sys, actions: seq<Action>): Sys {
    if actions == [] then s else Apply(env, Exec(env, s, actions[..|actions| - 1]), actions[|actions| - 1])
  }

  // ---------- the invariant ----------

  /** Token `t` can no longer be consumed: it never could, or its nonce is gone. */
  ghost predicate Spent(env: Env, used: set<string>, e: Eval, a: Asset, t: string) {
    var o := VerifyClaim(env.codec, t, a.assetId, a.tenantId, WholeSeconds(e.now));
    o.Accept? ==> o.claim.nonce in used
  }

  ghost predicate SpentUpTo(env: Env, used: set<string>, e: Eval, a: Asset, n: nat) {
    forall k | 0 <= k < n && k < |e.req.consentTokens| :: Spent(env, used, e, a, e.req.consentTokens[k])
  }

  /** Some token of the request makes a check fail with something other than a token error. */
  ghost predicate SomeCrash(env: Env, e: Eval, a: Asset) {
    exists k | 0 <= k < |e.req.consentTokens| ::
      || VerifyClaim(env.codec, e.req.consentTokens[k], a.assetId, a.tenantId, WholeSeconds(e.now)).Crash?
      || PeekClaim(env.codec, e.req.consentTokens[k], a.assetId, a.tenantId, WholeSeconds(e.now)).Crash?
  }

  ghost predicate InGate(env: Env, e: Eval) {
    && e.snapshot.Some? && Rules(env, e.snapshot.value, e.req, e.now).None?
    && e.snapshot.value.requiresConsent && e.req.consentTokens != []
  }

  predicate IsGrant(state: PolicyState) { state == Allowed || state == HumanReview }

  /** What a decided evaluation may have done, by its state. */
  ghost predicate DecidedOk(env: Env, used: set<string>, e: Eval, state: PolicyState) {
    && (e.burned.Some? <==> IsGrant(state) && e.snapshot.Some? && e.snapshot.value.requiresConsent)
    && (IsGrant(state) ==> e.snapshot.Some? && Rules(env, e.snapshot.value, e.req, e.now).None?)
    && (state == Blocked && InGate(env, e) ==>
          SpentUpTo(env, used, e, e.snapshot.value, |e.req.consentTokens|) || SomeCrash(env, e, e.snapshot.value))
    && (state == Conditional ==> !InGate(env, e))
  }

  /** The nonce is one that a token of the request carries, valid for the asset that was read. */
  ghost predicate Offered(env: Env, e: Eval, n: string) {
    e.snapshot.Some? && exists k | 0 <= k < |e.req.consentTokens| ::
      var a := e.snapshot.value;
      var o := VerifyClaim(env.codec, e.req.consentTokens[k], a.assetId, a.tenantId, WholeSeconds(e.now));
      o.Accept? && o.claim.nonce == n
  }

  ghost predicate EvalOk(env: Env, sh: Shared, e: Eval) {
    && (e.burned.Some? ==> e.burned.value in sh.used && Offered(env, e, e.burned.value))
    && match e.pc
       case Start => e.snapshot.None? && e.burned.None?
       case Peeking(i, _) => InGate(env, e) && e.burned.None? && SpentUpTo(env, sh.used, e, e.snapshot.value, i)
       case Consuming(i) => InGate(env, e) && e.burned.None? && SpentUpTo(env, sh.used, e, e.snapshot.value, i)
       case Concluding(v) => DecidedOk(env, sh.used, e, v.state) && (v.reason.ScopeNotGranted? ==> v.state == Blocked)
       case Done(d) => DecidedOk(env, sh.used, e, d.state) && d.sequence < sh.counter
  }

  ghost predicate SysOk(env: Env, used0: set<string>, s: Sys) {
    && (forall k | 0 <= k < |s.evals| :: EvalOk(env, s.sh, s.evals[k]))
    && used0 <= s.sh.used
    && (forall k | 0 <= k < |s.evals| && s.evals[k].burned.Some? :: s.evals[k].burned.value !in used0)
    && BurnsDistinct(s) && DrawsDistinct(s)
    && (forall n | n in s.sh.used && n !in used0 ::
          exists k | 0 <= k < |s.evals| :: s.evals[k].burned == Some(n))
  }

  ghost predicate BurnsDistinct(s: Sys) {
    forall j, k | 0 <= j < k < |s.evals| && s.evals[j].burned.Some? && s.evals[k].burned.Some? ::
      s.evals[j].burned.value != s.evals[k].burned.value
  }

  ghost predicate DrawsDistinct(s: Sys) {
    forall j, k | 0 <= j < k < |s.evals| && s.evals[j].pc.Done? && s.evals[k].pc.Done? ::
      s.evals[j].pc.d.sequence != s.evals[k].pc.d.sequence
  }

  /** Other evaluations only see the used set and the counter grow. */
  lemma {:induction false} EvalOkMonotone(env: Env, sh: Shared, sh': Shared, e: Eval)
    requires EvalOk(env, sh, e) && sh.used <= sh'.used && sh.counter <= sh'.counter
    ensures EvalOk(env, sh', e)
  {
  }

  /** What one evaluation's step does: burns at most one fresh nonce, draws at most one number. */
  ghost predicate StepShape(sh: Shared, e: Eval, sh': Shared, e': Eval) {
    && sh'.assets == sh.assets && e'.req == e.req && e'.now == e.now && e'.ticket == e.ticket
    && (|| (sh'.used == sh.used && e'.burned == e.burned)
        || (e.burned.None? && e'.burned.Some? && e'.burned.value !in sh.used && sh'.used == sh.used + {e'.burned.value}))
    && (if e'.pc.Done? && !e.pc.Done? then e'.pc.d.sequence == sh.counter && sh'.counter == sh.counter + 1
        else sh.counter <= sh'.counter && (e.pc.Done? ==> e'.pc == e.pc))
  }

  lemma {:induction false} GetStepOk(env: Env, sh: Shared, e: Eval)
    requires EvalOk(env, sh, e) && e.pc.Start?
    ensures EvalOk(env, sh, AfterGet(env, sh, e)) && StepShape(sh, e, sh, AfterGet(env, sh, e))
  {
  }

  lemma {:induction false} PeekStepOk(env: Env, sh: Shared, e: Eval)
    requires EvalOk(env, sh, e) && e.pc.Peeking?
    ensures var e' := AfterPeek(env, sh, e, e.snapshot.value, e.pc.i, e.pc.last);
            EvalOk(env, sh, e') && StepShape(sh, e, sh, e')
  {
    var a, i := e.snapshot.value, e.pc.i;
    if i >= |e.req.consentTokens| {
      RefuseOk(env, sh, e, a, PeekReason(e.pc.last));
    } else {
      var t := e.req.consentTokens[i];
      match Peek(env.codec, sh.used, t, a.assetId, a.tenantId, WholeSeconds(e.now))
      case Accept(_) =>
      case Reject(err) =>
        VerifyImpliesPeek(env.codec, {}, t, a.assetId, a.tenantId, WholeSeconds(e.now));
        SkipOk(env, sh, e, a, i, Peeking(i + 1, Some(err)));
      case Crash => RefuseOk(env, sh, e, a, InternalError);
    }
  }

  lemma {:induction false} ConsumeStepOk(env: Env, sh: Shared, e: Eval)
    requires EvalOk(env, sh, e) && e.pc.Consuming?
    ensures var (sh', e') := AfterConsume(env, sh, e, e.snapshot.value, e.pc.i);
            EvalOk(env, sh', e') && StepShape(sh, e, sh', e')
  {
    var a, i := e.snapshot.value, e.pc.i;
    if i >= |e.req.consentTokens| {
      RefuseOk(env, sh, e, a, ConsentReplay);
    } else {
      match Verify(env.codec, sh.used, e.req.consentTokens[i], a.assetId, a.tenantId, WholeSeconds(e.now))
      case Accept(c) => BurnOk(env, sh, e, a, i, c);
      case Reject(_) => SkipOk(env, sh, e, a, i, Consuming(i + 1));
      case Crash => RefuseOk(env, sh, e, a, InternalError);
    }
  }

  lemma {:induction false} SpentOneMore(env: Env, used: set<string>, e: Eval, a: Asset, i: nat, next: Pc)
    requires SpentUpTo(env, used, e, a, i) && i < |e.req.consentTokens| && Spent(env, used, e, a, e.req.consentTokens[i])
    ensures SpentUpTo(env, used, e.(pc := next), a, i + 1)
  {
    forall k | 0 <= k < i + 1 && k < |e.req.consentTokens|
      ensures Spent(env, used, e.(pc := next), a, e.req.consentTokens[k])
    {
      assert Spent(env, used, e, a, e.req.consentTokens[k]);
    }
  }

  /** Moving past a token that this evaluation cannot consume any more. */
  lemma {:induction false} SkipOk(env: Env, sh: Shared, e: Eval, a: Asset, i: nat, next: Pc)
    requires EvalOk(env, sh, e) && e.snapshot == Some(a) && i < |e.req.consentTokens|
    requires (e.pc == Consuming(i) && next == Consuming(i + 1))
          || (e.pc.Peeking? && e.pc.i == i && next.Peeking? && next.i == i + 1)
    requires Spent(env, sh.used, e, a, e.req.consentTokens[i])
    ensures EvalOk(env, sh, e.(pc := next)) && StepShape(sh, e, sh, e.(pc := next))
  {
    SpentOneMore(env, sh.used, e, a, i, next);
  }

  lemma {:induction false} RefuseOk(env: Env, sh: Shared, e: Eval, a: Asset, reason: Reason)
    requires EvalOk(env, sh, e) && (e.pc.Consuming? || e.pc.Peeking?) && e.snapshot == Some(a) && !reason.ScopeNotGranted?
    requires e.pc.i >= |e.req.consentTokens| || SomeCrash(env, e, a)
    ensures var e' := e.(pc := Concluding(Refusal(reason, e.req, a)));
            EvalOk(env, sh, e') && StepShape(sh, e, sh, e')
  {
    var e' := e.(pc := Concluding(Refusal(reason, e.req, a)));
    if e.pc.i >= |e.req.consentTokens| {
      forall k | 0 <= k < |e.req.consentTokens| ensures Spent(env, sh.used, e', a, e'.req.consentTokens[k]) {
        assert Spent(env, sh.used, e, a, e.req.consentTokens[k]);
      }
    } else {
      assert SomeCrash(env, e', a);
    }
  }

  lemma {:induction false} BurnOk(env: Env, sh: Shared, e: Eval, a: Asset, i: nat, c: Claim)
    requires EvalOk(env, sh, e) && e.pc == Consuming(i) && e.snapshot == Some(a) && i < |e.req.consentTokens|
    requires Verify(env.codec, sh.used, e.req.consentTokens[i], a.assetId, a.tenantId, WholeSeconds(e.now)) == Accept(c)
    ensures var sh' := sh.(used := sh.used + {c.nonce});
            var e' := e.(burned := Some(c.nonce), pc := Concluding(Granted(e.req, a)));
            EvalOk(env, sh', e') && StepShape(sh, e, sh', e')
  {
    var e' := e.(burned := Some(c.nonce), pc := Concluding(Granted(e.req, a)));
    assert VerifyClaim(env.codec, e'.req.consentTokens[i], a.assetId, a.tenantId, WholeSeconds(e'.now)) == Accept(c);
    assert Offered(env, e', c.nonce);
  }

  lemma {:induction false} DrawStepOk(env: Env, sh: Shared, e: Eval)
    requires EvalOk(env, sh, e) && e.pc.Concluding?
    ensures var (sh', e') := AfterDraw(env, sh, e, e.pc.v);
            EvalOk(env, sh', e') && StepShape(sh, e, sh', e')
  {
  }

  lemma {:induction false} StepEvalOk(env: Env, sh: Shared, e: Eval)
    requires EvalOk(env, sh, e)
    ensures var (sh', e') := StepEval(env, sh, e); EvalOk(env, sh', e') && StepShape(sh, e, sh', e')
  {
    match e.pc
    case Start => GetStepOk(env, sh, e);
    case Peeking(_, _) => PeekStepOk(env, sh, e);
    case Consuming(_) => ConsumeStepOk(env, sh, e);
    case Concluding(_) => DrawStepOk(env, sh, e);
    case Done(_) =>
  }

  /** What a step of evaluation `k` leaves of the others, and of itself. */
  lemma {:induction false} AdvanceEvals(env: Env, used0: set<string>, s: Sys, k: nat)
    requires SysOk(env, used0, s) && k < |s.evals|
    ensures var s' := Apply(env, s, Advance(k));
            && (forall j | 0 <= j < |s'.evals| :: EvalOk(env, s'.sh, s'.evals[j]))
            && StepShape(s.sh, s.evals[k], s'.sh, s'.evals[k])
  {
    var s' := Apply(env, s, Advance(k));
    StepEvalOk(env, s.sh, s.evals[k]);
    forall j | 0 <= j < |s.evals| ensures EvalOk(env, s'.sh, s'.evals[j]) {
      if j != k { EvalOkMonotone(env, s.sh, s'.sh, s.evals[j]); }
    }
  }

  /** The used nonces are still those burned by somebody. */
  lemma {:induction false} AdvanceAccounts(env: Env, used0: set<string>, s: Sys, k: nat)
    requires SysOk(env, used0, s) && k < |s.evals|
    requires StepShape(s.sh, s.evals[k], Apply(env, s, Advance(k)).sh, Apply(env, s, Advance(k)).evals[k])
    ensures var s' := Apply(env, s, Advance(k));
            forall n | n in s'.sh.used && n !in used0 :: exists j | 0 <= j < |s'.evals| :: s'.evals[j].burned == Some(n)
  {
    var s' := Apply(env, s, Advance(k));
    forall n | n in s'.sh.used && n !in used0 ensures exists j | 0 <= j < |s'.evals| :: s'.evals[j].burned == Some(n) {
      if n in s.sh.used {
        var j :| 0 <= j < |s.evals| && s.evals[j].burned == Some(n);
        assert s'.evals[j].burned == Some(n);
      } else {
        assert s'.evals[k].burned == Some(n);
      }
    }
  }

  /** Burned nonces and drawn numbers stay pairwise distinct: what is new was not there before. */
  lemma {:induction false} StaysDistinct(s: Sys, k: nat, s': Sys)
    requires k < |s.evals| == |s'.evals| && s'.evals == s.evals[k := s'.evals[k]] && StepShape(s.sh, s.evals[k], s'.sh, s'.evals[k])
    requires forall j | 0 <= j < |s.evals| ::
               && (s.evals[j].burned.Some? ==> s.evals[j].burned.value in s.sh.used)
               && (s.evals[j].pc.Done? ==> s.evals[j].pc.d.sequence < s.sh.counter)
    requires BurnsDistinct(s) && DrawsDistinct(s)
    ensures BurnsDistinct(s') && DrawsDistinct(s')
  {
    forall i, j | 0 <= i < j < |s'.evals| && s'.evals[i].burned.Some? && s'.evals[j].burned.Some?
      ensures s'.evals[i].burned.value != s'.evals[j].burned.value
    {
      assert i != k ==> s'.evals[i] == s.evals[i];
      assert j != k ==> s'.evals[j] == s.evals[j];
    }
    forall i, j | 0 <= i < j < |s'.evals| && s'.evals[i].pc.Done? && s'.evals[j].pc.Done?
      ensures s'.evals[i].pc.d.sequence != s'.evals[j].pc.d.sequence
    {
      assert i != k ==> s'.evals[i] == s.evals[i];
      assert j != k ==> s'.evals[j] == s.evals[j];
    }
  }

  lemma {:induction false} AdvanceOk(env: Env, used0: set<string>, s: Sys, k: nat)
    requires SysOk(env, used0, s) && k < |s.evals|
    ensures SysOk(env, used0, Apply(env, s, Advance(k)))
  {
    var s' := Apply(env, s, Advance(k));
    AdvanceEvals(env, used0, s, k);
    AdvanceAccounts(env, used0, s, k);
    forall j | 0 <= j < |s.evals|
      ensures s.evals[j].burned.Some? ==> s.evals[j].burned.value in s.sh.used
      ensures s.evals[j].pc.Done? ==> s.evals[j].pc.d.sequence < s.sh.counter
    {
      assert EvalOk(env, s.sh, s.evals[j]);
    }
    StaysDistinct(s, k, s');
  }

  lemma {:induction false} ExtendDistinct(s: Sys, e: Eval)
    requires BurnsDistinct(s) && DrawsDistinct(s) && e.burned.None? && !e.pc.Done?
    ensures BurnsDistinct(s.(evals := s.evals + [e])) && DrawsDistinct(s.(evals := s.evals + [e]))
  {
  }

  lemma {:induction false} BeginOk(env: Env, used0: set<string>, s: Sys, e: Eval)
    requires SysOk(env, used0, s) && e.pc == Start && e.snapshot.None? && e.burned.None?
    ensures SysOk(env, used0, s.(evals := s.evals + [e]))
  {
    var s' := s.(evals := s.evals + [e]);
    ExtendDistinct(s, e);
    forall n | n in s'.sh.used && n !in used0 ensures exists j | 0 <= j < |s'.evals| :: s'.evals[j].burned == Some(n) {
      var j :| 0 <= j < |s.evals| && s.evals[j].burned == Some(n);
      assert s'.evals[j] == s.evals[j];
    }
  }

  lemma {:induction false} StoreOk(env: Env, used0: set<string>, s: Sys, assets: map<string, Asset>)
    requires SysOk(env, used0, s)
    ensures SysOk(env, used0, s.(sh := s.sh.(assets := assets)))
  {
    var s' := s.(sh := s.sh.(assets := assets));
    forall j | 0 <= j < |s.evals| ensures EvalOk(env, s'.sh, s'.evals[j]) {
      EvalOkMonotone(env, s.sh, s'.sh, s.evals[j]);
    }
  }

  lemma {:induction false} ApplyOk(env: Env, used0: set<string>, s: Sys, action: Action)
    requires SysOk(env, used0, s)
    ensures SysOk(env, used0, Apply(env, s, action))
  {
    match action
    case Advance(k) => if k < |s.evals| { AdvanceOk(env, used0, s, k); }
    case Begin(req, now, ticket) => BeginOk(env, used0, s, Eval(req, now, ticket, None, None, Start));
    case RegisterStep(a) => StoreOk(env, used0, s, RegisterAsset(s.sh.assets, a).0);
    case WithdrawStep(id) => StoreOk(env, used0, s, WithdrawAsset(s.sh.assets, id).0);
  }

  lemma {:induction false} ExecOk(env: Env, sh: Shared, actions: seq<Action>)
    ensures SysOk(env, sh.used, Exec(env, Sys(sh, []), actions))
  {
    if actions != [] {
      var before := actions[..|actions| - 1];
      ExecOk(env, sh, before);
      ApplyOk(env, sh.used, Exec(env, Sys(sh, []), before), actions[|actions| - 1]);
    }
  }

  // ---------- single use ----------

  /**
   * Over every interleaving: a nonce is burned by at most one evaluation and never if it was burned before; a decided
   * evaluation burned exactly one nonce if and only if it granted a consent-gated asset; the used set is what was used
   * before together with what was burned; decision numbers are pairwise distinct.
   */
  lemma {:induction false} SingleUse(env: Env, sh: Shared, actions: seq<Action>)
    ensures var s := Exec(env, Sys(sh, []), actions);
            && (forall j, k | 0 <= j < k < |s.evals| && s.evals[j].burned.Some? && s.evals[k].burned.Some? ::
                  s.evals[j].burned != s.evals[k].burned)
            && (forall k | 0 <= k < |s.evals| && s.evals[k].pc.Done? ::
                  s.evals[k].burned.Some? <==>
                    IsGrant(s.evals[k].pc.d.state) && s.evals[k].snapshot.Some? && s.evals[k].snapshot.value.requiresConsent)
            && (forall n :: n in s.sh.used <==>
                  n in sh.used || exists k | 0 <= k < |s.evals| :: s.evals[k].burned == Some(n))
            && (forall k | 0 <= k < |s.evals| && s.evals[k].burned.Some? :: s.evals[k].burned.value !in sh.used)
            && (forall j, k | 0 <= j < k < |s.evals| && s.evals[j].pc.Done? && s.evals[k].pc.Done? ::
                  s.evals[j].pc.d.sequence != s.evals[k].pc.d.sequence)
  {
    var s := Exec(env, Sys(sh, []), actions);
    ExecOk(env, sh, actions);
    forall k | 0 <= k < |s.evals| ensures EvalOk(env, s.sh, s.evals[k]) {}
  }

  /** A finished request that passed every other rule and offered the one token `t`, valid for it, with nonce `n`. */
  ghost predicate Contender(env: Env, e: Eval, t: string, n: string) {
    && e.pc.Done? && InGate(env, e) && e.req.consentTokens == [t]
    && var o := VerifyClaim(env.codec, t, e.snapshot.value.assetId, e.snapshot.value.tenantId, WholeSeconds(e.now));
       o.Accept? && o.claim.nonce == n
  }

  lemma {:induction false} ContenderOutcome(env: Env, sh: Shared, e: Eval, t: string, n: string)
    requires EvalOk(env, sh, e) && Contender(env, e, t, n)
    ensures IsGrant(e.pc.d.state) || (e.pc.d.state == Blocked && n in sh.used)
  {
    var a := e.snapshot.value;
    VerifyImpliesPeek(env.codec, {}, t, a.assetId, a.tenantId, WholeSeconds(e.now));
    assert !SomeCrash(env, e, a);
    if e.pc.d.state == Blocked {
      assert Spent(env, sh.used, e, a, e.req.consentTokens[0]);
    }
  }

  lemma {:induction false} GrantIffBurned(env: Env, sh: Shared, e: Eval, t: string, n: string)
    requires EvalOk(env, sh, e) && Contender(env, e, t, n)
    ensures IsGrant(e.pc.d.state) <==> e.burned == Some(n)
  {
    assert e.burned.Some? ==> Offered(env, e, e.burned.value);
  }

  /**
   * Any number of otherwise-passing requests sharing one fresh, in-window token yield exactly one grant: under every
   * interleaving, once they are all decided, one of them granted and no other did, unless the nonce went to an
   * evaluation outside the group.
   */
  lemma {:induction false} ExactlyOneGrant(env: Env, sh: Shared, actions: seq<Action>, group: set<int>, t: string, n: string)
    requires n !in sh.used && exists k :: k in group
    requires var s := Exec(env, Sys(sh, []), actions);
             && (forall k | k in group :: 0 <= k < |s.evals| && Contender(env, s.evals[k], t, n))
             && (forall k | 0 <= k < |s.evals| && k !in group :: s.evals[k].burned != Some(n))
    ensures var s := Exec(env, Sys(sh, []), actions);
            exists k | k in group ::
              IsGrant(s.evals[k].pc.d.state) && forall j | j in group && j != k :: s.evals[j].pc.d.state == Blocked
  {
    var first :| first in group;
    var s := Exec(env, Sys(sh, []), actions);
    SingleUse(env, sh, actions);
    EvalsOk(env, sh, actions);
    GroupOutcome(env, s, group, t, n);
    assert n in s.sh.used by {
      assert IsGrant(s.evals[first].pc.d.state) ==> s.evals[first].burned == Some(n);
    }
    var k :| 0 <= k < |s.evals| && s.evals[k].burned == Some(n);
    assert k in group && IsGrant(s.evals[k].pc.d.state);
  }

  lemma {:induction false} EvalsOk(env: Env, sh: Shared, actions: seq<Action>)
    ensures var s := Exec(env, Sys(sh, []), actions);
            forall k | 0 <= k < |s.evals| :: EvalOk(env, s.sh, s.evals[k])
  {
    ExecOk(env, sh, actions);
  }

  lemma {:induction false} GroupOutcome(env: Env, s: Sys, group: set<int>, t: string, n: string)
    requires forall k | 0 <= k < |s.evals| :: EvalOk(env, s.sh, s.evals[k])
    requires forall k | k in group :: 0 <= k < |s.evals| && Contender(env, s.evals[k], t, n)
    ensures forall k | k in group && s.evals[k].pc.Done? ::
              && (IsGrant(s.evals[k].pc.d.state) <==> s.evals[k].burned == Some(n))
              && (IsGrant(s.evals[k].pc.d.state) || (s.evals[k].pc.d.state == Blocked && n in s.sh.used))
  {
    forall k | k in group && s.evals[k].pc.Done?
      ensures && (IsGrant(s.evals[k].pc.d.state) <==> s.evals[k].burned == Some(n))
              && (IsGrant(s.evals[k].pc.d.state) || (s.evals[k].pc.d.state == Blocked && n in s.sh.used))
    {
      GrantIffBurned(env, s.sh, s.evals[k], t, n);
      ContenderOutcome(env, s.sh, s.evals[k], t, n);
    }
  }

  // ---------- withdrawal ----------

  /** An evaluation of `id` that has not read the store yet, or that was stopped without burning anything. */
  ghost predicate Stopped(e: Eval, id: string) {
    e.req.assetId == id ==>
      || e.pc.Start?
      || (e.burned.None? && ((e.pc.Concluding? && e.pc.v.state == Blocked) || (e.pc.Done? && e.pc.d.state == Blocked)))
  }

  ghost predicate IsWithdrawn(s: Sys, id: string) {
    id in s.sh.assets && s.sh.assets[id].withdrawn
  }

  ghost predicate Cut(s: Sys, id: string, from: set<int>) {
    && IsWithdrawn(s, id)
    && forall k | 0 <= k < |s.evals| && k !in from :: Stopped(s.evals[k], id) && (s.evals[k].pc.Start? ==> s.evals[k].burned.None?)
  }

  lemma {:induction false} CutStep(env: Env, s: Sys, id: string, from: set<int>, action: Action)
    requires Cut(s, id, from) && forall k | k in from :: k < |s.evals|
    ensures Cut(Apply(env, s, action), id, from)
    ensures |Apply(env, s, action).evals| >= |s.evals|
  {
    var s' := Apply(env, s, action);
    if action.Advance? && action.k < |s.evals| {
      assert forall k | 0 <= k < |s.evals| && k != action.k :: s'.evals[k] == s.evals[k];
    }
  }

  /**
   * Withdrawal linearises at the store: once a withdrawal has run, the asset stays withdrawn in every later state, and
   * every evaluation whose `get` comes later, begun before or after, ends Blocked and burns no nonce.
   */
  lemma {:induction false} WithdrawalCutsOff(env: Env, sh: Shared, before: seq<Action>, id: string, later: seq<Action>)
    requires id in Exec(env, Sys(sh, []), before).sh.assets
    ensures var s0 := Exec(env, Sys(sh, []), before);
            var s := Exec(env, Apply(env, s0, WithdrawStep(id)), later);
            && IsWithdrawn(s, id)
            && (forall k | 0 <= k < |s.evals| && (k >= |s0.evals| || s0.evals[k].pc.Start?)
                           && s.evals[k].req.assetId == id && s.evals[k].pc.Done? ::
                  s.evals[k].pc.d.state == Blocked && s.evals[k].burned.None?)
  {
    var s0 := Exec(env, Sys(sh, []), before);
    var pending := set k | 0 <= k < |s0.evals| && !s0.evals[k].pc.Start?;
    EvalsOk(env, sh, before);
    CutForever(env, Apply(env, s0, WithdrawStep(id)), id, pending, later);
  }

  lemma {:induction false} CutForever(env: Env, s: Sys, id: string, from: set<int>, later: seq<Action>)
    requires Cut(s, id, from) && forall k | k in from :: k < |s.evals|
    ensures Cut(Exec(env, s, later), id, from)
    ensures |Exec(env, s, later).evals| >= |s.evals|
  {
    if later != [] {
      CutForever(env, s, id, from, later[..|later| - 1]);
      CutStep(env, Exec(env, s, later[..|later| - 1]), id, from, later[|later| - 1]);
    }
  }

  // ---------- one evaluation on its own is the sequential evaluation ----------

  function Rank(env: Env, e: Eval): nat {
    var n := |e.req.consentTokens|;
    match e.pc
    case Done(_) => 0
    case Concluding(v) => if ReasonFits(env, v.reason) then 1 else 2
    case Consuming(i) => if i <= n then 3 + (n - i) else 3
    case Peeking(i, _) => 5 + n + if i <= n then n - i else 0
    case Start => 6 + 2 * n
  }

  /** Runs one evaluation to its end with nothing in between. */
  ghost function RunAlone(env: Env, sh: Shared, e: Eval): (Shared, Eval)
    decreases Rank(env, e)
  {
    if e.pc.Done? || ((e.pc.Peeking? || e.pc.Consuming?) && e.snapshot.None?) then (sh, e)
    else
      RankFalls(env, sh, e);
      var (sh', e') := StepEval(env, sh, e);
      RunAlone(env, sh', e')
  }

  lemma {:induction false} RankFalls(env: Env, sh: Shared, e: Eval)
    requires !e.pc.Done? && (e.pc.Peeking? || e.pc.Consuming? ==> e.snapshot.Some?)
    ensures Rank(env, StepEval(env, sh, e).1) < Rank(env, e)
  {
  }

  lemma {:induction false} AloneConcludes(env: Env, sh: Shared, e: Eval)
    requires e.pc.Concluding?
    ensures var (d, next) := Conclude(env, e.pc.v, e.req, e.now, e.ticket, sh.counter);
            RunAlone(env, sh, e) == (sh.(counter := next), e.(pc := Done(d)))
  {
    if !ReasonFits(env, e.pc.v.reason) {
      var sh1 := sh.(counter := sh.counter + 1);
      var e1 := e.(pc := Concluding(Block(InternalError, e.req.assetId)));
      assert RunAlone(env, sh, e) == RunAlone(env, sh1, e1);
      var (sh2, e2) := StepEval(env, sh1, e1);
      assert RunAlone(env, sh1, e1) == RunAlone(env, sh2, e2);
    }
  }

  /** The end of an evaluation, from its verdict and what it burned. */
  ghost function Ending(env: Env, sh: Shared, e: Eval, v: Verdict, burned: Option<string>): (Shared, Eval) {
    var (d, next) := Conclude(env, v, e.req, e.now, e.ticket, sh.counter);
    (Shared(sh.assets, sh.used + NonceSet(burned), next), e.(burned := burned, pc := Done(d)))
  }

  ghost function GateVerdict(req: Request, a: Asset, r: ConsumeResult): (Verdict, Option<string>) {
    match r
    case Consumed(n) => (Granted(req, a), Some(n))
    case NoneConsumed => (Refusal(ConsentReplay, req, a), None)
    case ConsumeCrashed => (Refusal(InternalError, req, a), None)
  }

  lemma {:induction false} AloneEnds(env: Env, sh: Shared, e: Eval, v: Verdict, burned: Option<string>)
    requires e.pc == Concluding(v) && e.burned == burned && NonceSet(burned) <= sh.used
    ensures RunAlone(env, sh, e) == Ending(env, sh, e, v, burned)
  {
    AloneConcludes(env, sh, e);
    assert sh.used + NonceSet(burned) == sh.used;
  }

  lemma {:induction false} AloneConsumes(env: Env, sh: Shared, e: Eval, a: Asset, i: nat)
    requires e.pc == Consuming(i) && e.snapshot == Some(a) && i <= |e.req.consentTokens| && e.burned.None?
    ensures var r := ConsumeLoop(env.codec, sh.used, e.req.consentTokens[i..], a, WholeSeconds(e.now));
            RunAlone(env, sh, e) == Ending(env, sh, e, GateVerdict(e.req, a, r).0, GateVerdict(e.req, a, r).1)
    decreases |e.req.consentTokens| - i
  {
    var (sh', e') := StepEval(env, sh, e);
    if i < |e.req.consentTokens| {
      var rest := e.req.consentTokens[i..];
      assert rest[0] == e.req.consentTokens[i] && rest[1..] == e.req.consentTokens[i + 1..];
      match Verify(env.codec, sh.used, rest[0], a.assetId, a.tenantId, WholeSeconds(e.now))
      case Accept(c) =>
        AloneEnds(env, sh', e', Granted(e.req, a), Some(c.nonce));
        assert sh'.used + {c.nonce} == sh.used + {c.nonce};
      case Reject(_) => AloneConsumes(env, sh, e', a, i + 1);
      case Crash => AloneEnds(env, sh, e', Refusal(InternalError, e.req, a), None);
    } else {
      AloneEnds(env, sh, e', Refusal(ConsentReplay, e.req, a), None);
    }
  }

  ghost function PeekVerdict(env: Env, used: set<string>, e: Eval, a: Asset, r: PeekResult): (Verdict, Option<string>) {
    match r
    case PeekCrashed => (Refusal(InternalError, e.req, a), None)
    case PeekFailed(last) => (Refusal(PeekReason(last), e.req, a), None)
    case PeekPassed => GateVerdict(e.req, a, ConsumeLoop(env.codec, used, e.req.consentTokens, a, WholeSeconds(e.now)))
  }

  lemma {:induction false} AlonePeeks(env: Env, sh: Shared, e: Eval, a: Asset, i: nat, last: Option<TokenError>)
    requires e.pc == Peeking(i, last) && e.snapshot == Some(a) && i <= |e.req.consentTokens| && e.burned.None?
    ensures var r := PeekLoop(env.codec, sh.used, e.req.consentTokens[i..], a, WholeSeconds(e.now), last);
            var (v, burned) := PeekVerdict(env, sh.used, e, a, r);
            RunAlone(env, sh, e) == Ending(env, sh, e, v, burned)
    decreases |e.req.consentTokens| - i
  {
    var (sh', e') := StepEval(env, sh, e);
    if i < |e.req.consentTokens| {
      var rest := e.req.consentTokens[i..];
      assert rest[0] == e.req.consentTokens[i] && rest[1..] == e.req.consentTokens[i + 1..];
      match Peek(env.codec, sh.used, rest[0], a.assetId, a.tenantId, WholeSeconds(e.now))
      case Accept(_) =>
        AloneConsumes(env, sh, e', a, 0);
        assert e.req.consentTokens[0..] == e.req.consentTokens;
      case Reject(err) => AlonePeeks(env, sh, e', a, i + 1, Some(err));
      case Crash => AloneEnds(env, sh, e', Refusal(InternalError, e.req, a), None);
    } else {
      AloneEnds(env, sh, e', Refusal(PeekReason(last), e.req, a), None);
    }
  }

  ghost function GateOutcome(env: Env, used: set<string>, e: Eval, a: Asset): (Verdict, Option<string>) {
    PeekVerdict(env, used, e, a, PeekLoop(env.codec, used, e.req.consentTokens, a, WholeSeconds(e.now), None))
  }

  /** An evaluation that its `get` already decides. */
  lemma {:induction false} AloneDecided(env: Env, sh: Shared, e: Eval, v: Verdict)
    requires e.pc.Start? && e.burned.None? && AfterGet(env, sh, e).pc == Concluding(v)
    ensures RunAlone(env, sh, e) == Ending(env, sh, AfterGet(env, sh, e), v, None)
  {
    AloneEnds(env, sh, AfterGet(env, sh, e), v, None);
  }

  /** An evaluation that its `get` sends into the consent gate. */
  lemma {:induction false} AloneGated(env: Env, sh: Shared, e: Eval)
    requires e.pc.Start? && e.burned.None? && AfterGet(env, sh, e).pc.Peeking?
    ensures e.req.assetId in sh.assets
    ensures var a := sh.assets[e.req.assetId];
            var (v, burned) := GateOutcome(env, sh.used, e, a);
            RunAlone(env, sh, e) == Ending(env, sh, AfterGet(env, sh, e), v, burned)
  {
    var e' := AfterGet(env, sh, e);
    AlonePeeks(env, sh, e', e'.snapshot.value, 0, None);
    assert e.req.consentTokens[0..] == e.req.consentTokens;
  }

  /** What the sequential gateway makes of the same cases. */
  lemma {:induction false} JudgeByCase(env: Env, sh: Shared, e: Eval)
    requires e.pc.Start?
    ensures AfterGet(env, sh, e).pc.Peeking? || AfterGet(env, sh, e).pc.Concluding?
    ensures AfterGet(env, sh, e).pc.Concluding? ==>
              Judge(env, sh.assets, sh.used, e.req, e.now) == (AfterGet(env, sh, e).pc.v, None)
    ensures AfterGet(env, sh, e).pc.Peeking? ==>
              && e.req.assetId in sh.assets
              && Judge(env, sh.assets, sh.used, e.req, e.now) == GateOutcome(env, sh.used, e, sh.assets[e.req.assetId])
  {
  }

  /** The atomic steps refine the sequential gateway: run without interference, they give its decision and effects. */
  lemma {:induction false} AloneIsSequential(env: Env, sh: Shared, req: Request, now: int, ticket: string)
    ensures var (v, burned) := Judge(env, sh.assets, sh.used, req, now);
            var (d, next) := Conclude(env, v, req, now, ticket, sh.counter);
            var (sh', e') := RunAlone(env, sh, Eval(req, now, ticket, None, None, Start));
            sh' == Shared(sh.assets, sh.used + NonceSet(burned), next) && e'.pc == Done(d) && e'.burned == burned
  {
    var e := Eval(req, now, ticket, None, None, Start);
    JudgeByCase(env, sh, e);
    if AfterGet(env, sh, e).pc.Peeking? {
      AloneGated(env, sh, e);
    } else {
      AloneDecided(env, sh, e, AfterGet(env, sh, e).pc.v);
    }
  }
}
