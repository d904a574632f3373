/** The four-state policy gateway: ordered rules, the two-phase consent gate, and decision sequence numbers. */
module Gateway {
  import opened Wrappers
  import opened Mandate
  import opened Tokens
  import opened AssetStores

  datatype PolicyState = Allowed | Conditional | Blocked | HumanReview

  datatype Request = Request(
    requestId: string, assetId: string, tenantId: string, action: string,
    authScopes: seq<string>, consentTokens: seq<string>, promptText: string)

  datatype Reason =
    | UnknownAsset
    | RightsWithdrawn
    | MandateInvalid
    | CrossTenant
    | NotYetValid
    | RightsExpired
    | PromptInjection
    | ScopeNotGranted(scope: string)
    | OutsideConstraints(action: string)
    | AwaitingConsent
    | ConsentReplay
    | ConsentExpired
    | ConsentInvalid(last: Option<TokenError>)
    | HighRisk(action: string)
    | WithinScope
    | InternalError

  /** What the rules decide, before a sequence number is drawn. */
  datatype Verdict = Verdict(state: PolicyState, reason: Reason, assetId: string)

  datatype Decision = Decision(
    requestId: string, assetId: string, state: PolicyState, reason: Reason,
    ticket: Option<string>, evaluatedAt: int, sequence: nat)

  /** The gateway's fixed surroundings: keys, codecs, prompt screen, and the printed length of a quoted scope. */
  datatype Env = Env(
    signer: Signer, keys: map<string, Key>, codec: Codec, injection: string -> bool, quotedLength: string -> nat)

  const HIGH_RISK_ACTIONS := ["publish", "train_export", "bulk_export"]
  const MAX_REASON := 1024
  const MICROS := 1000000

  /** `int(now.timestamp())`: whole seconds, truncated toward zero. */
  function WholeSeconds(now: int): int {
    if now >= 0 then now / MICROS else -(-now / MICROS)
  }

  // ---------- rules before the consent gate ----------

  function FirstUngranted(scopes: seq<string>, granted: seq<string>): Option<string> {
    if scopes == [] then None
    else if scopes[0] !in granted then Some(scopes[0])
    else FirstUngranted(scopes[1..], granted)
  }

  function Block(reason: Reason, assetId: string): Verdict {
    Verdict(Blocked, reason, assetId)
  }

  /** The first rule that stops the request, if any. */
  function Rules(env: Env, a: Asset, req: Request, now: int): Option<Reason> {
    if a.withdrawn then Some(RightsWithdrawn)
    else if a.custodianId !in env.keys || !VerifyMandate(env.signer, a, env.keys[a.custodianId]) then Some(MandateInvalid)
    else if req.tenantId != a.tenantId then Some(CrossTenant)
    else if now < a.validFrom then Some(NotYetValid)
    else if now > a.validUntil then Some(RightsExpired)
    else if env.injection(req.promptText) then Some(PromptInjection)
    else match FirstUngranted(req.authScopes, a.grantedScopes)
      case Some(scope) => Some(ScopeNotGranted(scope))
      case None =>
        if a.usageConstraints != [] && req.action !in a.usageConstraints then Some(OutsideConstraints(req.action)) else None
  }

  // ---------- the two-phase consent gate ----------

  datatype PeekResult = PeekPassed | PeekFailed(last: Option<TokenError>) | PeekCrashed

  /** Stops at the first token that peeks well; remembers the last token error. */
  function PeekLoop(codec: Codec, used: set<string>, tokens: seq<string>, a: Asset, now: int, last: Option<TokenError>): PeekResult {
    if tokens == [] then PeekFailed(last)
    else match Peek(codec, used, tokens[0], a.assetId, a.tenantId, now)
      case Accept(_) => PeekPassed
      case Reject(e) => PeekLoop(codec, used, tokens[1..], a, now, Some(e))
      case Crash => PeekCrashed
  }

  datatype ConsumeResult = Consumed(nonce: string) | NoneConsumed | ConsumeCrashed

  function ConsumeLoop(codec: Codec, used: set<string>, tokens: seq<string>, a: Asset, now: int): ConsumeResult {
    if tokens == [] then NoneConsumed
    else match Verify(codec, used, tokens[0], a.assetId, a.tenantId, now)
      case Accept(c) => Consumed(c.nonce)
      case Reject(_) => ConsumeLoop(codec, used, tokens[1..], a, now)
      case Crash => ConsumeCrashed
  }

  function PeekReason(last: Option<TokenError>): Reason {
    if last == Some(ReplayDetected) then ConsentReplay
    else if last == Some(TokenExpired) then ConsentExpired
    else ConsentInvalid(last)
  }

  datatype GateResult = Pass(nonce: string) | Refuse(reason: Reason)

  function Gate(codec: Codec, used: set<string>, tokens: seq<string>, a: Asset, now: int): GateResult {
    match PeekLoop(codec, used, tokens, a, now, None)
    case PeekCrashed => Refuse(InternalError)
    case PeekFailed(last) => Refuse(PeekReason(last))
    case PeekPassed =>
      match ConsumeLoop(codec, used, tokens, a, now)
      case ConsumeCrashed => Refuse(InternalError)
      case NoneConsumed => Refuse(ConsentReplay)
      case Consumed(nonce) => Pass(nonce)
  }

  // ---------- the whole evaluation ----------

  function Granted(req: Request, a: Asset): Verdict {
    if req.action in HIGH_RISK_ACTIONS then Verdict(HumanReview, HighRisk(req.action), a.assetId)
    else Verdict(Allowed, WithinScope, a.assetId)
  }

  /** An internal error is reported against the request's own asset id. */
  function Refusal(reason: Reason, req: Request, a: Asset): Verdict {
    Block(reason, if reason == InternalError then req.assetId else a.assetId)
  }

  /** The verdict, and the nonce burned on the way. */
  function Judge(env: Env, assets: map<string, Asset>, used: set<string>, req: Request, now: int): (Verdict, Option<string>) {
    if req.assetId !in assets then (Block(UnknownAsset, req.assetId), None)
    else
      var a := assets[req.assetId];
      match Rules(env, a, req, now)
      case Some(reason) => (Block(reason, a.assetId), None)
      case None =>
        if !a.requiresConsent then (Granted(req, a), None)
        else if req.consentTokens == [] then (Verdict(Conditional, AwaitingConsent, a.assetId), None)
        else match Gate(env.codec, used, req.consentTokens, a, WholeSeconds(now))
          case Refuse(reason) => (Refusal(reason, req, a), None)
          case Pass(nonce) => (Granted(req, a), Some(nonce))
  }

  /** Only a quoted scope can push a reason past the length the decision schema accepts. */
  function ReasonFits(env: Env, reason: Reason): bool {
    reason.ScopeNotGranted? ==> 40 + env.quotedLength(reason.scope) <= MAX_REASON
  }

  function MakeDecision(v: Verdict, req: Request, now: int, ticket: string, sequence: nat): Decision {
    Decision(req.requestId, v.assetId, v.state, v.reason, if v.state == HumanReview then Some(ticket) else None, now, sequence)
  }

  /** Draws a sequence number; an unprintable reason wastes one and falls back to the internal-error block. */
  function Conclude(env: Env, v: Verdict, req: Request, now: int, ticket: string, counter: nat): (Decision, nat) {
    if ReasonFits(env, v.reason) then (MakeDecision(v, req, now, ticket, counter), counter + 1)
    else (MakeDecision(Block(InternalError, req.assetId), req, now, ticket, counter + 1), counter + 2)
  }

  function NonceSet(nonce: Option<string>): set<string> {
    if nonce.Some? then {nonce.value} else {}
  }

  class PolicyGateway {
    const env: Env
    const store: AssetStore
    const tokens: ConsentTokenStore
    var counter: nat

    ghost predicate Valid()
      reads this
    {
      env.codec == tokens.codec
    }

    constructor (env: Env, store: AssetStore, tokens: ConsentTokenStore)
      requires env.codec == tokens.codec
      ensures Valid() && this.env == env && this.store == store && this.tokens == tokens && counter == 0
    {
      this.env, this.store, this.tokens, counter := env, store, tokens, 0;
    }

    method NextSequence() returns (n: nat)
      modifies this`counter
      ensures n == old(counter) && counter == old(counter) + 1
    {
      n := counter;
      counter := counter + 1;
    }

    method Evaluate(req: Request, now: int, ticket: string) returns (d: Decision)
      requires Valid()
      modifies this`counter, tokens`usedNonces
      ensures var (v, burned) := Judge(env, store.assets, old(tokens.usedNonces), req, now);
              && (d, counter) == Conclude(env, v, req, now, ticket, old(counter))
              && tokens.usedNonces == old(tokens.usedNonces) + NonceSet(burned)
    {
      var v := EvaluateInner(req, now);
      var n := NextSequence();
      if ReasonFits(env, v.reason) {
        return MakeDecision(v, req, now, ticket, n);
      }
      n := NextSequence();
      return MakeDecision(Block(InternalError, req.assetId), req, now, ticket, n);
    }

    method EvaluateInner(req: Request, now: int) returns (v: Verdict)
      requires Valid()
      modifies tokens`usedNonces
      ensures var (verdict, burned) := Judge(env, store.assets, old(tokens.usedNonces), req, now);
              v == verdict && tokens.usedNonces == old(tokens.usedNonces) + NonceSet(burned)
    {
      var found := store.Get(req.assetId);
      if found.Err? { return Block(UnknownAsset, req.assetId); }
      var a := found.value;
      if a.withdrawn { return Block(RightsWithdrawn, a.assetId); }
      if a.custodianId !in env.keys || !VerifyMandate(env.signer, a, env.keys[a.custodianId]) {
        return Block(MandateInvalid, a.assetId);
      }
      if req.tenantId != a.tenantId { return Block(CrossTenant, a.assetId); }
      if now < a.validFrom { return Block(NotYetValid, a.assetId); }
      if now > a.validUntil { return Block(RightsExpired, a.assetId); }
      if env.injection(req.promptText) { return Block(PromptInjection, a.assetId); }
      var k := 0;
      while k < |req.authScopes|
        invariant 0 <= k <= |req.authScopes|
        invariant FirstUngranted(req.authScopes[k..], a.grantedScopes) == FirstUngranted(req.authScopes, a.grantedScopes)
        invariant tokens.usedNonces == old(tokens.usedNonces)
      {
        if req.authScopes[k] !in a.grantedScopes { return Block(ScopeNotGranted(req.authScopes[k]), a.assetId); }
        k := k + 1;
      }
      if a.usageConstraints != [] && req.action !in a.usageConstraints {
        return Block(OutsideConstraints(req.action), a.assetId);
      }
      if a.requiresConsent {
        if req.consentTokens == [] { return Verdict(Conditional, AwaitingConsent, a.assetId); }
        var refused := ConsentGate(req.consentTokens, a, WholeSeconds(now));
        if refused.Some? { return Refusal(refused.value, req, a); }
      }
      return Granted(req, a);
    }

    /** The peek loop and the consume loop; answers the reason for refusing, if any. */
    method ConsentGate(list: seq<string>, a: Asset, now: int) returns (refused: Option<Reason>)
      requires Valid()
      modifies tokens`usedNonces
      ensures var g := Gate(env.codec, old(tokens.usedNonces), list, a, now);
              && refused == (if g.Pass? then None else Some(g.reason))
              && tokens.usedNonces == old(tokens.usedNonces) + if g.Pass? then {g.nonce} else {}
    {
      var used := tokens.usedNonces;
      var tamper: Option<TokenError>, found, k := None, false, 0;
      while k < |list| && !found
        invariant 0 <= k <= |list|
        invariant tokens.usedNonces == used
        invariant PeekLoop(env.codec, used, list, a, now, None)
               == if found then PeekPassed else PeekLoop(env.codec, used, list[k..], a, now, tamper)
        decreases |list| - k, !found
      {
        var o := tokens.VerifyWithoutConsuming(list[k], a.assetId, a.tenantId, now);
        match o {
          case Accept(_) => found := true;
          case Reject(e) => tamper := Some(e); k := k + 1;
          case Crash => return Some(InternalError);
        }
      }
      if !found { return Some(PeekReason(tamper)); }
      k := 0;
      while k < |list|
        invariant 0 <= k <= |list|
        invariant tokens.usedNonces == used
        invariant ConsumeLoop(env.codec, used, list, a, now) == ConsumeLoop(env.codec, used, list[k..], a, now)
      {
        var o := tokens.VerifyToken(list[k], a.assetId, a.tenantId, now);
        match o {
          case Accept(c) => return None;
          case Reject(_) => k := k + 1;
          case Crash => return Some(InternalError);
        }
      }
      return Some(ConsentReplay);
    }
  }
}
