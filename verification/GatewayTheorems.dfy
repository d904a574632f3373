/** What a decision means: exact conditions for each state, and the two-phase consent gate. */
module GatewayTheorems {
  import opened Wrappers
  import opened Base64
  import opened Mandate
  import opened Tokens
  import opened Gateway

  // ---------- the rules, without their order ----------

  /** Every condition a request must meet before consent is asked for. */
  ghost predicate Cleared(env: Env, a: Asset, req: Request, now: int) {
    && !a.withdrawn
    && a.custodianId in env.keys && VerifyMandate(env.signer, a, env.keys[a.custodianId])
    && req.tenantId == a.tenantId
    && a.validFrom <= now <= a.validUntil
    && !env.injection(req.promptText)
    && (forall s | s in req.authScopes :: s in a.grantedScopes)
    && (a.usageConstraints == [] || req.action in a.usageConstraints)
  }

  lemma {:induction false} UngrantedIff(scopes: seq<string>, granted: seq<string>)
    ensures FirstUngranted(scopes, granted).None? <==> forall s | s in scopes :: s in granted
  {
    if scopes != [] {
      UngrantedIff(scopes[1..], granted);
      assert scopes == [scopes[0]] + scopes[1..];
    }
  }

  lemma {:induction false} RulesIffCleared(env: Env, a: Asset, req: Request, now: int)
    ensures Rules(env, a, req, now).None? <==> Cleared(env, a, req, now)
  {
    UngrantedIff(req.authScopes, a.grantedScopes);
  }

  /** The consent condition of a grant: none needed, or the gate passes on a non-empty list. */
  ghost predicate ConsentMet(env: Env, used: set<string>, a: Asset, req: Request, now: int) {
    a.requiresConsent ==>
      req.consentTokens != [] && Gate(env.codec, used, req.consentTokens, a, WholeSeconds(now)).Pass?
  }

  /** Each state has one exact condition; anything else is Blocked, so the gateway fails closed. */
  lemma {:induction false} DecisionTable(env: Env, assets: map<string, Asset>, used: set<string>, req: Request, now: int)
    ensures var (v, burned) := Judge(env, assets, used, req, now);
            var stored := req.assetId in assets;
            && (v.state == Allowed <==>
                  stored && Cleared(env, assets[req.assetId], req, now)
                  && ConsentMet(env, used, assets[req.assetId], req, now) && req.action !in HIGH_RISK_ACTIONS)
            && (v.state == HumanReview <==>
                  stored && Cleared(env, assets[req.assetId], req, now)
                  && ConsentMet(env, used, assets[req.assetId], req, now) && req.action in HIGH_RISK_ACTIONS)
            && (v.state == Conditional <==>
                  stored && Cleared(env, assets[req.assetId], req, now)
                  && assets[req.assetId].requiresConsent && req.consentTokens == [])
            && (burned.Some? <==>
                  (v.state == Allowed || v.state == HumanReview) && assets[req.assetId].requiresConsent)
  {
    if req.assetId in assets {
      RulesIffCleared(env, assets[req.assetId], req, now);
    }
  }

  // ---------- the published rule order ----------

  datatype Rule =
    | UnknownAssetRule | WithdrawnRule | MandateRule | TenantRule | WindowRule | InjectionRule
    | EscalationRule | ActionRule | ConsentRule | ReviewRule | DefaultAllowRule

  const RULE_ORDER := [UnknownAssetRule, WithdrawnRule, MandateRule, TenantRule, WindowRule, InjectionRule,
                       EscalationRule, ActionRule, ConsentRule, ReviewRule, DefaultAllowRule]

  /** What each published rule looks for, on its own. */
  ghost predicate Fires(rule: Rule, env: Env, assets: map<string, Asset>, used: set<string>, req: Request, now: int) {
    if req.assetId !in assets then rule == UnknownAssetRule
    else
      var a := assets[req.assetId];
      match rule
      case UnknownAssetRule => false
      case WithdrawnRule => a.withdrawn
      case MandateRule => !Signed(env, a)
      case TenantRule => req.tenantId != a.tenantId
      case WindowRule => !(a.validFrom <= now <= a.validUntil)
      case InjectionRule => env.injection(req.promptText)
      case EscalationRule => exists s | s in req.authScopes :: s !in a.grantedScopes
      case ActionRule => a.usageConstraints != [] && req.action !in a.usageConstraints
      case ConsentRule => !ConsentMet(env, used, a, req, now)
      case ReviewRule => req.action in HIGH_RISK_ACTIONS
      case DefaultAllowRule => true
  }

  /** The rule a reason belongs to; what goes wrong inside the consent gate belongs to it. */
  function RuleOf(reason: Reason): Rule {
    match reason
    case UnknownAsset => UnknownAssetRule
    case RightsWithdrawn => WithdrawnRule
    case MandateInvalid => MandateRule
    case CrossTenant => TenantRule
    case NotYetValid => WindowRule
    case RightsExpired => WindowRule
    case PromptInjection => InjectionRule
    case ScopeNotGranted(_) => EscalationRule
    case OutsideConstraints(_) => ActionRule
    case AwaitingConsent => ConsentRule
    case ConsentReplay => ConsentRule
    case ConsentExpired => ConsentRule
    case ConsentInvalid(_) => ConsentRule
    case InternalError => ConsentRule
    case HighRisk(_) => ReviewRule
    case WithinScope => DefaultAllowRule
  }

  /** `k` is the first published rule that fires. */
  ghost predicate FirstToFire(k: int, env: Env, assets: map<string, Asset>, used: set<string>, req: Request, now: int) {
    && 0 <= k < |RULE_ORDER| && Fires(RULE_ORDER[k], env, assets, used, req, now)
    && forall j | 0 <= j < k :: !Fires(RULE_ORDER[j], env, assets, used, req, now)
  }

  /** The decision is that of the first published rule that fires, and no other rule can be its reason. */
  lemma {:induction false} FirstRuleDecides(env: Env, assets: map<string, Asset>, used: set<string>, req: Request, now: int)
    ensures exists k :: FirstToFire(k, env, assets, used, req, now)
    ensures forall k | FirstToFire(k, env, assets, used, req, now) ::
              RULE_ORDER[k] == RuleOf(Judge(env, assets, used, req, now).0.reason)
  {
    var reason := Judge(env, assets, used, req, now).0.reason;
    var k := Position(RuleOf(reason));
    if req.assetId in assets {
      if Rules(env, assets[req.assetId], req, now).Some? {
        EarlyReason(env, assets, used, req, now, reason);
      } else {
        LateReason(env, assets, used, req, now, reason);
      }
      assert Decisive(RuleOf(reason), env, assets, used, req, now);
    }
    assert FirstToFire(k, env, assets, used, req, now);
  }

  lemma {:induction false} FirstUngrantedIs(scopes: seq<string>, granted: seq<string>)
    ensures FirstUngranted(scopes, granted).Some? ==>
              exists k | 0 <= k < |scopes| :: FirstUngranted(scopes, granted).value == scopes[k] && scopes[k] !in granted
                                             && forall j | 0 <= j < k :: scopes[j] in granted
  {
    if scopes != [] && scopes[0] in granted {
      FirstUngrantedIs(scopes[1..], granted);
      if k :| 0 <= k < |scopes[1..]| && FirstUngranted(scopes, granted) == Some(scopes[1..][k]) && scopes[1..][k] !in granted
              && forall j | 0 <= j < k :: scopes[1..][j] in granted {
        assert scopes[k + 1] == scopes[1..][k] && forall j | 0 < j < k + 1 :: scopes[j] == scopes[1..][j - 1];
      }
    }
  }

  /** What a reason says beyond its rule: which side of the window, which scope, which action, which kind of consent. */
  lemma {:induction false} ReasonSays(env: Env, assets: map<string, Asset>, used: set<string>, req: Request, now: int)
    requires req.assetId in assets
    ensures var a := assets[req.assetId];
            match Judge(env, assets, used, req, now).0.reason
            case NotYetValid => now < a.validFrom
            case RightsExpired => a.validFrom <= now && a.validUntil < now
            case ScopeNotGranted(s) =>
              exists k | 0 <= k < |req.authScopes| :: req.authScopes[k] == s && s !in a.grantedScopes
                                                      && forall j | 0 <= j < k :: req.authScopes[j] in a.grantedScopes
            case OutsideConstraints(action) => action == req.action
            case HighRisk(action) => action == req.action
            case AwaitingConsent => a.requiresConsent && req.consentTokens == []
            case ConsentReplay => Gate(env.codec, used, req.consentTokens, a, WholeSeconds(now)) == Refuse(ConsentReplay)
            case ConsentExpired => Gate(env.codec, used, req.consentTokens, a, WholeSeconds(now)) == Refuse(ConsentExpired)
            case ConsentInvalid(e) => Gate(env.codec, used, req.consentTokens, a, WholeSeconds(now)) == Refuse(ConsentInvalid(e))
            case InternalError => Gate(env.codec, used, req.consentTokens, a, WholeSeconds(now)) == Refuse(InternalError)
            case _ => true
  {
    var a := assets[req.assetId];
    FirstUngrantedIs(req.authScopes, a.grantedScopes);
    if Rules(env, a, req, now).Some? {
      EarlyKinds(env, a, req, now);
    }
  }

  lemma {:induction false} EarlyKinds(env: Env, a: Asset, req: Request, now: int)
    ensures Rules(env, a, req, now).Some? ==> Position(RuleOf(Rules(env, a, req, now).value)) < Position(ConsentRule)
  {
  }

  function Position(rule: Rule): (k: int)
    ensures 0 <= k < |RULE_ORDER| && RULE_ORDER[k] == rule
  {
    match rule
    case UnknownAssetRule => 0
    case WithdrawnRule => 1
    case MandateRule => 2
    case TenantRule => 3
    case WindowRule => 4
    case InjectionRule => 5
    case EscalationRule => 6
    case ActionRule => 7
    case ConsentRule => 8
    case ReviewRule => 9
    case DefaultAllowRule => 10
  }

  /** `rule` fires and nothing before it does. */
  ghost predicate Decisive(rule: Rule, env: Env, assets: map<string, Asset>, used: set<string>, req: Request, now: int) {
    && Fires(rule, env, assets, used, req, now)
    && forall j | 0 <= j < Position(rule) :: !Fires(RULE_ORDER[j], env, assets, used, req, now)
  }

  /** The first `n` published rules are silent. */
  ghost predicate Silent(n: nat, env: Env, assets: map<string, Asset>, used: set<string>, req: Request, now: int) {
    n <= |RULE_ORDER| && forall j | 0 <= j < n :: !Fires(RULE_ORDER[j], env, assets, used, req, now)
  }

  lemma {:induction false} SilentStep(n: nat, rule: Rule, env: Env, assets: map<string, Asset>, used: set<string>, req: Request, now: int)
    requires Silent(n, env, assets, used, req, now) && n < |RULE_ORDER| && RULE_ORDER[n] == rule
    requires !Fires(rule, env, assets, used, req, now)
    ensures Silent(n + 1, env, assets, used, req, now)
  {
  }

  /** A reason found before the consent gate. */
  lemma {:induction false} EarlyReason(env: Env, assets: map<string, Asset>, used: set<string>, req: Request, now: int, reason: Reason)
    requires req.assetId in assets && Rules(env, assets[req.assetId], req, now) == Some(reason)
    ensures Decisive(RuleOf(reason), env, assets, used, req, now)
  {
    var a := assets[req.assetId];
    SilentStep(0, UnknownAssetRule, env, assets, used, req, now);
    if a.withdrawn { return; }
    SilentStep(1, WithdrawnRule, env, assets, used, req, now);
    if !Signed(env, a) { return; }
    SilentStep(2, MandateRule, env, assets, used, req, now);
    ReasonAfterMandate(env, assets, used, req, now, reason);
  }

  predicate Signed(env: Env, a: Asset) {
    a.custodianId in env.keys && VerifyMandate(env.signer, a, env.keys[a.custodianId])
  }

  lemma {:induction false} ReasonAfterMandate(env: Env, assets: map<string, Asset>, used: set<string>, req: Request, now: int, reason: Reason)
    requires req.assetId in assets && Rules(env, assets[req.assetId], req, now) == Some(reason)
    requires !assets[req.assetId].withdrawn && Signed(env, assets[req.assetId])
    requires Silent(3, env, assets, used, req, now)
    ensures Decisive(RuleOf(reason), env, assets, used, req, now)
  {
    var a := assets[req.assetId];
    if req.tenantId != a.tenantId { return; }
    SilentStep(3, TenantRule, env, assets, used, req, now);
    if !(a.validFrom <= now <= a.validUntil) { return; }
    SilentStep(4, WindowRule, env, assets, used, req, now);
    ReasonAfterWindow(env, assets, used, req, now, reason);
  }

  lemma {:induction false} ReasonAfterWindow(env: Env, assets: map<string, Asset>, used: set<string>, req: Request, now: int, reason: Reason)
    requires req.assetId in assets && Rules(env, assets[req.assetId], req, now) == Some(reason)
    requires var a := assets[req.assetId];
             !a.withdrawn && Signed(env, a) && req.tenantId == a.tenantId && a.validFrom <= now <= a.validUntil
    requires Silent(5, env, assets, used, req, now)
    ensures Decisive(RuleOf(reason), env, assets, used, req, now)
  {
    var a := assets[req.assetId];
    if env.injection(req.promptText) { return; }
    SilentStep(5, InjectionRule, env, assets, used, req, now);
    UngrantedIff(req.authScopes, a.grantedScopes);
    if FirstUngranted(req.authScopes, a.grantedScopes).Some? { return; }
    SilentStep(6, EscalationRule, env, assets, used, req, now);
  }

  /** Nothing before the consent gate fires. */
  lemma {:induction false} EarlySilent(env: Env, assets: map<string, Asset>, used: set<string>, req: Request, now: int)
    requires req.assetId in assets && Rules(env, assets[req.assetId], req, now).None?
    ensures Silent(Position(ConsentRule), env, assets, used, req, now)
  {
    RulesIffCleared(env, assets[req.assetId], req, now);
  }

  /** The rule that decides from the consent gate on. */
  lemma {:induction false} LateRule(env: Env, assets: map<string, Asset>, used: set<string>, req: Request, now: int)
    requires req.assetId in assets && Rules(env, assets[req.assetId], req, now).None?
    ensures RuleOf(Judge(env, assets, used, req, now).0.reason) ==
              if !ConsentMet(env, used, assets[req.assetId], req, now) then ConsentRule
              else if req.action in HIGH_RISK_ACTIONS then ReviewRule
              else DefaultAllowRule
  {
    var a := assets[req.assetId];
    if a.requiresConsent && req.consentTokens != [] {
      match Gate(env.codec, used, req.consentTokens, a, WholeSeconds(now))
      case Refuse(reason) => GateReason(env, used, a, req, now);
      case Pass(_) =>
    }
  }

  lemma {:induction false} GateReason(env: Env, used: set<string>, a: Asset, req: Request, now: int)
    ensures var g := Gate(env.codec, used, req.consentTokens, a, WholeSeconds(now)); g.Refuse? ==> RuleOf(g.reason) == ConsentRule
  {
  }

  lemma {:induction false} LateReason(env: Env, assets: map<string, Asset>, used: set<string>, req: Request, now: int, reason: Reason)
    requires req.assetId in assets && Rules(env, assets[req.assetId], req, now).None?
    requires reason == Judge(env, assets, used, req, now).0.reason
    ensures Decisive(RuleOf(reason), env, assets, used, req, now)
  {
    EarlySilent(env, assets, used, req, now);
    LateRule(env, assets, used, req, now);
    if !ConsentMet(env, used, assets[req.assetId], req, now) { return; }
    SilentStep(8, ConsentRule, env, assets, used, req, now);
    if req.action in HIGH_RISK_ACTIONS { return; }
    SilentStep(9, ReviewRule, env, assets, used, req, now);
  }

  /** A withdrawn asset is Blocked whatever else the request carries, and burns nothing. */
  lemma {:induction false} WithdrawnBlocks(env: Env, assets: map<string, Asset>, used: set<string>, req: Request, now: int, ticket: string, counter: nat)
    requires req.assetId in assets && assets[req.assetId].withdrawn
    ensures var (v, burned) := Judge(env, assets, used, req, now);
            Conclude(env, v, req, now, ticket, counter).0.state == Blocked && burned == None
  {
  }

  /**
   * A decision repeats its verdict under the next number, and its ticket marks exactly the Human Review state; only a
   * scope whose quoted text is longer than 984 characters costs one more number and ends as an internal error.
   */
  lemma {:induction false} DecisionShape(env: Env, v: Verdict, req: Request, now: int, ticket: string, counter: nat)
    ensures var (d, next) := Conclude(env, v, req, now, ticket, counter);
            && counter <= d.sequence < next
            && d.ticket == (if d.state == HumanReview then Some(ticket) else None)
            && d.requestId == req.requestId && d.evaluatedAt == now
            && (d.assetId == v.assetId || d.assetId == req.assetId)
            && (d.state == v.state || (d.state == Blocked && d.reason == InternalError))
            && (if v.reason.ScopeNotGranted? && env.quotedLength(v.reason.scope) > 984
                then d.reason == InternalError && d.sequence == counter + 1 && d.assetId == req.assetId
                else d.reason == v.reason && d.state == v.state && d.sequence == counter && d.assetId == v.assetId)
            && next == d.sequence + 1
  {
  }

  /** The asset's signature is the one its custodian's key gives; there is a key. */
  ghost predicate ProperlySigned(signer: Signer, keys: map<string, Key>, a: Asset) {
    a.custodianId in keys && a.mandateSignature == SignMandate(signer, a, keys[a.custodianId])
  }

  /** A stored asset whose signature is any other is Blocked, for its mandate unless it is withdrawn, and burns nothing. */
  lemma {:induction false} UnsignedBlocks(env: Env, assets: map<string, Asset>, used: set<string>, req: Request, now: int)
    requires req.assetId in assets && LowerHex(assets[req.assetId].mandateSignature)
    ensures var (v, burned) := Judge(env, assets, used, req, now);
            var a := assets[req.assetId];
            && (!ProperlySigned(env.signer, env.keys, a) ==>
                  burned == None && v == Block(if a.withdrawn then RightsWithdrawn else MandateInvalid, a.assetId))
            && (ProperlySigned(env.signer, env.keys, a) ==> v.reason != MandateInvalid)
  {
    var a := assets[req.assetId];
    if a.custodianId in env.keys {
      StoredSignatureIff(env.signer, a, env.keys[a.custodianId]);
    }
  }

  /** One call of the gateway. */
  datatype Call = Call(req: Request, now: int, ticket: string)

  /** The decisions of successive calls, each seeing the nonces and the counter the ones before it left. */
  function Decide(env: Env, assets: map<string, Asset>, used: set<string>, counter: nat, calls: seq<Call>): seq<Decision>
    decreases |calls|
  {
    if calls == [] then []
    else
      var c := calls[0];
      var (v, burned) := Judge(env, assets, used, c.req, c.now);
      var (d, next) := Conclude(env, v, c.req, c.now, c.ticket, counter);
      [d] + Decide(env, assets, used + NonceSet(burned), next, calls[1..])
  }

  /** The store holds every asset under its own id. */
  ghost predicate KeyedById(assets: map<string, Asset>) {
    forall id | id in assets :: assets[id].assetId == id
  }

  /** A decision names the call's request, asset and time, and carries its ticket exactly for human review. */
  ghost predicate Answers(d: Decision, c: Call, assets: map<string, Asset>) {
    && d.requestId == c.req.requestId && d.evaluatedAt == c.now
    && (KeyedById(assets) ==> d.assetId == c.req.assetId)
    && d.ticket == (if d.state == HumanReview then Some(c.ticket) else None)
  }

  lemma {:induction false} JudgedAsset(env: Env, assets: map<string, Asset>, used: set<string>, req: Request, now: int)
    ensures KeyedById(assets) ==> Judge(env, assets, used, req, now).0.assetId == req.assetId
  {
  }

  /** Successive decisions answer their calls in order, carry strictly rising numbers, and block what is withdrawn. */
  lemma {:induction false} DecisionsInOrder(env: Env, assets: map<string, Asset>, used: set<string>, counter: nat, calls: seq<Call>)
    ensures var ds := Decide(env, assets, used, counter, calls);
            && |ds| == |calls|
            && (forall k | 0 <= k < |ds| :: Answers(ds[k], calls[k], assets) && ds[k].sequence >= counter)
            && (forall k | 0 <= k < |ds| && calls[k].req.assetId in assets && assets[calls[k].req.assetId].withdrawn ::
                  ds[k].state == Blocked)
            && (forall j, k | 0 <= j < k < |ds| :: ds[j].sequence < ds[k].sequence)
    decreases |calls|
  {
    if calls != [] {
      var c := calls[0];
      var (v, burned) := Judge(env, assets, used, c.req, c.now);
      var (_, next) := Conclude(env, v, c.req, c.now, c.ticket, counter);
      DecisionShape(env, v, c.req, c.now, c.ticket, counter);
      JudgedAsset(env, assets, used, c.req, c.now);
      if c.req.assetId in assets && assets[c.req.assetId].withdrawn {
        WithdrawnBlocks(env, assets, used, c.req, c.now, c.ticket, counter);
      }
      DecisionsInOrder(env, assets, used + NonceSet(burned), next, calls[1..]);
    }
  }

  // ---------- the two-phase gate ----------

  /** Rejected by shape or signature, or carrying a readable claim with ASCII ids; every minted token is one. */
  ghost predicate Ordinary(codec: Codec, token: string) {
    match Authenticate(codec, token)
    case Err(_) => true
    case Ok(raw) => codec.decode(raw).Fields? && Ascii(codec.decode(raw).claim.assetId) && Ascii(codec.decode(raw).claim.tenantId)
  }

  lemma {:induction false} MintedIsOrdinary(codec: Codec, assetId: string, tenantId: string, ttl: int, now: int, nonce: string)
    requires Lawful(codec) && Ascii(assetId) && Ascii(tenantId)
    ensures Ordinary(codec, Mint(codec, assetId, tenantId, ttl, now, nonce))
  {
    MintedAuthenticates(codec, assetId, tenantId, ttl, now, nonce);
  }

  ghost function V(codec: Codec, used: set<string>, token: string, a: Asset, now: int): Outcome {
    Verify(codec, used, token, a.assetId, a.tenantId, now)
  }

  ghost function P(codec: Codec, used: set<string>, token: string, a: Asset, now: int): Outcome {
    Peek(codec, used, token, a.assetId, a.tenantId, now)
  }

  /** `k` is the first index whose token is not merely rejected by `verify`, and it is accepted. */
  ghost predicate FirstVerified(codec: Codec, used: set<string>, tokens: seq<string>, a: Asset, now: int, k: int) {
    && 0 <= k < |tokens|
    && V(codec, used, tokens[k], a, now).Accept?
    && forall j | 0 <= j < k :: V(codec, used, tokens[j], a, now).Reject?
  }

  /** `p` is the first index whose token is not merely rejected by the peek, and it is accepted. */
  ghost predicate FirstPeeked(codec: Codec, used: set<string>, tokens: seq<string>, a: Asset, now: int, p: int) {
    && 0 <= p < |tokens|
    && P(codec, used, tokens[p], a, now).Accept?
    && forall j | 0 <= j < p :: P(codec, used, tokens[j], a, now).Reject?
  }

  /** No token before the first one that peeks well makes peeking fail abnormally. */
  ghost predicate PeekReaches(codec: Codec, used: set<string>, tokens: seq<string>, a: Asset, now: int) {
    exists p :: FirstPeeked(codec, used, tokens, a, now, p)
  }

  lemma {:induction false} FirstPeekedShifts(codec: Codec, used: set<string>, tokens: seq<string>, a: Asset, now: int)
    requires tokens != [] && P(codec, used, tokens[0], a, now).Reject?
    ensures forall p :: FirstPeeked(codec, used, tokens, a, now, p) <==> FirstPeeked(codec, used, tokens[1..], a, now, p - 1)
  {
    var rest := tokens[1..];
    forall p ensures FirstPeeked(codec, used, tokens, a, now, p) <==> FirstPeeked(codec, used, rest, a, now, p - 1) {
      if FirstPeeked(codec, used, rest, a, now, p - 1) {
        assert forall j | 0 < j < p :: tokens[j] == rest[j - 1];
      }
      if FirstPeeked(codec, used, tokens, a, now, p) {
        assert p > 0 && forall j | 0 <= j < p :: rest[j] == tokens[j + 1];
      }
    }
  }

  lemma {:induction false} ConsumeLoopIff(codec: Codec, used: set<string>, tokens: seq<string>, a: Asset, now: int)
    ensures var r := ConsumeLoop(codec, used, tokens, a, now);
            && (r.Consumed? <==> exists k :: FirstVerified(codec, used, tokens, a, now, k))
            && (forall k | FirstVerified(codec, used, tokens, a, now, k) ::
                  r == Consumed(V(codec, used, tokens[k], a, now).claim.nonce))
  {
    if tokens != [] {
      var rest := tokens[1..];
      var first := V(codec, used, tokens[0], a, now);
      ConsumeLoopIff(codec, used, rest, a, now);
      if first.Accept? {
        assert FirstVerified(codec, used, tokens, a, now, 0);
      } else if first.Reject? {
        if j :| FirstVerified(codec, used, rest, a, now, j) {
          assert FirstVerified(codec, used, tokens, a, now, j + 1);
        }
        forall k | FirstVerified(codec, used, tokens, a, now, k) ensures FirstVerified(codec, used, rest, a, now, k - 1) {
          assert forall j | 0 <= j < k - 1 :: rest[j] == tokens[j + 1];
        }
      }
    }
  }

  lemma {:induction false} PeekLoopIff(codec: Codec, used: set<string>, tokens: seq<string>, a: Asset, now: int, last: Option<TokenError>)
    ensures PeekLoop(codec, used, tokens, a, now, last).PeekPassed? <==> PeekReaches(codec, used, tokens, a, now)
  {
    if tokens != [] {
      var rest := tokens[1..];
      var first := P(codec, used, tokens[0], a, now);
      if first.Accept? {
        assert FirstPeeked(codec, used, tokens, a, now, 0);
      } else if first.Reject? {
        PeekLoopIff(codec, used, rest, a, now, Some(first.error));
        FirstPeekedShifts(codec, used, tokens, a, now);
        if p :| FirstPeeked(codec, used, rest, a, now, p) {
          assert FirstPeeked(codec, used, rest, a, now, p + 1 - 1);
          assert FirstPeeked(codec, used, tokens, a, now, p + 1);
        }
      }
    }
  }

  lemma {:induction false} PeekFailsIff(codec: Codec, used: set<string>, tokens: seq<string>, a: Asset, now: int, last: Option<TokenError>)
    ensures PeekLoop(codec, used, tokens, a, now, last).PeekFailed? <==>
              forall k | 0 <= k < |tokens| :: P(codec, used, tokens[k], a, now).Reject?
    ensures PeekLoop(codec, used, tokens, a, now, last).PeekFailed? ==>
              PeekLoop(codec, used, tokens, a, now, last).last ==
                if tokens == [] then last else Some(P(codec, used, tokens[|tokens| - 1], a, now).error)
  {
    if tokens != [] && P(codec, used, tokens[0], a, now).Reject? {
      var rest := tokens[1..];
      PeekFailsIff(codec, used, rest, a, now, Some(P(codec, used, tokens[0], a, now).error));
      assert forall k | 0 < k < |tokens| :: tokens[k] == rest[k - 1];
      assert forall k | 0 <= k < |rest| :: rest[k] == tokens[k + 1];
    }
  }

  lemma {:induction false} NoneConsumedIff(codec: Codec, used: set<string>, tokens: seq<string>, a: Asset, now: int)
    ensures ConsumeLoop(codec, used, tokens, a, now).NoneConsumed? <==>
              forall k | 0 <= k < |tokens| :: V(codec, used, tokens[k], a, now).Reject?
  {
    if tokens != [] && V(codec, used, tokens[0], a, now).Reject? {
      var rest := tokens[1..];
      NoneConsumedIff(codec, used, rest, a, now);
      assert forall k | 0 < k < |tokens| :: tokens[k] == rest[k - 1];
      assert forall k | 0 <= k < |rest| :: rest[k] == tokens[k + 1];
    }
  }

  /** Every token peeks badly, the last of them with `e`. */
  ghost predicate AllPeekBadly(codec: Codec, used: set<string>, tokens: seq<string>, a: Asset, now: int, e: TokenError) {
    && tokens != [] && (forall k | 0 <= k < |tokens| :: P(codec, used, tokens[k], a, now).Reject?)
    && P(codec, used, tokens[|tokens| - 1], a, now) == Reject(e)
  }

  /** Which reason a refusing gate gives: that of the last token when none peeks well, replay when none can be consumed. */
  lemma {:induction false} GateReasonIff(codec: Codec, used: set<string>, tokens: seq<string>, a: Asset, now: int)
    requires tokens != []
    ensures var g := Gate(codec, used, tokens, a, now);
            && (g == Refuse(ConsentExpired) <==> AllPeekBadly(codec, used, tokens, a, now, TokenExpired))
            && (g == Refuse(ConsentReplay) <==>
                  || AllPeekBadly(codec, used, tokens, a, now, ReplayDetected)
                  || (PeekReaches(codec, used, tokens, a, now)
                      && forall k | 0 <= k < |tokens| :: V(codec, used, tokens[k], a, now).Reject?))
            && (forall e :: g == Refuse(ConsentInvalid(Some(e))) <==>
                  e != TokenExpired && e != ReplayDetected && AllPeekBadly(codec, used, tokens, a, now, e))
            && (g.Refuse? ==> g.reason in {ConsentExpired, ConsentReplay, InternalError} ||
                              (g.reason.ConsentInvalid? && g.reason.last.Some?))
  {
    PeekFailsIff(codec, used, tokens, a, now, None);
    NoneConsumedIff(codec, used, tokens, a, now);
    PeekLoopIff(codec, used, tokens, a, now, None);
  }

  /** Without any assumption on the tokens: exactly when the gate passes, and whose nonce it burns. */
  lemma {:induction false} GatePassesIff(codec: Codec, used: set<string>, tokens: seq<string>, a: Asset, now: int)
    ensures var g := Gate(codec, used, tokens, a, now);
            && (g.Pass? <==> PeekReaches(codec, used, tokens, a, now) && exists k :: FirstVerified(codec, used, tokens, a, now, k))
            && (g.Pass? ==> forall k | FirstVerified(codec, used, tokens, a, now, k) ::
                              g.nonce == V(codec, used, tokens[k], a, now).claim.nonce && g.nonce !in used)
  {
    PeekLoopIff(codec, used, tokens, a, now, None);
    ConsumeLoopIff(codec, used, tokens, a, now);
  }

  lemma {:induction false} OrdinaryOutcomes(codec: Codec, used: set<string>, token: string, a: Asset, now: int)
    requires Ordinary(codec, token) && Ascii(a.assetId) && Ascii(a.tenantId)
    ensures !V(codec, used, token, a, now).Crash? && !P(codec, used, token, a, now).Crash?
    ensures V(codec, used, token, a, now).Accept? ==> P(codec, used, token, a, now).Accept?
  {
  }

  lemma {:induction false} LeastIndex(tokens: seq<string>, good: string -> bool, k: nat) returns (p: nat)
    requires k < |tokens| && good(tokens[k])
    ensures p <= k && good(tokens[p]) && forall j | 0 <= j < p :: !good(tokens[j])
  {
    if forall j | 0 <= j < k :: !good(tokens[j]) {
      p := k;
    } else {
      var j :| 0 <= j < k && good(tokens[j]);
      p := LeastIndex(tokens, good, j);
    }
  }

  ghost predicate SomeVerifies(codec: Codec, used: set<string>, tokens: seq<string>, a: Asset, now: int) {
    exists i | 0 <= i < |tokens| :: V(codec, used, tokens[i], a, now).Accept?
  }

  /** No check of any token fails abnormally, and what verifies also peeks. */
  ghost predicate TamePeeks(codec: Codec, used: set<string>, tokens: seq<string>, a: Asset, now: int) {
    forall i | 0 <= i < |tokens| ::
      !P(codec, used, tokens[i], a, now).Crash? && (V(codec, used, tokens[i], a, now).Accept? ==> P(codec, used, tokens[i], a, now).Accept?)
  }

  lemma {:induction false} SomeVerifiesSuffices(codec: Codec, used: set<string>, tokens: seq<string>, a: Asset, now: int)
    requires forall i | 0 <= i < |tokens| :: !V(codec, used, tokens[i], a, now).Crash?
    ensures SomeVerifies(codec, used, tokens, a, now) <==> exists k :: FirstVerified(codec, used, tokens, a, now, k)
  {
    if i :| 0 <= i < |tokens| && V(codec, used, tokens[i], a, now).Accept? {
      var k := LeastIndex(tokens, (x: string) => V(codec, used, x, a, now).Accept?, i);
      assert FirstVerified(codec, used, tokens, a, now, k);
    }
  }

  lemma {:induction false} SomeVerifiesPeeks(codec: Codec, used: set<string>, tokens: seq<string>, a: Asset, now: int)
    requires TamePeeks(codec, used, tokens, a, now) && SomeVerifies(codec, used, tokens, a, now)
    ensures PeekReaches(codec, used, tokens, a, now)
  {
    var i :| 0 <= i < |tokens| && V(codec, used, tokens[i], a, now).Accept?;
    var p := LeastIndex(tokens, (x: string) => P(codec, used, x, a, now).Accept?, i);
    assert FirstPeeked(codec, used, tokens, a, now, p);
  }

  /**
   * On ordinary tokens the two phases amount to one: the gate passes exactly when some token would verify, the burned
   * nonce is that of the first such token, and the consume loop alone would have burned the same.
   */
  lemma {:induction false} TwoPhaseIsOnePhase(codec: Codec, used: set<string>, tokens: seq<string>, a: Asset, now: int)
    requires Ascii(a.assetId) && Ascii(a.tenantId)
    requires forall i | 0 <= i < |tokens| :: Ordinary(codec, tokens[i])
    ensures var g := Gate(codec, used, tokens, a, now);
            && (g.Pass? <==> SomeVerifies(codec, used, tokens, a, now))
            && (g.Pass? <==> ConsumeLoop(codec, used, tokens, a, now).Consumed?)
            && (g.Pass? ==> ConsumeLoop(codec, used, tokens, a, now).nonce == g.nonce)
            && (forall k | g.Pass? && FirstVerified(codec, used, tokens, a, now, k) ::
                  g.nonce == V(codec, used, tokens[k], a, now).claim.nonce)
  {
    forall i | 0 <= i < |tokens| {
      OrdinaryOutcomes(codec, used, tokens[i], a, now);
    }
    SomeVerifiesSuffices(codec, used, tokens, a, now);
    if SomeVerifies(codec, used, tokens, a, now) {
      SomeVerifiesPeeks(codec, used, tokens, a, now);
    }
    GatePassesIff(codec, used, tokens, a, now);
    ConsumeLoopIff(codec, used, tokens, a, now);
  }

  // ---------- one minted token, in plain numbers ----------

  /** Time is cut to whole seconds toward zero. */
  lemma {:induction false} SecondsOf(t: int, r: int)
    requires t >= 0 && 0 <= r < 1000000
    ensures WholeSeconds(1000000 * t + r) == t && WholeSeconds(-(1000000 * t + r)) == -t
  {
  }

  lemma {:induction false} GateOfOne(codec: Codec, used: set<string>, token: string, a: Asset, now: int)
    ensures var peek, take := P(codec, used, token, a, now), V(codec, used, token, a, now);
            Gate(codec, used, [token], a, now) ==
              if peek.Crash? then Refuse(InternalError)
              else if peek.Reject? then Refuse(PeekReason(Some(peek.error)))
              else if take.Crash? then Refuse(InternalError)
              else if take.Reject? then Refuse(ConsentReplay)
              else Pass(take.claim.nonce)
  {
    var rest: seq<string> := [];
    assert [token][1..] == rest;
    if P(codec, used, token, a, now).Reject? {
      var last := Some(P(codec, used, token, a, now).error);
      assert PeekLoop(codec, used, [token], a, now, None) == PeekLoop(codec, used, rest, a, now, last) == PeekFailed(last);
    }
    if V(codec, used, token, a, now).Reject? {
      assert ConsumeLoop(codec, used, [token], a, now) == ConsumeLoop(codec, used, rest, a, now) == NoneConsumed;
    }
  }

  lemma {:induction false} MintedAtTheGate(codec: Codec, used: set<string>, a: Asset, ttl: int, issued: int, nonce: string, t: int)
    requires Lawful(codec) && Ascii(a.assetId) && Ascii(a.tenantId)
    ensures Gate(codec, used, [Mint(codec, a.assetId, a.tenantId, ttl, issued, nonce)], a, t) ==
              if t >= issued + ttl then Refuse(ConsentExpired)
              else if nonce in used || issued > t + 60 then Refuse(ConsentReplay)
              else Pass(nonce)
  {
    var token := Mint(codec, a.assetId, a.tenantId, ttl, issued, nonce);
    MintedAuthenticates(codec, a.assetId, a.tenantId, ttl, issued, nonce);
    GateOfOne(codec, used, token, a, t);
  }

  /**
   * From minting to decision: at second `t`, a request that meets the rules and carries one token minted for its asset is
   * granted, and burns that nonce, exactly when the nonce is unused, `t` is before `issued + ttl`, and the token was
   * issued at most 60 seconds ahead; the three high-risk actions go to human review.
   */
  lemma {:induction false} MintedTokenGrants(env: Env, assets: map<string, Asset>, used: set<string>, req: Request, t: nat, r: nat,
                          ttl: int, issued: int, nonce: string)
    requires r < 1000000 && req.assetId in assets && assets[req.assetId].requiresConsent
    requires Cleared(env, assets[req.assetId], req, 1000000 * t + r)
    requires Lawful(env.codec) && Ascii(assets[req.assetId].assetId) && Ascii(assets[req.assetId].tenantId)
    requires req.consentTokens == [Mint(env.codec, assets[req.assetId].assetId, assets[req.assetId].tenantId, ttl, issued, nonce)]
    ensures var (v, burned) := Judge(env, assets, used, req, 1000000 * t + r);
            if nonce !in used && t < issued + ttl && issued <= t + 60 then
              && burned == Some(nonce)
              && v.state == (if req.action == "publish" || req.action == "train_export" || req.action == "bulk_export"
                             then HumanReview else Allowed)
            else
              && burned == None && v.state == Blocked
              && v.reason == (if t >= issued + ttl then ConsentExpired else ConsentReplay)
  {
    var now := 1000000 * t + r;
    SecondsOf(t, r);
    RulesIffCleared(env, assets[req.assetId], req, now);
    MintedAtTheGate(env.codec, used, assets[req.assetId], ttl, issued, nonce, t);
  }
}
