/** Single-use consent tokens: wire format, verification, and the store of burned nonces. */
module Tokens {
  import opened Wrappers
  import opened Base64

  datatype Claim = Claim(assetId: string, tenantId: string, nonce: string, issuedAt: int, expiresAt: int)

  /** What JSON decoding and field extraction make of a payload. */
  datatype Payload = NotJson | MissingFields | Fields(claim: Claim)

  /** The keyed MAC over payload text, and the JSON payload codec. */
  datatype Codec = Codec(mac: string -> seq<Byte>, encode: Claim -> seq<Byte>, decode: seq<Byte> -> Payload)

  datatype TokenError =
    | MalformedToken
    | InvalidSignature
    | MalformedPayload
    | MissingClaim
    | AssetMismatch
    | TenantMismatch
    | TokenExpired
    | IssuedInFuture
    | ReplayDetected

  /** A call returns a claim, raises `TokenError`, or raises something else. */
  datatype Outcome = Accept(claim: Claim) | Reject(error: TokenError) | Crash

  const CLOCK_SKEW := 60

  ghost predicate Lawful(codec: Codec) {
    forall c :: codec.decode(codec.encode(c)) == Fields(c)
  }

  // ---------- wire format ----------

  /** `token.split(".", 1)` unpacked into two parts. */
  function SplitDot(token: string): Option<(string, string)> {
    if token == "" then None
    else if token[0] == '.' then Some(("", token[1..]))
    else match SplitDot(token[1..])
      case None => None
      case Some((a, b)) => Some(([token[0]] + a, b))
  }

  function Mint(codec: Codec, assetId: string, tenantId: string, ttl: int, now: int, nonce: string): string {
    var payload := B64e(codec.encode(Claim(assetId, tenantId, nonce, now, now + ttl)));
    payload + "." + B64e(codec.mac(payload))
  }

  /** Shape and signature, shared by both checks: the signed payload bytes, or an error. */
  function Authenticate(codec: Codec, token: string): Result<seq<Byte>, TokenError> {
    match SplitDot(token)
    case None => Err(MalformedToken)
    case Some((payload, sig)) =>
      match (B64d(payload), B64d(sig))
      case (Some(raw), Some(provided)) => if provided == codec.mac(payload) then Ok(raw) else Err(InvalidSignature)
      case _ => Err(MalformedToken)
  }

  /** `verify` up to its nonce check; `compare_digest` refuses non-ASCII text with a type error. */
  function VerifyClaim(codec: Codec, token: string, assetId: string, tenantId: string, now: int): Outcome {
    match Authenticate(codec, token)
    case Err(e) => Reject(e)
    case Ok(raw) =>
      match codec.decode(raw)
      case NotJson => Reject(MalformedPayload)
      case MissingFields => Reject(MissingClaim)
      case Fields(c) =>
        if !Ascii(c.assetId) || !Ascii(assetId) then Crash
        else if c.assetId != assetId then Reject(AssetMismatch)
        else if !Ascii(c.tenantId) || !Ascii(tenantId) then Crash
        else if c.tenantId != tenantId then Reject(TenantMismatch)
        else if now >= c.expiresAt then Reject(TokenExpired)
        else if c.issuedAt > now + CLOCK_SKEW then Reject(IssuedInFuture)
        else Accept(c)
  }

  /** `verify_without_consuming` up to its nonce check: no future check, and payload faults are not token errors. */
  function PeekClaim(codec: Codec, token: string, assetId: string, tenantId: string, now: int): Outcome {
    match Authenticate(codec, token)
    case Err(e) => Reject(e)
    case Ok(raw) =>
      match codec.decode(raw)
      case NotJson => Crash
      case MissingFields => Crash
      case Fields(c) =>
        if c.assetId != assetId then Reject(AssetMismatch)
        else if c.tenantId != tenantId then Reject(TenantMismatch)
        else if now >= c.expiresAt then Reject(TokenExpired)
        else Accept(c)
  }

  /** The lock-protected end of both checks. */
  function AgainstUsed(o: Outcome, used: set<string>): Outcome {
    if o.Accept? && o.claim.nonce in used then Reject(ReplayDetected) else o
  }

  function Verify(codec: Codec, used: set<string>, token: string, assetId: string, tenantId: string, now: int): Outcome {
    AgainstUsed(VerifyClaim(codec, token, assetId, tenantId, now), used)
  }

  function Peek(codec: Codec, used: set<string>, token: string, assetId: string, tenantId: string, now: int): Outcome {
    AgainstUsed(PeekClaim(codec, token, assetId, tenantId, now), used)
  }

  function Burned(o: Outcome): set<string> {
    if o.Accept? then {o.claim.nonce} else {}
  }

  class ConsentTokenStore {
    const codec: Codec
    var usedNonces: set<string>

    constructor (codec: Codec)
      ensures this.codec == codec && usedNonces == {}
    {
      this.codec := codec;
      usedNonces := {};
    }

    method MintToken(assetId: string, tenantId: string, ttl: int, now: int, nonce: string) returns (token: string)
      ensures token == Mint(codec, assetId, tenantId, ttl, now, nonce)
    {
      var payload := B64e(codec.encode(Claim(assetId, tenantId, nonce, now, now + ttl)));
      var sig := codec.mac(payload);
      return payload + "." + B64e(sig);
    }

    method VerifyToken(token: string, assetId: string, tenantId: string, now: int) returns (o: Outcome)
      modifies this`usedNonces
      ensures o == Verify(codec, old(usedNonces), token, assetId, tenantId, now)
      ensures usedNonces == old(usedNonces) + Burned(o)
    {
      var raw := Authenticate(codec, token);
      if raw.Err? { return Reject(raw.error); }
      var payload := codec.decode(raw.value);
      if payload.NotJson? { return Reject(MalformedPayload); }
      if payload.MissingFields? { return Reject(MissingClaim); }
      var c := payload.claim;
      if !Ascii(c.assetId) || !Ascii(assetId) { return Crash; }
      if c.assetId != assetId { return Reject(AssetMismatch); }
      if !Ascii(c.tenantId) || !Ascii(tenantId) { return Crash; }
      if c.tenantId != tenantId { return Reject(TenantMismatch); }
      if now >= c.expiresAt { return Reject(TokenExpired); }
      if c.issuedAt > now + CLOCK_SKEW { return Reject(IssuedInFuture); }
      if c.nonce in usedNonces { return Reject(ReplayDetected); }
      usedNonces := usedNonces + {c.nonce};
      return Accept(c);
    }

    method VerifyWithoutConsuming(token: string, assetId: string, tenantId: string, now: int) returns (o: Outcome)
      ensures o == Peek(codec, usedNonces, token, assetId, tenantId, now)
    {
      var raw := Authenticate(codec, token);
      if raw.Err? { return Reject(raw.error); }
      var payload := codec.decode(raw.value);
      if !payload.Fields? { return Crash; }
      var c := payload.claim;
      if c.assetId != assetId { return Reject(AssetMismatch); }
      if c.tenantId != tenantId { return Reject(TenantMismatch); }
      if now >= c.expiresAt { return Reject(TokenExpired); }
      if c.nonce in usedNonces { return Reject(ReplayDetected); }
      return Accept(c);
    }
  }

  const MIN_KEY := 32

  datatype KeyError = KeyTooShort

  /** Opening a store under a key: a key of fewer than 32 bytes is refused. */
  method OpenTokenStore(key: seq<Byte>, hmac: (seq<Byte>, string) -> seq<Byte>, encode: Claim -> seq<Byte>, decode: seq<Byte> -> Payload)
    returns (r: Result<ConsentTokenStore, KeyError>)
    ensures r.Ok? <==> |key| >= 32
    ensures r.Ok? ==> fresh(r.value) && r.value.usedNonces == {}
    ensures r.Ok? ==> forall text :: r.value.codec.mac(text) == hmac(key, text)
    ensures r.Ok? ==> r.value.codec.encode == encode && r.value.codec.decode == decode
  {
    if |key| < MIN_KEY { return Err(KeyTooShort); }
    var store := new ConsentTokenStore(Codec((text: string) => hmac(key, text), encode, decode));
    return Ok(store);
  }

  // ---------- wire theorems ----------

  lemma {:induction false} SplitAtFirstDot(a: string, b: string)
    requires '.' !in a
    ensures SplitDot(a + "." + b) == Some((a, b))
  {
    if a == "" {
      assert a + "." + b == "." + b;
    } else {
      assert (a + "." + b)[1..] == a[1..] + "." + b;
      SplitAtFirstDot(a[1..], b);
      assert a[0] in a && [a[0]] + a[1..] == a;
    }
  }

  /** A minted token splits into its two parts, authenticates, and carries its own claim. */
  lemma {:induction false} MintedAuthenticates(codec: Codec, assetId: string, tenantId: string, ttl: int, now: int, nonce: string)
    ensures var c := Claim(assetId, tenantId, nonce, now, now + ttl);
            var payload := B64e(codec.encode(c));
            var token := Mint(codec, assetId, tenantId, ttl, now, nonce);
            && SplitDot(token) == Some((payload, B64e(codec.mac(payload))))
            && Authenticate(codec, token) == Ok(codec.encode(c))
  {
    var payload := B64e(codec.encode(Claim(assetId, tenantId, nonce, now, now + ttl)));
    RoundTrip(codec.encode(Claim(assetId, tenantId, nonce, now, now + ttl)));
    RoundTrip(codec.mac(payload));
    SplitAtFirstDot(payload, B64e(codec.mac(payload)));
  }

  /** For ASCII ids a minted token verifies exactly for its own scopes, in its window, while its nonce is unused. */
  lemma {:induction false} MintedVerifiesIff(codec: Codec, used: set<string>, assetId: string, tenantId: string, ttl: int, issued: int, nonce: string,
                          asset': string, tenant': string, now: int)
    requires Lawful(codec)
    requires Ascii(assetId) && Ascii(tenantId) && Ascii(asset') && Ascii(tenant')
    ensures var o := Verify(codec, used, Mint(codec, assetId, tenantId, ttl, issued, nonce), asset', tenant', now);
            && !o.Crash?
            && (o.Accept? <==> asset' == assetId && tenant' == tenantId && nonce !in used
                               && now < issued + ttl && issued <= now + CLOCK_SKEW)
            && (o.Accept? ==> o.claim == Claim(assetId, tenantId, nonce, issued, issued + ttl))
  {
    MintedAuthenticates(codec, assetId, tenantId, ttl, issued, nonce);
  }

  /** Consuming is the stricter check: it accepts only what peeking accepts, and differs only on future tokens. */
  lemma {:induction false} VerifyImpliesPeek(codec: Codec, used: set<string>, token: string, assetId: string, tenantId: string, now: int)
    ensures Verify(codec, used, token, assetId, tenantId, now).Accept? ==>
              Peek(codec, used, token, assetId, tenantId, now) == Verify(codec, used, token, assetId, tenantId, now)
  {
  }
}
