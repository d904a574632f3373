/** Which tokens are accepted, and which faults are told apart: stated on the text of the token alone. */
module TokenTheorems {
  import opened Wrappers
  import opened Base64
  import opened Tokens

  /** The text before the first dot and the text after it. */
  ghost predicate Parts(token: string, payload: string, sig: string) {
    token == payload + "." + sig && '.' !in payload
  }

  /** The second part is the MAC of the first part as it stands, which encodes `raw`. */
  ghost predicate Signed(codec: Codec, token: string, payload: string, sig: string, raw: seq<Byte>) {
    Parts(token, payload, sig) && B64d(sig) == Some(codec.mac(payload)) && B64d(payload) == Some(raw)
  }

  /** The token carries claim `c` under a valid signature. */
  ghost predicate Carries(codec: Codec, token: string, c: Claim) {
    exists payload, sig, raw :: Signed(codec, token, payload, sig, raw) && codec.decode(raw) == Fields(c)
  }

  ghost predicate SignedButUnreadable(codec: Codec, token: string) {
    exists payload, sig, raw :: Signed(codec, token, payload, sig, raw) && !codec.decode(raw).Fields?
  }

  lemma {:induction false} SplitParts(token: string)
    ensures SplitDot(token).None? <==> '.' !in token
    ensures SplitDot(token).Some? ==> Parts(token, SplitDot(token).value.0, SplitDot(token).value.1)
  {
    if token != "" && token[0] != '.' {
      var rest := token[1..];
      SplitParts(rest);
      assert token == [token[0]] + rest;
      if SplitDot(rest).Some? {
        var (a, b) := SplitDot(rest).value;
        assert token == ([token[0]] + a) + "." + b;
      }
    } else if token != "" {
      assert token == "" + "." + token[1..];
    }
  }

  /** A token has one such pair of parts. */
  lemma {:induction false} PartsAreSplit(token: string, payload: string, sig: string)
    requires Parts(token, payload, sig)
    ensures SplitDot(token) == Some((payload, sig))
  {
    SplitAtFirstDot(payload, sig);
  }

  /** Authentication answers with the signed bytes exactly when there are some. */
  lemma {:induction false} AuthenticIff(codec: Codec, token: string, raw: seq<Byte>)
    ensures Authenticate(codec, token) == Ok(raw) <==> exists payload, sig :: Signed(codec, token, payload, sig, raw)
  {
    SplitParts(token);
    if payload, sig :| Signed(codec, token, payload, sig, raw) {
      PartsAreSplit(token, payload, sig);
    }
    if Authenticate(codec, token) == Ok(raw) {
      var (payload, sig) := SplitDot(token).value;
      assert Signed(codec, token, payload, sig, raw);
    }
  }

  lemma {:induction false} CarriesIff(codec: Codec, token: string, c: Claim)
    ensures Carries(codec, token, c) <==>
              Authenticate(codec, token).Ok? && codec.decode(Authenticate(codec, token).value) == Fields(c)
  {
    if payload, sig, raw :| Signed(codec, token, payload, sig, raw) && codec.decode(raw) == Fields(c) {
      AuthenticIff(codec, token, raw);
    }
    if Authenticate(codec, token).Ok? {
      AuthenticIff(codec, token, Authenticate(codec, token).value);
    }
  }

  lemma {:induction false} UnreadableIff(codec: Codec, token: string)
    ensures SignedButUnreadable(codec, token) <==>
              Authenticate(codec, token).Ok? && !codec.decode(Authenticate(codec, token).value).Fields?
  {
    if payload, sig, raw :| Signed(codec, token, payload, sig, raw) && !codec.decode(raw).Fields? {
      AuthenticIff(codec, token, raw);
    }
    if Authenticate(codec, token).Ok? {
      AuthenticIff(codec, token, Authenticate(codec, token).value);
    }
  }

  /**
   * `verify` accepts a token exactly when it carries its claim under a valid signature, for the expected ASCII ids,
   * before its expiry, issued at most 60 seconds ahead, with its nonce unused.
   */
  lemma {:induction false} VerifyAcceptsIff(codec: Codec, used: set<string>, token: string, assetId: string, tenantId: string, now: int, c: Claim)
    ensures Verify(codec, used, token, assetId, tenantId, now) == Accept(c) <==>
              && Carries(codec, token, c)
              && c.assetId == assetId && c.tenantId == tenantId && Ascii(assetId) && Ascii(tenantId)
              && now < c.expiresAt && c.issuedAt <= now + 60 && c.nonce !in used
  {
    CarriesIff(codec, token, c);
  }

  /** The peek accepts on the same terms, but for any text as ids and however far ahead the token was issued. */
  lemma {:induction false} PeekAcceptsIff(codec: Codec, used: set<string>, token: string, assetId: string, tenantId: string, now: int, c: Claim)
    ensures Peek(codec, used, token, assetId, tenantId, now) == Accept(c) <==>
              && Carries(codec, token, c)
              && c.assetId == assetId && c.tenantId == tenantId
              && now < c.expiresAt && c.nonce !in used
  {
    CarriesIff(codec, token, c);
  }

  /** The two faults the gateway tells apart, as the peek reports them. */
  lemma {:induction false} PeekFaultsIff(codec: Codec, used: set<string>, token: string, assetId: string, tenantId: string, now: int)
    ensures var o := Peek(codec, used, token, assetId, tenantId, now);
            && (o == Reject(TokenExpired) <==>
                  exists c :: Carries(codec, token, c) && c.assetId == assetId && c.tenantId == tenantId && c.expiresAt <= now)
            && (o == Reject(ReplayDetected) <==>
                  exists c :: Carries(codec, token, c) && c.assetId == assetId && c.tenantId == tenantId
                              && now < c.expiresAt && c.nonce in used)
            && (o == Crash <==> SignedButUnreadable(codec, token))
  {
    UnreadableIff(codec, token);
    forall c ensures Carries(codec, token, c) <==>
                       Authenticate(codec, token).Ok? && codec.decode(Authenticate(codec, token).value) == Fields(c)
    {
      CarriesIff(codec, token, c);
    }
    if Authenticate(codec, token).Ok? && codec.decode(Authenticate(codec, token).value).Fields? {
      var c := codec.decode(Authenticate(codec, token).value).claim;
      assert Carries(codec, token, c);
    }
  }

  /** `verify` fails with something other than a token error exactly on signed claims whose compared ids are not ASCII. */
  lemma {:induction false} VerifyCrashesIff(codec: Codec, used: set<string>, token: string, assetId: string, tenantId: string, now: int)
    ensures Verify(codec, used, token, assetId, tenantId, now) == Crash <==>
              exists c :: Carries(codec, token, c)
                && (|| !Ascii(c.assetId) || !Ascii(assetId)
                    || (c.assetId == assetId && (!Ascii(c.tenantId) || !Ascii(tenantId))))
  {
    forall c ensures Carries(codec, token, c) <==>
                       Authenticate(codec, token).Ok? && codec.decode(Authenticate(codec, token).value) == Fields(c)
    {
      CarriesIff(codec, token, c);
    }
    if Authenticate(codec, token).Ok? && codec.decode(Authenticate(codec, token).value).Fields? {
      var c := codec.decode(Authenticate(codec, token).value).claim;
      assert Carries(codec, token, c);
    }
  }

  /** Every token without a dot, and every one whose parts do not decode, is malformed; a wrong MAC is told apart. */
  lemma {:induction false} FormatFaultsIff(codec: Codec, used: set<string>, token: string, assetId: string, tenantId: string, now: int)
    ensures var o := Verify(codec, used, token, assetId, tenantId, now);
            && (o == Reject(MalformedToken) <==>
                  '.' !in token || exists p, sig :: Parts(token, p, sig) && (B64d(p).None? || B64d(sig).None?))
            && (o == Reject(InvalidSignature) <==>
                  exists p, sig :: Parts(token, p, sig) && B64d(p).Some? && B64d(sig).Some? && B64d(sig) != Some(codec.mac(p)))
    ensures var o, q := Verify(codec, used, token, assetId, tenantId, now), Peek(codec, used, token, assetId, tenantId, now);
            && (o == Reject(MalformedToken) <==> q == Reject(MalformedToken))
            && (o == Reject(InvalidSignature) <==> q == Reject(InvalidSignature))
  {
    SplitParts(token);
    forall p, sig | Parts(token, p, sig) ensures SplitDot(token) == Some((p, sig)) {
      PartsAreSplit(token, p, sig);
    }
    if '.' in token {
      assert Parts(token, SplitDot(token).value.0, SplitDot(token).value.1);
    }
  }

  /** The whole answer of `verify` on a token that carries claim `c`. */
  lemma {:induction false} VerifyOfClaim(codec: Codec, used: set<string>, token: string, assetId: string, tenantId: string, now: int, c: Claim)
    requires Carries(codec, token, c) && Ascii(assetId) && Ascii(tenantId)
    ensures Verify(codec, used, token, assetId, tenantId, now) ==
              if exists x | x in c.assetId :: x >= 128 as char then Crash
              else if c.assetId != assetId then Reject(AssetMismatch)
              else if exists x | x in c.tenantId :: x >= 128 as char then Crash
              else if c.tenantId != tenantId then Reject(TenantMismatch)
              else if c.expiresAt <= now then Reject(TokenExpired)
              else if c.issuedAt - now > 60 then Reject(IssuedInFuture)
              else if c.nonce in used then Reject(ReplayDetected)
              else Accept(c)
  {
    CarriesIff(codec, token, c);
  }

  /** The whole answer of the peek. */
  lemma {:induction false} PeekOfClaim(codec: Codec, used: set<string>, token: string, assetId: string, tenantId: string, now: int, c: Claim)
    requires Carries(codec, token, c)
    ensures Peek(codec, used, token, assetId, tenantId, now) ==
              if c.assetId != assetId then Reject(AssetMismatch)
              else if c.tenantId != tenantId then Reject(TenantMismatch)
              else if c.expiresAt <= now then Reject(TokenExpired)
              else if c.nonce in used then Reject(ReplayDetected)
              else Accept(c)
  {
    CarriesIff(codec, token, c);
  }

  /** A validly signed payload that is no claim: `verify` says what is wrong with it, the peek fails. */
  lemma {:induction false} UnreadablePayload(codec: Codec, used: set<string>, token: string, payload: string, sig: string, raw: seq<Byte>,
                          assetId: string, tenantId: string, now: int)
    requires Signed(codec, token, payload, sig, raw) && !codec.decode(raw).Fields?
    ensures Verify(codec, used, token, assetId, tenantId, now) ==
              Reject(if codec.decode(raw) == NotJson then MalformedPayload else MissingClaim)
    ensures Peek(codec, used, token, assetId, tenantId, now) == Crash
  {
    AuthenticIff(codec, token, raw);
  }
}
