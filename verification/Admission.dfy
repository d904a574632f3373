/** Training admission and frozen build manifests. */
module Admission {
  import opened Wrappers
  import opened Sequences
  import opened Text
  import opened Mandate
  import opened Merkle
  import opened Gateway
  import GatewayTheorems

  datatype AdmissionError =
    | MandateNotVerified(assetId: string)
    | AssetWithdrawn(assetId: string)
    | TenantMismatch(assetId: string)
    | OutsideWindow(assetId: string)
    | TrainingNotAllowed(assetId: string)

  datatype Manifest = Manifest(
    buildId: string, frozenAt: int, admittedAssets: seq<string>, contentHashes: seq<string>,
    merkleRoot: string, ruleVersion: string)

  function CheckAdmission(signer: Signer, keys: map<string, Key>, a: Asset, tenantId: string, now: int): Option<AdmissionError> {
    if a.custodianId !in keys || !VerifyMandate(signer, a, keys[a.custodianId]) then Some(MandateNotVerified(a.assetId))
    else if a.withdrawn then Some(AssetWithdrawn(a.assetId))
    else if a.tenantId != tenantId then Some(TenantMismatch(a.assetId))
    else if now < a.validFrom || now > a.validUntil then Some(OutsideWindow(a.assetId))
    else if a.usageConstraints != [] && "train" !in a.usageConstraints then Some(TrainingNotAllowed(a.assetId))
    else None
  }

  const ByAssetId: (Asset, Asset) -> bool := (a: Asset, b: Asset) => StrLe(a.assetId, b.assetId)

  function AssetIds(assets: seq<Asset>): seq<string> {
    seq(|assets|, i requires 0 <= i < |assets| => assets[i].assetId)
  }

  function ContentHashes(assets: seq<Asset>): seq<string> {
    seq(|assets|, i requires 0 <= i < |assets| => assets[i].contentHash)
  }

  /** The first refusal in list order, if any. */
  function FirstRefusal(signer: Signer, keys: map<string, Key>, assets: seq<Asset>, tenantId: string, now: int): Option<AdmissionError> {
    if assets == [] then None
    else match CheckAdmission(signer, keys, assets[0], tenantId, now)
      case Some(e) => Some(e)
      case None => FirstRefusal(signer, keys, assets[1..], tenantId, now)
  }

  function ManifestOf(sha: string -> string, buildId: string, assets: seq<Asset>, now: int, ruleVersion: string): Manifest {
    var ordered := SortBy(ByAssetId, assets);
    Manifest(buildId, now, AssetIds(ordered), ContentHashes(ordered), Root(sha, ContentHashes(ordered)), ruleVersion)
  }

  class AdmissionPipeline {
    const signer: Signer
    const sha: string -> string
    const keys: map<string, Key>
    const ruleVersion: string

    constructor (signer: Signer, sha: string -> string, keys: map<string, Key>, ruleVersion: string)
      ensures this.signer == signer && this.sha == sha && this.keys == keys && this.ruleVersion == ruleVersion
    {
      this.signer, this.sha, this.keys, this.ruleVersion := signer, sha, keys, ruleVersion;
    }

    method Admit(a: Asset, tenantId: string, now: int) returns (refused: Option<AdmissionError>)
      ensures refused == CheckAdmission(signer, keys, a, tenantId, now)
    {
      if a.custodianId !in keys || !VerifyMandate(signer, a, keys[a.custodianId]) {
        return Some(MandateNotVerified(a.assetId));
      }
      if a.withdrawn { return Some(AssetWithdrawn(a.assetId)); }
      if a.tenantId != tenantId { return Some(TenantMismatch(a.assetId)); }
      if now < a.validFrom || now > a.validUntil { return Some(OutsideWindow(a.assetId)); }
      if a.usageConstraints != [] && "train" !in a.usageConstraints { return Some(TrainingNotAllowed(a.assetId)); }
      return None;
    }

    method Freeze(buildId: string, admitted: seq<Asset>, tenantId: string, now: int)
      returns (r: Result<Manifest, AdmissionError>)
      ensures r == match FirstRefusal(signer, keys, admitted, tenantId, now)
                   case Some(e) => Err(e)
                   case None => Ok(ManifestOf(sha, buildId, admitted, now, ruleVersion))
    {
      var k := 0;
      while k < |admitted|
        invariant 0 <= k <= |admitted|
        invariant FirstRefusal(signer, keys, admitted[k..], tenantId, now) == FirstRefusal(signer, keys, admitted, tenantId, now)
      {
        var refused := Admit(admitted[k], tenantId, now);
        if refused.Some? { return Err(refused.value); }
        k := k + 1;
      }
      var ordered := SortBy(ByAssetId, admitted);
      var hashes := ContentHashes(ordered);
      var root := MerkleRoot(sha, hashes);
      return Ok(Manifest(buildId, now, AssetIds(ordered), hashes, root, ruleVersion));
    }

    method VerifyManifest(m: Manifest) returns (ok: bool)
      ensures ok <==> Verifies(sha, m)
    {
      var root := MerkleRoot(sha, m.contentHashes);
      return m.merkleRoot == root;
    }
  }

  predicate Verifies(sha: string -> string, m: Manifest) {
    m.merkleRoot == Root(sha, m.contentHashes)
  }

  // ---------- admission and the gateway ----------

  /**
   * Admission agrees with the gateway: a stored asset is admitted for its request's tenant exactly when a `train`
   * request without scopes or tokens and with a clean prompt is not Blocked, whatever nonces are already burned.
   */
  lemma {:induction false} AdmitIffNotBlocked(env: Env, assets: map<string, Asset>, used: set<string>, req: Request, now: int, ticket: string, counter: nat)
    requires req.assetId in assets && req.action == "train" && req.authScopes == [] && req.consentTokens == []
    requires !env.injection(req.promptText)
    ensures var v := Judge(env, assets, used, req, now).0;
            CheckAdmission(env.signer, env.keys, assets[req.assetId], req.tenantId, now).None? <==>
              Conclude(env, v, req, now, ticket, counter).0.state != Blocked
  {
    GatewayTheorems.RulesIffCleared(env, assets[req.assetId], req, now);
    GatewayTheorems.DecisionTable(env, assets, used, req, now);
  }

  /** What an asset must be to be admitted, whatever the order of the checks. */
  ghost predicate Admissible(signer: Signer, keys: map<string, Key>, a: Asset, tenantId: string, now: int) {
    && GatewayTheorems.ProperlySigned(signer, keys, a)
    && !a.withdrawn && a.tenantId == tenantId && a.validFrom <= now <= a.validUntil
    && (a.usageConstraints == [] || "train" in a.usageConstraints)
  }

  lemma {:induction false} AdmittedIff(signer: Signer, keys: map<string, Key>, a: Asset, tenantId: string, now: int)
    requires LowerHex(a.mandateSignature)
    ensures CheckAdmission(signer, keys, a, tenantId, now).None? <==> Admissible(signer, keys, a, tenantId, now)
    ensures var refused := CheckAdmission(signer, keys, a, tenantId, now);
            var signed := GatewayTheorems.ProperlySigned(signer, keys, a);
            && (refused == Some(MandateNotVerified(a.assetId)) <==> !signed)
            && (refused == Some(AssetWithdrawn(a.assetId)) <==> signed && a.withdrawn)
            && (refused == Some(TenantMismatch(a.assetId)) <==> signed && !a.withdrawn && a.tenantId != tenantId)
            && (refused == Some(OutsideWindow(a.assetId)) <==>
                  signed && !a.withdrawn && a.tenantId == tenantId && (now < a.validFrom || a.validUntil < now))
            && (refused.Some? ==> refused.value.assetId == a.assetId)
  {
    if a.custodianId in keys {
      StoredSignatureIff(signer, a, keys[a.custodianId]);
    }
  }

  // ---------- freezing ----------

  /** Asset `k` is the first in list order that is not admitted. */
  ghost predicate FirstRefused(signer: Signer, keys: map<string, Key>, assets: seq<Asset>, tenantId: string, now: int, k: int) {
    && 0 <= k < |assets| && CheckAdmission(signer, keys, assets[k], tenantId, now).Some?
    && forall j | 0 <= j < k :: CheckAdmission(signer, keys, assets[j], tenantId, now).None?
  }

  lemma {:induction false} FirstRefusalIff(signer: Signer, keys: map<string, Key>, assets: seq<Asset>, tenantId: string, now: int)
    ensures FirstRefusal(signer, keys, assets, tenantId, now).None? <==>
              forall k | 0 <= k < |assets| :: CheckAdmission(signer, keys, assets[k], tenantId, now).None?
    ensures forall k | FirstRefused(signer, keys, assets, tenantId, now, k) ::
              FirstRefusal(signer, keys, assets, tenantId, now) == CheckAdmission(signer, keys, assets[k], tenantId, now)
  {
    if assets != [] {
      FirstRefusalIff(signer, keys, assets[1..], tenantId, now);
      forall k | k > 0 && FirstRefused(signer, keys, assets, tenantId, now, k)
        ensures FirstRefused(signer, keys, assets[1..], tenantId, now, k - 1)
      {
        assert forall j | 0 <= j < k - 1 :: assets[1..][j] == assets[j + 1];
      }
      assert forall k | 0 < k < |assets| :: assets[k] == assets[1..][k - 1];
      assert forall k | 0 <= k < |assets| - 1 :: assets[1..][k] == assets[k + 1];
    }
  }

  lemma {:induction false} HashesPermute(a: seq<Asset>, b: seq<Asset>)
    requires multiset(a) == multiset(b)
    ensures multiset(ContentHashes(a)) == multiset(ContentHashes(b))
  {
    var f := (x: Asset) => x.contentHash;
    MapPermutes(f, a, b);
    assert ContentHashes(a) == Map(f, a) && ContentHashes(b) == Map(f, b);
  }

  /** Freezing admits all or nothing; a frozen manifest lists every content hash once per asset, and verifies. */
  lemma {:induction false} FreezeAllOrNothing(signer: Signer, keys: map<string, Key>, sha: string -> string, buildId: string,
                           assets: seq<Asset>, tenantId: string, now: int, ruleVersion: string)
    ensures FirstRefusal(signer, keys, assets, tenantId, now).None? <==>
              forall k | 0 <= k < |assets| :: CheckAdmission(signer, keys, assets[k], tenantId, now).None?
    ensures var m := ManifestOf(sha, buildId, assets, now, ruleVersion);
            && Verifies(sha, m)
            && multiset(m.contentHashes) == multiset(ContentHashes(assets))
            && |m.admittedAssets| == |m.contentHashes| == |assets|
            && SortedBy(ByText, m.admittedAssets)
            && m.merkleRoot == Root(sha, ContentHashes(assets))
  {
    FirstRefusalIff(signer, keys, assets, tenantId, now);
    SortByPermutes(ByAssetId, assets);
    HashesPermute(SortBy(ByAssetId, assets), assets);
    RootOfPermutation(sha, ContentHashes(SortBy(ByAssetId, assets)), ContentHashes(assets));
    AssetOrder();
    SortBySorted(ByAssetId, assets);
  }

  /** The id and the content hash of each asset. */
  function Pairs(assets: seq<Asset>): seq<(string, string)> {
    seq(|assets|, i requires 0 <= i < |assets| => (assets[i].assetId, assets[i].contentHash))
  }

  lemma {:induction false} PairsPermute(a: seq<Asset>, b: seq<Asset>)
    requires multiset(a) == multiset(b)
    ensures multiset(Pairs(a)) == multiset(Pairs(b))
  {
    var f := (x: Asset) => (x.assetId, x.contentHash);
    MapPermutes(f, a, b);
    assert Pairs(a) == Map(f, a) && Pairs(b) == Map(f, b);
  }

  /** The two lists of a manifest, read side by side. */
  ghost function Listed(m: Manifest): seq<(string, string)>
    requires |m.admittedAssets| == |m.contentHashes|
  {
    seq(|m.admittedAssets|, i requires 0 <= i < |m.admittedAssets| => (m.admittedAssets[i], m.contentHashes[i]))
  }

  /** A manifest lists each admitted asset's id beside its own content hash, and is stamped as asked. */
  lemma {:induction false} ManifestLists(sha: string -> string, buildId: string, assets: seq<Asset>, now: int, ruleVersion: string)
    ensures var m := ManifestOf(sha, buildId, assets, now, ruleVersion);
            && m.buildId == buildId && m.frozenAt == now && m.ruleVersion == ruleVersion
            && |m.admittedAssets| == |m.contentHashes| == |assets|
            && multiset(Listed(m)) == multiset(Pairs(assets))
  {
    var m := ManifestOf(sha, buildId, assets, now, ruleVersion);
    var ordered := SortBy(ByAssetId, assets);
    SortByPermutes(ByAssetId, assets);
    PairsPermute(ordered, assets);
    assert Listed(m) == Pairs(ordered);
  }

  lemma {:induction false} AssetOrder()
    ensures TotalPreorder(ByAssetId)
  {
    forall x, y ensures ByAssetId(x, y) || ByAssetId(y, x) {
      StrLeTotal(x.assetId, y.assetId);
    }
    forall x, y, z | ByAssetId(x, y) && ByAssetId(y, z) ensures ByAssetId(x, z) {
      StrLeTransitive(x.assetId, y.assetId, z.assetId);
    }
  }

  /**
   * A manifest of the frozen size whose hashes are all digests verifies against the frozen root exactly when its hashes
   * are a permutation of the frozen ones, unless two of the texts hashed for the two roots collide.
   */
  lemma {:induction false} SubstitutionDetected(sha: string -> string, frozen: Manifest, shown: Manifest)
    requires Verifies(sha, frozen) && shown.merkleRoot == frozen.merkleRoot
    requires AllDigests(frozen.contentHashes) && AllDigests(shown.contentHashes)
    requires |shown.contentHashes| == |frozen.contentHashes|
    requires NoCollision(sha, HashedFor(sha, frozen.contentHashes, shown.contentHashes))
    ensures Verifies(sha, shown) <==> multiset(shown.contentHashes) == multiset(frozen.contentHashes)
  {
    RootCommits(sha, frozen.contentHashes, shown.contentHashes);
  }

  /**
   * The promise that any substitution after freezing is detectable, with no condition on what is shown, holds of a
   * frozen manifest exactly when it lists one content hash and that is no value of the hash function.
   */
  lemma {:induction false} SubstitutionUndetectedIff(sha: string -> string, frozen: Manifest)
    requires Verifies(sha, frozen)
    ensures (exists hashes :: multiset(hashes) != multiset(frozen.contentHashes)
                              && Verifies(sha, frozen.(contentHashes := hashes)))
       <==> |frozen.contentHashes| != 1 || exists s :: frozen.contentHashes[0] == sha(s)
  {
    RootDeterminesIff(sha, frozen.contentHashes);
    if hashes :| multiset(hashes) != multiset(frozen.contentHashes) && Root(sha, hashes) == Root(sha, frozen.contentHashes) {
      assert Verifies(sha, frozen.(contentHashes := hashes));
    }
    if hashes :| multiset(hashes) != multiset(frozen.contentHashes) && Verifies(sha, frozen.(contentHashes := hashes)) {
      assert Root(sha, hashes) == Root(sha, frozen.contentHashes);
    }
  }

  /** Of another size it need not be detected: an odd frozen build verifies with its largest hash repeated. */
  lemma {:induction false} PaddedManifestVerifies(sha: string -> string, frozen: Manifest)
    requires Verifies(sha, frozen) && |frozen.contentHashes| % 2 == 1 && |frozen.contentHashes| > 1
    ensures exists extra :: extra in frozen.contentHashes
              && Verifies(sha, frozen.(contentHashes := frozen.contentHashes + [extra]))
  {
    var hashes := frozen.contentHashes;
    PaddingCollision(sha, hashes);
    SortTextCanonical(hashes, hashes);
    var extra := SortText(hashes)[|hashes| - 1];
    assert extra in multiset(SortText(hashes));
    assert Verifies(sha, frozen.(contentHashes := hashes + [extra]));
  }
}
