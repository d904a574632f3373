# Verified model of the provenance gateway

This project models the stateful core of a data-rights service — a policy gateway with single-use consent tokens, an
asset store with withdrawal, a fixed-point contribution ledger, a Merkle-pinned training manifest, a hash-chained
execution trace and a workflow engine — and proves what those parts promise, over all inputs, all histories and all
interleavings of their locked regions. `dafny verify dfyconfig.toml` checks everything.

## How the model is laid out

| files | part of the system |
|---|---|
| `Allocation`, `AllocationTheorems`, `TieBreaks`, `Rounding` | the two arithmetic rules of the ledger |
| `Ledger`, `LedgerTheorems`, `PostingTheorems`, `ReplayTheorems` | the ledger class, conservation over histories, what is posted and accepted, replay |
| `Base64`, `Base64Theorems`, `Tokens`, `TokenTheorems` | the token wire format, the nonce store, which tokens are accepted |
| `Mandate`, `AssetStore`, `Connectors` | signed assets, the store, withdrawal and quarantine |
| `Gateway`, `GatewayTheorems`, `ConcurrentGate` | the decision procedure, alone and interleaved |
| `Merkle`, `Admission` | the manifest root, admission and freezing |
| `Trace`, `Engine`, `EngineHistory`, `ConcurrentEngine` | the hash chain and the run state machine, by history and interleaved |
| `Sequences`, `Text`, `Wrappers` | sums, sorting, text order, zero padding, `Option` and `Result` |

Automatic induction is off in every lemma; where a proof is inductive its recursive call is written out.

Every class of the source is a class here, with its fields, loops and branches. Each method is proved equal to a
function of the old state (`Post`, `Judge`, `Verify`, `Enter`, `Root`, …); the theorems are about those functions. For
the two concurrent parts there is a second model: a step relation with one step per lock-protected region, in which an
execution is any sequence of actions. `ConcurrentGate.AloneIsSequential`, `ConcurrentEngine.SubmitAlone`,
`ConcurrentEngine.ReleaseAlone` and `ConcurrentEngine.WorkAlone` tie the steps back to the sequential classes.

## What is abstract

- SHA-256, HMAC, the JSON codec of a token payload, the ISO rendering of a time, the prompt screen and the printed
  length of a quoted scope are function parameters. A lemma that needs a round trip or a digest width says so in its
  `requires`. No hash is taken to be injective: a lemma about a commitment requires that no two of the texts, or of the
  records, that are actually hashed for the lists at hand collide. `compare_digest` is equality, except that it raises
  on non-ASCII text.
- A revocation listener is a connector registry's `quarantine`, a callable that leaves this model's state alone, or one
  that raises.
- Clocks, nonces and tickets are inputs. Wall times are microseconds. The trace's monotonic clock moves by a
  non-negative amount between appends.
- A run id is fresh in the source; here it is the run's position.
- The ledger's record dictionary is the sequence of its values in insertion order, so that two equal keys would be
  visible; distinct keys are a theorem (`LedgerTheorems.HistoryWellFormed`).
- Pydantic's type checks are Dafny's types. The two length checks that a well-typed call can fail (a dispute reason over
  512 characters, a quoted scope that makes a decision reason exceed 1024) are modelled.

## Where the code and its documentation disagree

The model follows the code.

- `src/accounting/ledger.py:5` says ties break toward the lowest asset id; the code breaks them toward the lowest index. One
  cent over two equal weights listed as `b`, `a` goes to `b` (`TieBreaks.DescendingIdsDiffer`). The two rules give the same
  split exactly when the last leftover cent does not fall between two equal remainders with descending ids
  (`TieBreaks.TieBreaksAgreeIff`), so always when contributions are listed by ascending id.
- Replay is promised without bound (`src/accounting/ledger.py:10-11`). Record ids have four padded digits, so a run of more
  than 10,000 contributions sorts out of index order and can never be replayed, not even with its own inputs:
  `ReplayTheorems.ReplayExact` gives the exact condition.
- "Any post-freeze substitution is detectable" (`src/training/admission.py:6-7`). A manifest's hashes are not checked for
  width or number, and leaves are hashed no differently from inner nodes, so for every hash function a frozen root
  determines its list up to order only when that is exactly one content hash that is no value of the hash function
  (`Admission.SubstitutionUndetectedIff`). Lists with a common root are named in `Merkle`: the root alone and the leaves
  (`RootDeterminesIff`), the hashes one level up (`LevelCollision`), two leaves cut elsewhere (`WidthCollision`, same
  number of leaves), the largest leaf of an odd list repeated (`PaddingCollision`). What is detected: among manifests
  of the frozen size that list only digests, everything but a permutation, short of a collision among the texts hashed
  (`Admission.SubstitutionDetected`).
- "Any reordering, deletion, or mutation breaks the chain" (`schemas/trace.py:4-5`). Deleting the last event does not
  (`Trace.DeletionUndetectedIff`), and the last event may be exchanged for any record that continues the chain before it
  (`Trace.MutationUndetectedIff`), such as itself with another actor and its hash recomputed (`Trace.RewrittenLastVerifies`).
  So the head hash has to be trusted (`Trace.HeadCommits`).
- Connectors are said to refuse reads until `acknowledge()` (`src/connectors/registry.py:5`); `reactivate` is needed as
  well, with no acknowledge after it (`Connectors.ServesIffBackInService`).
- A mandate is said to bind scopes and constraints (`src/records/mandate.py:3-7`). It binds the comma-joined sorted text:
  granting `x,y` and granting `x` and `y` sign alike (`Mandate.CommaCollision`). Among assets without `|`, a signature
  stands for one set of rights only, exactly when each of the two lists is a single non-empty entry that cannot be cut at a
  comma into two entries in order (`Mandate.AmbiguousIff`). Between two assets whose entries are all non-empty and
  free of commas the binding is exact (`Mandate.MessageDeterminesRights`).
- `hold.released` is traced whether or not the hold was dropped (`src/workflows/engine.py:117-120`).
- The peek does not check the issue time and lets payload errors escape as internal errors, unlike `verify`; that is why
  `GatewayTheorems.GatePassesIff` needs two conditions in general and one on ordinary tokens
  (`GatewayTheorems.TwoPhaseIsOnePhase`).

## Model

| member | source | states |
|---|---|---|
| Allocation.AllocateCents | src/accounting/ledger.py:41-73 | The loops refuse exactly as the checks do and otherwise compute the largest-remainder shares, zero revenue included |
| Allocation.Distribute | src/accounting/ledger.py:62-73 | Floors, remainders, the keyed sort and the hand-out loop together give the shares of the rule |
| Allocation.HandOut | src/accounting/ledger.py:70-73 | The modular index hands one cent to each of the first `leftover` indices of the order |
| Allocation.LeftoverBound | src/accounting/ledger.py:69-72 | The leftover is at least zero and strictly below the number of weights, so the index never wraps, and 10000 times it is the sum of the remainders |
| Allocation.OrderPermutes | src/accounting/ledger.py:70 | The order holds every index once, sorted by falling remainder and then rising index |
| Allocation.BumpPointwise | src/accounting/ledger.py:71-73 | Handing out k cents adds k to the sum and exactly one cent to each of the first k indices of the order |
| Allocation.SharesLargestRemainder | src/accounting/ledger.py:62-73 | The shares sum to the revenue, each is its floor or one more, and a cent goes to an index only if it went to every index with a larger remainder, or the same remainder and a lower index |
| AllocationTheorems.Optimal | src/accounting/ledger.py:62-73 | Among integer vectors with the same total the shares have the least squared distance from the exact quotas, and any other minimiser is lexicographically smaller |
| AllocationTheorems.RuleDetermines | src/accounting/ledger.py:62-73 | Two vectors that obey the largest-remainder rule are equal |
| AllocationTheorems.AllocateIsTheClosestSplit | src/accounting/ledger.py:41-73 | The call answers exactly on well-formed input, and its answer beats every other vector of the same total on distance, then lexicographically |
| AllocationTheorems.SplitRefusals | src/accounting/ledger.py:48-60 | Which fault a refused split reports: negative revenue, no weights, a negative weight, a total that is not 10000, in that order |
| AllocationTheorems.WithinQuota | src/accounting/ledger.py:62-73 | Every share is the floor or the ceiling of its exact quota, is non-negative, and a zero weight gets zero |
| AllocationTheorems.Fair | src/accounting/ledger.py:62-73 | A larger weight never gets less; equal weights differ by at most one cent, in favour of the lower index |
| TieBreaks.TieBreaksAgreeIff | src/accounting/ledger.py:3-8 | Breaking ties by asset id gives the split the code gives exactly when no leftover cent separates two equal remainders whose ids are in descending order |
| TieBreaks.AscendingIdsAgree | src/accounting/ledger.py:3-8 | Contributions listed by ascending asset id are split as documented |
| TieBreaks.DescendingIdsDiffer | src/accounting/ledger.py:70 | One cent over two equal weights listed as `b`, `a`: the code gives it to `b`, the documentation to `a` |
| Rounding.HalfEvenUnique | src/accounting/ledger.py:91-96 | The result is the one integer that is nearest to the ratio, ties to even |
| Rounding.RoundingMonotone | src/accounting/ledger.py:76-96 | A larger ratio never rounds to less |
| Rounding.RoundingScales | src/accounting/ledger.py:76-96 | Scaling numerator and denominator alike leaves the result unchanged |
| Rounding.ComplementaryRefunds | src/accounting/ledger.py:76-96 | Complementary refunds sum to the amount, except for a tie on an odd amount, where they are off by one |
| Rounding.HalfEvenWithinHalf | src/accounting/ledger.py:91-96 | The rounded amount is within half a cent of the exact rational |
| Rounding.RoundingRefusals | src/accounting/ledger.py:83-90 | A denominator below one is reported first, then a negative amount or numerator; nothing else is refused |
| Ledger.RecordIdInjective | src/accounting/ledger.py:143 | A record id determines its run id and its index, whatever characters the run id holds |
| Ledger.HasRecordIff | src/accounting/ledger.py:143-161 | A record id is on the books exactly when its run was posted with more contributions than its index |
| Ledger.FreshIds | src/accounting/ledger.py:143-145 | A posted run has index 0 on the books; a run never posted has no index there, whatever its run id |
| Ledger.WriteRecords | src/accounting/ledger.py:140-162 | The posting loop writes records in order up to the first id already present, which it reports, keeping what it wrote; it writes them all exactly when none is present |
| Ledger.ValidAfterPost | src/accounting/ledger.py:124-163 | Accepted or refused, a posting keeps the books well formed: proper splits, distinct runs, no orphaned offset |
| Ledger.ValidAfterDispute | src/accounting/ledger.py:165-184 | Accepted or refused, an offset keeps the books well formed |
| Ledger.ContributionLedger.constructor | src/accounting/ledger.py:119-122 | A new ledger is valid and empty |
| Ledger.ContributionLedger.PostRun | src/accounting/ledger.py:124-163 | The whole new state and the error are those of `Post`; what that writes is `PostingTheorems.PostedRecords`, when it is refused `PostingTheorems.PostOutcome` |
| Ledger.ContributionLedger.ApplyDisputeOffset | src/accounting/ledger.py:165-184 | The new state and the error are those of `Dispute`: unknown record, over-long reason, or the offset appended to its record |
| Ledger.ContributionLedger.ApplyPartialRefund | src/accounting/ledger.py:186-197 | The new state and the error are those of `Refund`: the rounded share of the allocation, negated, as an offset |
| Ledger.ContributionLedger.NetForRecord | src/accounting/ledger.py:199-205 | The loop returns allocation plus every offset of the record, or nothing for an unknown id |
| Ledger.ContributionLedger.StatementForCustodian | src/accounting/ledger.py:245-259 | The nested loops return the gross, adjustments and net of exactly that custodian's records |
| Ledger.ContributionLedger.ReplayRun | src/accounting/ledger.py:215-243 | Recomputing and the strict pairwise comparison answer as `Replay` does, error by error |
| Ledger.Recompute | src/accounting/ledger.py:222-239 | The recomputing loop fails exactly when there are more contributions than stored records |
| Ledger.FirstDrift | src/accounting/ledger.py:240-242 | The strict comparison loop reports the first differing record, or a length mismatch |
| LedgerTheorems.PostAcceptedIff | src/accounting/ledger.py:124-163 | A posting is accepted exactly when its split is well formed and its run was never posted |
| LedgerTheorems.PostedRun | src/accounting/ledger.py:139-162 | A posted run has contiguous indices from zero, non-negative allocations, and they sum to its revenue |
| LedgerTheorems.FlatDistinct | src/accounting/ledger.py:143-161 | Record ids on the books are pairwise distinct |
| LedgerTheorems.StepConserves | src/accounting/ledger.py:124-197 | One operation changes the total of all records and offsets by the revenue or adjustment it brings, and by nothing when refused |
| LedgerTheorems.RunConserves | src/accounting/ledger.py:124-205 | After any history the total of all records and offsets is the money the accepted operations brought |
| LedgerTheorems.CustodiansPartition | src/accounting/ledger.py:245-259 | The custodians' shares of any list of records sum to its allocations plus its offsets |
| LedgerTheorems.CustodianNetsConserve | src/accounting/ledger.py:124-259 | After any history of posts, disputes and refunds, rejected ones included, the custodians' nets sum to the accepted revenue plus the accepted offsets |
| LedgerTheorems.HistoryWellFormed | src/accounting/ledger.py:116-205 | After any history ids are distinct, no offset is orphaned or filed under another record, and each run's allocations sum to its revenue |
| LedgerTheorems.OffsetNet | src/accounting/ledger.py:178-205 | An accepted offset moves the net of its own record by its amount and of no other |
| LedgerTheorems.RefundDrift | src/accounting/ledger.py:186-205 | After any history a record's net is within half a cent per accepted refund of its exact rational net |
| PostingTheorems.PostedRecords | src/accounting/ledger.py:139-162 | After an accepted post the books hold, behind what they held, one record per contribution with that contribution's asset, custodian and weight, its share, its id, and the hash of exactly those |
| PostingTheorems.PostedStatement | src/accounting/ledger.py:139-162 | A post raises a custodian's gross by the shares of exactly the contributions naming it, and adjusts nobody |
| PostingTheorems.DisputedStatement | src/accounting/ledger.py:173-184 | An accepted offset moves the adjustments of its record's custodian by its amount, and nobody's gross |
| PostingTheorems.PostedNet | src/accounting/ledger.py:199-205 | Right after its post every record nets exactly its share |
| PostingTheorems.PostOutcome | src/accounting/ledger.py:133-145 | After any history a post is refused for no contributions, then for its split, then as the duplicate of a run the history already posted, and else accepted |
| PostingTheorems.DisputeAcceptedIff | src/accounting/ledger.py:173-184 | After any history an offset is accepted exactly on a record of the first well-formed post of its run, with a reason of at most 512 characters |
| PostingTheorems.RefundAcceptedIff | src/accounting/ledger.py:186-197 | After any history a refund is accepted exactly on such a record, for a positive denominator and a numerator that is not negative, whose texts fit the reason |
| PostingTheorems.OffsetsInOrder | src/accounting/ledger.py:178-197 | After any history the offsets of a record are the accepted ones, field by field and in order |
| ReplayTheorems.OfRunPosted | src/accounting/ledger.py:207-213 | The records stored for a run are those of its one posting, in index order |
| ReplayTheorems.StoredOrder | src/accounting/ledger.py:207-213 | Up to 10,000 contributions, sorting by padded id leaves index order unchanged |
| ReplayTheorems.OrderBreaks | src/accounting/ledger.py:143 | Past 10,000 no list in index order is in id order |
| ReplayTheorems.CompareIffEqual | src/accounting/ledger.py:240-242 | The pairwise comparison passes exactly on equal lists |
| ReplayTheorems.CompareSays | src/accounting/ledger.py:240-242 | The comparison names the first stored record that differs, or which list goes on after the other ends |
| ReplayTheorems.ReplayExact | src/accounting/ledger.py:207-243 | Replay of a posted run returns if and only if the run has at most 10,000 contributions and revenue and the whole contribution list are the posted ones; it then returns the stored records |
| ReplayTheorems.ReplayUnposted | src/accounting/ledger.py:215-243 | A run never posted cannot be replayed |
| ReplayTheorems.ReplayFaults | src/accounting/ledger.py:215-243 | How a replay fails: the split's fault, more contributions than stored records, or what the comparison reports |
| ReplayTheorems.ReplayAfterAnyHistory | src/accounting/ledger.py:116-243 | The exact condition holds for every posted run after any history |
| Text.Pad4Injective | src/accounting/ledger.py:143 | Zero-padded numbers are equal only for equal numbers |
| Text.Pad4Ordered | src/accounting/ledger.py:143 | Below 10,000, text order of padded numbers is number order |
| Text.Pad4OutOfOrder | src/accounting/ledger.py:143 | `10000` sorts before `1001` |
| Base64.RoundTrip | src/policy/tokens.py:22-27 | Decoding an encoded byte string gives it back, for every byte string; the text holds neither `.` nor `=` (sections 3.2 and 5 of RFC 4648) |
| Base64.Repad | src/policy/tokens.py:22-27 | Stripping the padding and adding `-len % 4` characters restores the encoder's output, and the stripped text is url-safe |
| Base64Theorems.EncoderAlphabet | src/policy/tokens.py:22-23 | The encoder's 64 characters are those of table 2 in section 5 of RFC 4648 |
| Base64Theorems.GroupIsNumber | src/policy/tokens.py:22-23 | Three bytes are written as one number in four digits of base 64, the first byte first |
| Base64Theorems.EncodeByGroups | src/policy/tokens.py:22-23 | The text is whole groups of four, and two or three characters for a last one or two bytes |
| Base64Theorems.TestVectors | src/policy/tokens.py:22-23 | The vectors of section 10 of RFC 4648, without their padding |
| Base64Theorems.DecoderAlphabet | src/policy/tokens.py:26-27 | The decoder reads that alphabet, `+` and `/`, and no other character |
| Base64Theorems.ForeignSkipped | src/policy/tokens.py:26-27 | Any other character but the pad is skipped wherever it stands |
| Base64Theorems.NonAsciiRefused | src/policy/tokens.py:26-27 | Text with a character beyond ASCII does not decode |
| Base64Theorems.DecodesIff | src/policy/tokens.py:26-27 | Unpadded text of the alphabets decodes exactly when its length is not one more than a multiple of four |
| Tokens.SplitAtFirstDot | src/policy/tokens.py:79 | The first dot splits a token into the two parts it was made of |
| Tokens.MintedAuthenticates | src/policy/tokens.py:51-88 | A minted token splits, decodes and carries a valid signature over the claim it was minted for |
| Tokens.MintedVerifiesIff | src/policy/tokens.py:51-113 | A minted token verifies under its own scopes exactly when its nonce is unused, now is before expiry and the issue time is at most 60 seconds ahead |
| Tokens.VerifyImpliesPeek | src/policy/tokens.py:70-154 | Whatever `verify` accepts, the peek accepts with the same claim |
| TokenTheorems.VerifyAcceptsIff | src/policy/tokens.py:70-113 | `verify` accepts a token with claim `c` exactly when the text after its first dot decodes to the MAC of the text before it, which decodes to `c`, for the expected ASCII ids, before expiry, issued at most 60 seconds ahead, with an unused nonce |
| TokenTheorems.PeekAcceptsIff | src/policy/tokens.py:115-154 | The peek accepts on the same terms, for any ids and however far ahead the token was issued |
| TokenTheorems.VerifyOfClaim | src/policy/tokens.py:91-113 | The first fault of a validly signed claim, in order, each with its own error |
| TokenTheorems.PeekOfClaim | src/policy/tokens.py:138-154 | The same for the peek |
| TokenTheorems.UnreadablePayload | src/policy/tokens.py:87-100 | A validly signed payload that is no claim is an error for `verify` and an internal failure for the peek |
| TokenTheorems.FormatFaultsIff | src/policy/tokens.py:78-86 | A token is malformed exactly without a dot or with a part that does not decode; a part that is not the MAC is told apart; both checks agree on this |
| TokenTheorems.PeekFaultsIff | src/policy/tokens.py:115-154 | Exactly when the peek reports expiry, replay, or fails abnormally |
| TokenTheorems.VerifyCrashesIff | src/policy/tokens.py:101-104 | `verify` fails abnormally exactly when it compares ids that are not ASCII |
| Tokens.OpenTokenStore | src/policy/tokens.py:44-49 | A key of fewer than 32 bytes is refused; otherwise the store signs under that key and has burned nothing |
| Tokens.ConsentTokenStore.constructor | src/policy/tokens.py:47-49 | A new store has burned nothing |
| Tokens.ConsentTokenStore.MintToken | src/policy/tokens.py:51-68 | Minting returns the wire text and burns nothing |
| Tokens.ConsentTokenStore.VerifyToken | src/policy/tokens.py:70-113 | The chain of checks answers as `Verify` does, and the used set grows by exactly the accepted nonce |
| Tokens.ConsentTokenStore.VerifyWithoutConsuming | src/policy/tokens.py:115-154 | The peek answers as `Peek` does and burns nothing |
| Mandate.HexRoundTrip | src/records/mandate.py:35-43 | Decoding a hex digest gives its bytes back |
| Mandate.SignedVerifies | src/records/mandate.py:34-44 | A signed asset verifies under its key |
| Mandate.SignatureIff | src/records/mandate.py:38-44 | A signature is accepted exactly when its bytes are the MAC of the asset's own message under the key |
| Mandate.StoredSignatureIff | src/records/mandate.py:34-44 | A stored lower-case signature is accepted exactly when it is the one signing would give |
| Mandate.AlteredRightsDetected | src/records/mandate.py:3-7 | An asset carrying the signature of a verifying one verifies exactly when no signed right was altered, for clean entries and unless the MAC collides on the two messages |
| Mandate.HexIgnoresCase | src/records/mandate.py:40-43 | Upper-case digits of a signature decode like lower-case ones |
| Mandate.HexSkipsSpace | src/records/mandate.py:40-43 | White space between the bytes of a signature is skipped |
| Mandate.MessageText | src/records/mandate.py:18-31 | The signed text, field by field |
| Mandate.WithdrawKeepsMandate | src/records/store.py:67 | Withdrawal changes neither the signed message nor the outcome of verification |
| Mandate.MessageDeterminesRights | src/records/mandate.py:18-31 | Assets without separators in their fields have one message exactly when their signed fields agree, constraints and scopes up to order |
| Mandate.AmbiguousIff | src/records/mandate.py:18-31 | For an asset without the field separator, its message stands for other rights as well exactly when one of its two lists is not a single non-empty entry that resists cutting at a comma |
| Mandate.CommaCollision | src/records/mandate.py:27-28 | With a comma inside a scope two different grants sign the same message |
| AssetStores.AssetStore.constructor | src/records/store.py:26-30 | A new store is empty |
| AssetStores.AssetStore.Register | src/records/store.py:32-36 | An id is stored once; a second registration changes nothing and is refused |
| AssetStores.AssetStore.Get | src/records/store.py:38-43 | Returns the stored asset, or not found |
| AssetStores.AssetStore.AddRevocationListener | src/records/store.py:57-59 | The listener is appended |
| AssetStores.AssetStore.Withdraw | src/records/store.py:61-73 | Sets the flag and the revocation time of that asset only, then notifies; a listener that raises makes the call raise with the flag already set; an unknown id changes nothing |
| AssetStores.Notify | src/records/store.py:71-72 | Listeners are called in order up to the first that raises; exactly the connectors of the registries reached are quarantined, once, however often they are reached |
| AssetStores.StoreRefusals | src/records/store.py:32-65 | A second registration and an unknown withdrawal are refused, each with its own fault, and change nothing |
| AssetStores.StoreIsItsHistory | src/records/store.py:32-73 | After any history an id is stored exactly when registered, with its first registration's fields unchanged, and is withdrawn exactly when it came so or a withdrawal followed |
| Connectors.ConnectorRegistry.RegisterConnector | src/connectors/registry.py:38-44 | Adds a fresh active connector, or refuses a known id and changes nothing |
| Connectors.ConnectorRegistry.QuarantineConnectors | src/connectors/registry.py:54-59 | The loop flips every registered connector and no other object |
| Connectors.ConnectorRegistry.AcknowledgeConnector | src/connectors/registry.py:61-66 | Clears that connector's quarantined set and marks it acknowledged, leaving all others |
| Connectors.ConnectorRegistry.ReactivateConnector | src/connectors/registry.py:68-74 | Reactivates that connector, or refuses while assets are quarantined |
| Connectors.CoherentAlways | src/connectors/registry.py:38-74 | In every run a connector is Quarantined exactly when its quarantined set is non-empty |
| Connectors.ConnectorIsItsHistory | src/connectors/registry.py:38-66 | In every run a connector has quarantined exactly the assets withdrawn since its last acknowledge or its registration, and remembers the time of the last withdrawal since its registration |
| Connectors.RefusedOps | src/connectors/registry.py:38-74 | Which operations are refused, with which fault, and that they change nothing |
| Connectors.ServesIffBackInService | src/connectors/registry.py:29-74 | After a withdrawal notifies the registry, a connector registered then serves an asset exactly when, since its last quarantine, it was acknowledged, then reactivated, and not acknowledged again |
| Gateway.PolicyGateway.constructor | src/policy/gateway.py:24-34 | The counter starts at zero |
| Gateway.PolicyGateway.NextSequence | src/policy/gateway.py:36-38 | Returns the counter and advances it |
| Gateway.PolicyGateway.Evaluate | src/policy/gateway.py:57-64 | Decision, new counter and new used set are those of `Judge` and `Conclude`; a reason that does not fit wastes a number and becomes an internal-error block |
| Gateway.PolicyGateway.EvaluateInner | src/policy/gateway.py:66-180 | The ordered rules, the scope loop and the consent gate give the verdict of `Judge` and burn exactly its nonce |
| Gateway.PolicyGateway.ConsentGate | src/policy/gateway.py:120-151 | The peek loop and the consume loop refuse or burn exactly as `Gate` does |
| GatewayTheorems.RulesIffCleared | src/policy/gateway.py:72-103 | No rule stops a request exactly when every condition holds, whatever the order of the rules |
| GatewayTheorems.FirstRuleDecides | src/policy/rules.py:19-31 | The decision's reason is that of the first rule, in the published order, whose own condition holds |
| GatewayTheorems.DecisionTable | src/policy/gateway.py:66-180 | Each of Allowed, Human Review and Conditional has one exact condition, anything else is Blocked; a nonce is burned exactly by a grant on a consent-gated asset |
| GatewayTheorems.UnsignedBlocks | src/policy/gateway.py:72-77 | A stored asset whose signature is not the one its custodian's key gives is Blocked, for its mandate unless it is withdrawn, and burns nothing |
| GatewayTheorems.ReasonSays | src/policy/gateway.py:82-151 | Which side of the window, which scope, which action and which kind of consent a reason names |
| GatewayTheorems.DecisionShape | src/policy/gateway.py:36-64 | A decision repeats its verdict under the next number, with a ticket exactly for human review; only a scope whose quoted text exceeds 984 characters costs one more number and ends as an internal error |
| GatewayTheorems.DecisionsInOrder | src/policy/gateway.py:36-64 | Successive decisions answer their requests in order, naming request, asset and time, with strictly rising numbers, and every one about a withdrawn asset is Blocked |
| GatewayTheorems.ConsumeLoopIff | src/policy/gateway.py:142-149 | The consume loop succeeds exactly when some token verifies before any fails abnormally, and burns the first such nonce |
| GatewayTheorems.PeekLoopIff | src/policy/gateway.py:122-131 | The peek loop passes exactly when some token peeks well before any fails abnormally |
| GatewayTheorems.GatePassesIff | src/policy/gateway.py:120-151 | With no assumption on tokens: exactly when the gate passes, whose nonce it burns, and that it was unused |
| GatewayTheorems.MintedIsOrdinary | src/policy/tokens.py:51-68 | Every minted token with ASCII ids is an ordinary one |
| GatewayTheorems.TwoPhaseIsOnePhase | src/policy/gateway.py:120-151 | On ordinary tokens the gate passes exactly when some token would verify, burns the first such nonce, and equals the consume loop alone |
| GatewayTheorems.GateReasonIff | src/policy/gateway.py:131-151 | Which reason a refusing gate gives: that of the last token when none peeks well, replay when none can be consumed |
| GatewayTheorems.MintedTokenGrants | src/policy/gateway.py:105-180 | From minting to decision in plain numbers: at second t a request with one minted token is granted and burns its nonce exactly when the nonce is unused, t < issued + ttl and issued <= t + 60; `publish`, `train_export` and `bulk_export` go to human review |
| ConcurrentGate.ExecOk | src/policy/gateway.py:36-180 | The invariant of the interleaved gateway holds after every sequence of steps |
| ConcurrentGate.SingleUse | src/policy/tokens.py:109-113 | Over every interleaving a nonce is burned by at most one evaluation and never twice, a decided evaluation burned one exactly when it granted a consent-gated asset, the used set is exactly what was burned, and decision numbers are distinct |
| ConcurrentGate.ExactlyOneGrant | src/policy/gateway.py:105-151 | Any number of otherwise-passing requests that share one fresh in-window token end with exactly one grant and all others Blocked, provided no evaluation outside the group took the nonce |
| ConcurrentGate.WithdrawalCutsOff | src/records/store.py:61-73 | Once a withdrawal's locked region has run the asset stays withdrawn, and every evaluation whose read follows ends Blocked with no nonce burned |
| ConcurrentGate.AloneIsSequential | src/policy/gateway.py:57-180 | Run without interference, the atomic steps give the sequential decision, nonce and counter |
| Merkle.MerkleRoot | src/training/admission.py:27-38 | The level loop terminates and computes the root |
| Merkle.HashLevel | src/training/admission.py:32-36 | The inner loop hashes neighbours together and a last odd one with itself |
| Merkle.LevelShrinks | src/training/admission.py:31-37 | Each level is non-empty and strictly smaller than the one below |
| Merkle.EmptyRoot | src/training/admission.py:28-29 | The root of an empty build |
| Merkle.RootOfPermutation | src/training/admission.py:30-38 | Permuted leaves have one root, for any hash |
| Merkle.LevelCommits | src/training/admission.py:32-37 | Sorted levels of one size whose pair hashes agree as multisets are equal, odd levels included, unless two of the pairs collide |
| Merkle.RootCommits | src/training/admission.py:27-38 | Lists of digests of one size have one root exactly when they are permutations, unless two texts hashed on the way collide |
| Merkle.PaddingCollision | src/training/admission.py:35 | An odd list of three or more has the root of itself with its largest leaf repeated, for any hash |
| Merkle.OneLongerIff | src/training/admission.py:27-38 | Under the same condition that is the only list of digests one longer with the same root |
| Merkle.LevelCollision | src/training/admission.py:31-38 | The hashes one level up, taken as leaves, have the root of the leaves, for any hash |
| Merkle.WidthCollision | src/training/admission.py:34-36 | Two leaves and the empty text with their concatenation have one root, for any hash |
| Merkle.RootDeterminesIff | src/training/admission.py:27-38 | For any hash, a list shares its root with a list that is no reordering of it exactly when it has not one leaf, or its one leaf is a hash value |
| Admission.AdmissionPipeline.Admit | src/training/admission.py:61-78 | Refuses with the first failing check, or admits |
| Admission.AdmissionPipeline.Freeze | src/training/admission.py:80-100 | The loop refuses with the first refused asset, or freezes the whole list ordered by id |
| Admission.AdmissionPipeline.VerifyManifest | src/training/admission.py:102-104 | Answers whether the recorded root is the root of the listed hashes |
| Admission.AdmitIffNotBlocked | src/training/admission.py:61-78 | A stored asset is admitted exactly when a clean `train` request without scopes or tokens is not Blocked |
| Admission.AdmittedIff | src/training/admission.py:61-78 | What an asset must be to be admitted, its signature being the one its custodian's key gives, and which refusal each fault gets |
| Admission.FirstRefusalIff | src/training/admission.py:88-89 | The loop refuses nothing exactly when every asset would be admitted alone, and else with the refusal of the first that would not |
| Admission.FreezeAllOrNothing | src/training/admission.py:80-104 | A manifest is made exactly when every asset is admitted, lists each content hash once per asset, in id order, and verifies |
| Admission.ManifestLists | src/training/admission.py:90-100 | A manifest lists each admitted asset's id beside its own content hash, and carries the build id, time and rule version given |
| Admission.SubstitutionDetected | src/training/admission.py:102-104 | A manifest of the frozen size that lists only digests verifies against the frozen root exactly when its hashes are a permutation, unless two texts hashed for the two roots collide |
| Admission.SubstitutionUndetectedIff | src/training/admission.py:6-7 | A frozen manifest can be exchanged for one that is no permutation and verifies exactly when it lists other than one hash, or its one hash is a value of the hash function |
| Admission.PaddedManifestVerifies | src/training/admission.py:102-104 | An odd frozen build of three or more also verifies with one of its hashes repeated |
| Trace.TraceRecorder.constructor | src/records/trace.py:19-22 | A new recorder has no events |
| Trace.TraceRecorder.Append | src/records/trace.py:28-63 | Appends exactly the record that continues the chain |
| Trace.TraceRecorder.VerifyChain | src/records/trace.py:69-80 | The loop answers whether the chain verifies |
| Trace.WalkIsLinked | src/records/trace.py:69-80 | The walk accepts exactly when every record names its predecessor's hash, hashes to its own, and no monotonic time falls |
| Trace.ReachableVerifies | src/records/trace.py:28-80 | Every state a recorder can reach verifies and holds what was appended, in order, numbered by position |
| Trace.ClockAdds | src/records/trace.py:39-45 | Each event carries the monotonic time passed up to its own append |
| Trace.GenesisIs | schemas/trace.py:30 | The genesis digest is sixty-four zeros |
| Trace.HeadCommits | schemas/trace.py:23-60 | Verifying chains with one head hash have the same events and length, unless two of their records collide or hash to the genesis digest |
| Trace.DeletionUndetectedIff | schemas/trace.py:3-6 | Deleting one event goes unnoticed exactly when it is the last |
| Trace.MutationUndetectedIff | schemas/trace.py:3-6 | Changing an event verifies exactly when it is no change, or it is the last event and the new record continues the chain before it |
| Trace.LastMutationIff | src/records/trace.py:69-80 | For any hash, the last event may be exchanged for exactly the records that link to the chain before it and do not go back in time |
| Trace.RewrittenLastVerifies | schemas/trace.py:3-6 | The last event with another actor and its hash recomputed verifies, for any hash |
| Trace.ReorderingDetected | schemas/trace.py:3-6 | A reordering of a verifying chain verifies only if it is the chain itself |
| Engine.WorkflowEngine.constructor | src/workflows/engine.py:44-50 | A new engine has no runs and empty queues |
| Engine.WorkflowEngine.Submit | src/workflows/engine.py:56-87 | One gateway decision, two traced events and one new run in the state and queue its decision calls for |
| Engine.WorkflowEngine.RegisterRun | src/workflows/engine.py:74-87 | The locked region's whole effect on runs and queues |
| Engine.WorkflowEngine.RecordToolCall | src/workflows/engine.py:89-99 | Refuses unless the run is executing on an Allowed decision; else records the call and traces it once |
| Engine.WorkflowEngine.RecordOutput | src/workflows/engine.py:101-108 | Refuses unless executing; else records the output, completes the run and traces it once |
| Engine.WorkflowEngine.ReleaseConditional | src/workflows/engine.py:110-121 | Refuses without a hold; else re-evaluates, drops the hold exactly on Allowed, and traces the release in either case |
| Engine.WorkflowEngine.FinishRelease | src/workflows/engine.py:117-120 | The release is traced unless the hold to drop was gone |
| Engine.WorkflowEngine.DropRunHold | src/workflows/engine.py:117-119 | The hold is removed exactly on an Allowed decision; a hold already dropped by somebody else is an error |
| Engine.StatesMirrorDecisions | src/workflows/engine.py:56-108 | In every sequential run of operations a run is Executing or Completed exactly when Allowed, HeldConditional when Conditional, HeldReview when Human Review, Rejected when Blocked; a Completed run has exactly one output |
| Engine.QueueIffHistory | src/workflows/engine.py:56-121 | A request is queued exactly when the latest of its Conditional submissions and Allowed releases is a submission, and its entry is a held run of its own |
| EngineHistory.RunIsItsHistory | src/workflows/engine.py:56-108 | After any history a run executes exactly when an Allowed operation entered it and no output was offered since; its tool calls and outputs are exactly those offered while it executed, in order |
| EngineHistory.EnteredRun | src/workflows/engine.py:59-64 | A run carries the request and the decision of the operation that entered it |
| EngineHistory.ToolCallIff | src/workflows/engine.py:89-99 | After any history a tool call succeeds exactly on an executing run, adds itself at the end of that run's list and changes nothing else |
| EngineHistory.OutputIff | src/workflows/engine.py:101-108 | After any history an output is accepted exactly on an executing run, becomes its only output and completes it |
| EngineHistory.QueuesHoldTheLatest | src/workflows/engine.py:76-86 | A ticket is in the review queue exactly when a run was held for review under it, with the latest such run; a held request stands with its latest conditional run |
| EngineHistory.ReleaseOutcome | src/workflows/engine.py:110-121 | After any history a release is refused exactly without a hold, else enters one run and drops the hold exactly on Allowed |
| EngineHistory.DropWithoutHold | src/workflows/engine.py:117-119 | Ending a release when the hold is gone is an error exactly on Allowed, and changes nothing |
| EngineHistory.SubmissionTrace | src/workflows/engine.py:65-73 | The two events a submission adds, field by field |
| EngineHistory.ReleaseTrace | src/workflows/engine.py:120 | The event a release adds after those of its submission |
| ConcurrentEngine.ExecOk | src/workflows/engine.py:56-121 | The accounting invariant between trace, runs and operations in flight holds after every interleaving |
| ConcurrentEngine.QuiescentCounts | src/workflows/engine.py:89-108 | When nothing is in flight, traced tool calls, completions and allowals equal recorded calls, completed runs and Allowed runs, per request and overall; the trace always verifies |
| ConcurrentEngine.EveryPrefixBounded | src/workflows/engine.py:56-108 | Every prefix of every trace has at most as many completions as allowals, per request and overall |
| ConcurrentEngine.WorkIsPreceded | src/workflows/engine.py:89-108 | Every traced tool call and completion is preceded by an Allowed decision for its own request |
| ConcurrentEngine.HoldDroppedOnce | src/workflows/engine.py:110-121 | Over every interleaving no more Allowed releases of a request get past dropping its hold than conditional runs of it were entered; of releases racing for one hold one at most succeeds |
| ConcurrentEngine.RunsAreKept | src/workflows/engine.py:89-108 | Over every interleaving a run never changes request or decision and never loses a call or an output; once it is not executing, completed in particular, it never changes |
| ConcurrentEngine.SubmitAlone | src/workflows/engine.py:56-87 | A submission run without interference enters its run and traces its two events as the sequential engine does |
| ConcurrentEngine.ReleaseAlone | src/workflows/engine.py:110-121 | A release of a held request run without interference is the sequential release, trace included |
| ConcurrentEngine.ReleaseRefusedAlone | src/workflows/engine.py:112-115 | A release without a hold fails and leaves runs, queues and trace as they were |
| ConcurrentEngine.WorkAlone | src/workflows/engine.py:89-108 | A tool call or output run without interference changes the runs as the sequential one does and is traced once, unless refused |

## Left out

- Ledger.ContributionLedger.PostRun: models well-typed calls; a value that the record schema rejects part way through the loop is not part of this model.
- AssetStores.AssetStore.Withdraw: a listener that calls back into the store is not modelled.
- AssetStores.Notify: the same.
- Gateway.PolicyGateway.Evaluate: seconds are cut from exact microseconds; the rounding of a floating-point timestamp is not modelled.
- Merkle.RootCommits: speaks of lists of one size; across sizes, which lists share a root depends on the hash values beyond `Merkle.OneLongerIff` and `Merkle.RootDeterminesIff`.
- Merkle.MerkleRoot: leaves are ASCII text; on other text the encoding raises, which is not modelled.
- ConcurrentGate.WithdrawalCutsOff: the notification loop after the locked region is in the sequential `AssetStores.AssetStore.Withdraw` only.
- ConcurrentEngine.QuiescentCounts: a submission's decision is an arbitrary one; the interleaving of gateway and engine steps is not combined.
- Engine.WorkflowEngine.Submit: run ids are positions rather than random text.
- Schema length limits on ids, event names and actors: refused at construction, before the modelled calls.
- UTF-8 encoding of messages before hashing: messages are text.
- HTTP service, benchmark scripts, evidence generator, logging and span export: plumbing around the modelled calls.
- The prompt screen's pattern list: an arbitrary predicate on the prompt.
- Catalog search and statement rendering: filters and formatting that would only add easy members.
- Human adjudication of the review queue: the queue is only ever added to.
- Latency figures: measurements of a machine.
