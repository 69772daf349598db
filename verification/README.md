# VIGIL in Dafny

VIGIL authorizes what agents do and keeps evidence of it. This project models the parts of it
whose promises are about whole runs or about every input, and proves those promises. Every
statement below is a theorem about the model, checked by the Dafny verifier
(`dafny verify dfyconfig.toml`).

- **The protocol.** Core folds verdicts into a decision and mints a capability, perhaps after
  spending a human approval; the gateway redeems the capability and invokes the tool. All of it
  is one machine (`Protocol`) over two smaller ones: redemptions against the nonce store
  (`Redemption`) and approvals (`ApprovalRuns`). Clients may present any text with any request.
- **Action hashes.** What each of the ten kinds of action commits to (`Materials`, `Actions`), and
  the text that is hashed (`Documents`).
- **The audit log.** A hash chain with signed checkpoints, failing writes, crashes and restarts,
  and the verifier of it (`AuditLog`, `AuditVerifier`, `AuditReports`, `AuditChains`,
  `AuditEvidence`, `DurableChain`), with the results for the texts in use in `AuditSystem`.
- **Canonical JSON (VCJ/1)**, a profile of RFC 8785: its writer, a reader for RFC 8259, and what
  the text determines (`Json`, `JsonReader`, `CanonicalForm`, `CanonicalText`, `CanonicalWriter`).
- **Lexical paths** and the percent-decoding detector that must agree with them (`Paths`,
  `PathDetector`, `PathEncoding`, `PathAgreement`, over `Utf8`).
- **The endpoint fast path**: answers, process attribution, counters (`Endpoint`,
  `EndpointPaths`, `EndpointRuns`, `EndpointMetrics`).
- **The risk score** over the reals (`Risk`).

Code that changes state is modelled as classes and loops, each proved against a function that
the lemmas are about. `Text`, `Utf8`, `Base64Url`, `Ordering` and `Folds` hold what the others share.

## What is assumed

- Foreign code is a parameter: the digest, signing and verifying, how doubles print and read,
  how headers, claims and grants are written as bytes. Each is assumed only to undo its own
  inverse (`Trusts`, `KeyWorks`, `PrintsFloatTokens`, `SignerWorks`).
- Hashing is never assumed injective. Where a result rests on it, the conclusion names two
  different texts with one digest as the alternative (`ClashUpTo`, `ClashAtCut`, `InvokedIsDecided`).
- Of a token, grant or checkpoint that is presented and whose signature verifies, it is assumed
  that its text was signed earlier in the same run (`Unforged`, `GrantUnforged`, `CheckpointUnforged`).
  Nothing is assumed of signatures nobody presents; `OwnLogQualifies` shows that the chain's own
  log meets the assumption under its own trusted key.
- Fresh nonces and approval ids do not repeat. The gateway's clock does not go back; Core's
  readings are arbitrary. The 64-bit sequence counter of a log does not overflow.

## Where the code does not do what it is meant to

- A purge of expired nonces can run between a redemption's reading of the clock and its use.
  `ReplayRun` gives, for every single-use token, a run that accepts it twice. `PurgeGuardIsExact`
  gives the exact condition under which the use numbers stay right after a purge, and
  `LateCutoffsBoundUses` the bound over every run whose purges meet a condition the caller can check.
- Core binds the name of a database as the capability's target and the gateway presents none,
  so a capability for a named database is never admitted: `FitsItsOwnRequest`, `FirstPresentation`.
- A failed flush makes the sink report an error for a record it has written. A restart before the
  next record heals the log; another record before a restart reuses the number and forks it.
  `LogVerifiesExactly` says so, over every run and in both directions.
- The detector decodes paths but not roots. `AgreementExactly` says for which lists of roots it
  agrees with the containment check on every path, `SingleRootAgreesExactly` for which roots;
  `SomeRootDisagrees` is an instance where it does not.
- `check_lifetime` compares whole seconds, so lifetimes above 900 s and below 901 s pass:
  `CheckLifetime`. Issued capabilities never exceed 900 s: `Stamped`.
- The log verifier reads neither an entry's own previous-hash field nor the envelope's sequence
  and previous hash, although the documentation of the failure kinds suggests it: `ScansAlike`.
- A lifetime of 2^63 seconds or more in an approval rule turns negative, and so the shortest.
  `LifetimeIsLeastExactly` says that the terms carry the least lifetime if and only if no rule has
  such a one; otherwise the request is open for 30 s (`WrappedLifetimeIsShortest`,
  `WrappedLifetimeExample`).

## Model

| member | source | states |
|---|---|---|
| `Protocol.InvocationsMapToMints` | crates/vigil-gateway/src/lib.rs:163-275 | in every state of every interleaving, tool invocations map one-to-one to earlier mints that agree on every bound field and on the action hash, each verified before expiry and within 900 s of its mint |
| `Protocol.InvokedIsDecided` | crates/vigil-protocol/src/action.rs:630-645 | what is invoked is the decided action itself, in scope and in every field its kind commits to, or two canonical texts collide |
| `Protocol.MintsRestOnGrants` | crates/vigil-core/src/pipeline.rs:285-440 | in every run, a mint's stages include nothing that forbids, detectors included; if anything asked for a human it rests on one spending, by that decision and no other, of a grant for that action hash, which the capability names; the request was raised earlier for the same action, and the granter is a human of the tenant, not the requester, with one role that every rule behind the request accepts |
| `Protocol.ApprovedRetryMints` | crates/vigil-core/src/pipeline.rs:285-440 | in every run, retrying an action within 900 s of a grant for it that nothing has settled spends the grant, and if no stage forbids the action a capability naming the approval can be minted |
| `Protocol.LateRunsQualify` | crates/vigil-capability/src/nonce.rs:110-118 | every run whose purges cut off no later than the clock and every reading in use is one the results on runs speak of |
| `Protocol.FirstPresentation` | crates/vigil-gateway/src/lib.rs:184-204 | an unused minted token of at most 8 KiB, presented in time with its own request, is accepted as use 1, unless the request names a database; then never |
| `Protocol.StepKeepsAll` | crates/vigil-core/src/pipeline.rs:285-440 | every step of the protocol keeps the joint invariant of gate, approvals, decisions, mints and invocations |
| `Redemption.UsesAreBounded` | crates/vigil-capability/src/signer.rs:177-226 | over any guarded run each issued capability is accepted at most `maxUses` times, with use numbers 1, 2, 3 and so on |
| `Redemption.UsesAreGranted` | crates/vigil-capability/src/nonce.rs:86-108 | over any guarded run a redemption under way is accepted exactly while fewer than `maxUses` were, as the next in number |
| `Redemption.PurgeGuardIsExact` | crates/vigil-capability/src/nonce.rs:110-118 | for every cutoff: after a purge, whatever redemption may still be finished keeps the use numbers right if and only if the purge drops no record of a live capability or of one being redeemed |
| `Redemption.LateCutoffsSuffice` | crates/vigil-capability/src/nonce.rs:110-118 | a cutoff no later than the clock and every reading still in use meets that condition |
| `Redemption.LateCutoffsBoundUses` | crates/vigil-capability/src/signer.rs:177-226 | over every run whose purges all have such cutoffs, each issued capability is accepted at most `maxUses` times, numbered 1, 2, 3 and so on |
| `Redemption.UnguardedPurgeReplays` | crates/vigil-capability/src/nonce.rs:86-118 | where the condition fails for an exhausted capability being redeemed, it is accepted again as use 1 |
| `Redemption.ReplayRun` | crates/vigil-capability/src/nonce.rs:86-118 | for every redeemable single-use token there is a run that accepts it twice |
| `Redemption.AdmittedIsIssued` | crates/vigil-capability/src/signer.rs:177-205 | whatever text is presented, only issued claims are admitted, for the action they bind and before they expire |
| `NonceStores.VerifyAndConsume` | crates/vigil-capability/src/signer.rs:177-226 | a presentation refused for its form, signature, lifetime or binding leaves the store as it was; otherwise the store alone decides |
| `NonceStores.InMemoryNonceStore.Consume` | crates/vigil-capability/src/nonce.rs:86-108 | the verdict and the new store are those of one more use |
| `NonceStores.InMemoryNonceStore.PurgeExpired` | crates/vigil-capability/src/nonce.rs:110-118 | exactly the records that expire after the cutoff remain, and the rest are counted |
| `Capabilities.CheckBinding` | crates/vigil-capability/src/claims.rs:93-140 | passes exactly when the version is known and every field equals the presented one; a refusal names a field that differs, and a foreign tenant is always reported as such |
| `Capabilities.CheckLifetime` | crates/vigil-capability/src/claims.rs:145-169 | passes exactly within leeway and strict expiry, for lifetimes above 0 and below 901 s; expired and not yet valid are told apart |
| `Capabilities.Stamped` | crates/vigil-capability/src/signer.rs:99-114 | issued claims keep the bindings and what they record, live the time asked for within 1 to 900 s and allow at least one use |
| `Capabilities.AdmitsIssued` | crates/vigil-capability/src/signer.rs:99-208 | an issued token is admitted exactly for the bound action, within its time and the length limit |
| `Capabilities.Admit` | crates/vigil-capability/src/signer.rs:177-208 | a token is admitted as some claims exactly when it authenticates as them, for the bound action and within its time |
| `Capabilities.AuthenticatesExactly` | crates/vigil-capability/src/signer.rs:177-207 | a token authenticates as some claims exactly when it spells them under a header that names a known key, with a signature over both that verifies under it |
| `Capabilities.PayloadMeansClaims` | crates/vigil-capability/src/token.rs:63-111 | a token with an issued payload authenticates, if at all, as the claims in that payload |
| `Tokens.ParseUndoesEncode` | crates/vigil-capability/src/token.rs:52-111 | parsing an encoded token gives back header, claims bytes, signature and the exact signed bytes, up to 8 KiB, and nothing beyond |
| `Tokens.ParsedIsExact` | crates/vigil-capability/src/token.rs:68-111 | a text that parses is the only one with its parts; the signed bytes are the encodings of what is handed on |
| `Tokens.ParsedIsSpelled` | crates/vigil-capability/src/token.rs:68-111 | a text that parses is at most 8 KiB and spells its parts behind the prefix |
| `Tokens.SpelledParses` | crates/vigil-capability/src/token.rs:68-111 | and every such text parses, to those parts |
| `Tokens.PayloadPinsClaims` | crates/vigil-capability/src/token.rs:63-111 | equal signed bytes mean equal headers and equal claims bytes |
| `Base64Url.DecodesExactly` | crates/vigil-capability/src/token.rs:94-98 | a text decodes to some bytes exactly when it is their encoding |
| `Base64Url.LettersInOrder` | crates/vigil-capability/src/token.rs:94-98 | the alphabet of section 5 of RFC 4648 |
| `Base64Url.GroupIsNumber` | crates/vigil-capability/src/token.rs:94-98 | a group of bytes and its letters are the same number, first byte and letter most significant |
| `Gateways.Gateway.ExecuteAs` | crates/vigil-gateway/src/lib.rs:133-275 | the tool is invoked once if the capability is admitted, its use accepted and the request allowed, and otherwise not at all |
| `Gateways.CheckCaller` | crates/vigil-gateway/src/lib.rs:283-301 | refuses exactly a foreign tenant or another agent |
| `Actions.FitsItsOwnRequest` | crates/vigil-core/src/pipeline.rs:866-874 | what Core binds equals what the gateway presents for the same request, except exactly for named databases, where it is the name; the claims record the approval and where the decision came from |
| `Actions.PresentedNames` | crates/vigil-protocol/src/action.rs:349-397 | kind, operation, tool and target that are presented, for each kind of action |
| `Actions.HashBindsAction` | crates/vigil-protocol/src/action.rs:630-645 | equal action hashes mean the same scope and the same action in every committed field, or a collision |
| `Materials.MaterialCommits` | crates/vigil-protocol/src/action.rs:494-567 | the material documents of two actions are the same exactly when the actions are of one kind and agree on every committed field, JSON inside up to what canonical JSON identifies and the network verb up to case |
| `Actions.SameActionSameHash` | crates/vigil-protocol/src/action.rs:494-567 | requests that are the same action have the same hash, whatever the order of their keys |
| `Documents.ActionText` | crates/vigil-protocol/src/action.rs:630-645 | the text that is hashed: these seven members, under these names, in this order |
| `Documents.MaterialText` | crates/vigil-protocol/src/action.rs:494-567 | and within it the members of each of the ten kinds of action |
| `Documents.HashExactly` | crates/vigil-protocol/src/action.rs:642-645 | an action has a hash exactly when the JSON it carries has a canonical text, and it is the digest of that document |
| `Approvals.CheckGrant` | crates/vigil-core/src/approval.rs:208-251 | a grant goes through exactly for a pending, unexpired request and a human of the tenant, other than the requester, with a listed role |
| `Approvals.RequestIsOpen` | crates/vigil-core/src/approval.rs:158-194 | a request is open for the time asked for, but no less than 30 s and no more than a day |
| `Approvals.Spends` | crates/vigil-core/src/approval.rs:301-381 | a token is spent if and only if it reads as a grant for its own tenant, agent, session and action hash, before expiry, while granted with the same nonce |
| `Approvals.OwnTokenSpends` | crates/vigil-core/src/approval.rs:301-381 | a grant's own token, in time and for its own action, spends it |
| `Approvals.SignedBodyExactly` | crates/vigil-core/src/approval.rs:301-340 | a token has a signed body exactly when it is those bytes and a 64-byte signature of them that verifies |
| `Approvals.RejectionHolds` | crates/vigil-core/src/approval.rs:288-381 | once rejected, no token for the approval is good |
| `Approvals.GrantReadsBack` | crates/vigil-core/src/approval.rs:258-273 | a grant's token reads back as that grant |
| `Approvals.ApprovalService.Request` | crates/vigil-core/src/approval.rs:158-194 | a new pending request with its lifetime clamped is recorded |
| `Approvals.ApprovalService.Approve` | crates/vigil-core/src/approval.rs:208-285 | the new approvals and the token are those of the grant; an expired request is closed by the attempt |
| `Approvals.ApprovalService.Reject` | crates/vigil-core/src/approval.rs:288-295 | a known request becomes rejected, from any state |
| `Approvals.ApprovalService.VerifyAndConsume` | crates/vigil-core/src/approval.rs:301-381 | a good token is consumed; any failed check leaves the approvals as they were |
| `ApprovalRuns.HistoryIsOrderly` | crates/vigil-core/src/approval.rs:208-381 | in every run each grant is given once, for a request raised earlier, by someone entitled, and each spending follows its grant and is the first thing to settle it |
| `ApprovalRuns.SpentOnce` | crates/vigil-core/src/approval.rs:288-381 | an approval is spent at most once and never after a rejection |
| `ApprovalRuns.UnsettledGrantIsSpent` | crates/vigil-core/src/approval.rs:301-381 | in every run a grant that nothing has settled is spent by its own token for its own action within 900 s |
| `ApprovalRuns.RejectedIsNeverSpent` | crates/vigil-core/src/approval.rs:288-295 | a rejection is recorded, and nothing spends the approval afterwards |
| `Decisions.StrictestVerdict` | crates/vigil-core/src/pipeline.rs:366-378 | the fold is one of the verdicts and none is stricter; detectors are left out exactly when they are to be skipped and the other stages deny without ending the session |
| `Decisions.StrictestIsUnique` | crates/vigil-protocol/src/decision.rs:69-75 | the fold does not depend on the order of the verdicts |
| `Decisions.MintsExactlyWhen` | crates/vigil-core/src/pipeline.rs:366-403 | a capability is minted if and only if no stage, detectors included, says quarantine, deny or terminate and, if any stage, the manifest or the risk asks for a human, an approval was spent |
| `Decisions.OutcomeExactly` | crates/vigil-core/src/pipeline.rs:366-396 | every outcome, in terms of what the stages say: the worst of it, with an approval in place of asking for one |
| `Decisions.ApprovalOnlyAnswersItself` | crates/vigil-core/src/pipeline.rs:392-396 | an approval changes the outcome only where that outcome was to ask for one |
| `Decisions.Decide` | crates/vigil-core/src/pipeline.rs:366-396 | the loop and the upgrades give that outcome, with the minting condition above |
| `Pipelines.DecisionPipeline.Decide` | crates/vigil-core/src/pipeline.rs:285-452 | spends, mints or asks as decided; the token carries this request's bindings; a request for approval has the terms of every rule |
| `Pipelines.DecisionPipeline.VerifyPresentedApproval` | crates/vigil-core/src/pipeline.rs:626-652 | a presented token is spent if it is good for this action and is otherwise no approval |
| `ApprovalTerms.ApprovalTermsFor` | crates/vigil-core/src/pipeline.rs:671-708 | lists, in order and without repeats, exactly the roles every rule accepts, with the shortest lifetime; fails exactly when there is none |
| `ApprovalTerms.TermsIgnoreOrder` | crates/vigil-core/src/pipeline.rs:665-708 | the terms are the same for every order of the rules |
| `ApprovalTerms.LifetimeIsLeastExactly` | crates/vigil-core/src/pipeline.rs:704-708 | the shortest signed lifetime is the least one written in the rules if and only if every one is below 2^63 |
| `ApprovalTerms.WrappedLifetimeIsShortest` | crates/vigil-core/src/approval.rs:158-194 | with a lifetime of 2^63 or more among the rules the request closes after 30 s |
| `ApprovalTerms.WrappedLifetimeExample` | crates/vigil-core/src/pipeline.rs:704-708 | one day and 2^63 seconds together give 30 s and not the day |
| `ApprovalTerms.ApproverSatisfiesEveryRule` | crates/vigil-core/src/approval.rs:226-251 | whoever may approve holds one role that every rule accepts, is human, of the tenant and not the requester |
| `AuditChains.HonestRunsVerify` | crates/vigil-audit/src/lib.rs:227-337 | in every run of appends, failing writes, interleaved checkpoints, crashes and restarts that has not forked the log, the durable log and the export verify without a failure and every durable checkpoint covers a durable entry |
| `AuditChains.LogVerifiesExactly` | crates/vigil-audit/src/sink.rs:96-115 | in every run the durable log verifies if and only if no record was written after one that was stored but reported as failed and before the next restart |
| `AuditChains.RunForm` | crates/vigil-audit/src/lib.rs:261-298 | in every run the log is forked exactly then, and until then it is well chained and equals memory exactly when no stored record has been reported as failed since the last restart |
| `AuditChains.EvidenceSurvives` | crates/vigil-audit/src/lib.rs:261-298 | no run, forked or not, ever loses or changes a durable entry |
| `AuditChains.VerifiedMeansHonest` | crates/vigil-audit/src/lib.rs:379-510 | in every run that has not forked the log, a bundle that verifies under keys that include the chain's own, and whose verified checkpoints were signed in the run, shows up to each checkpoint the history the chain made durable, or a collision |
| `AuditChains.OwnLogQualifies` | crates/vigil-audit/src/lib.rs:340-350 | the durable log of such a run is itself such a bundle |
| `AuditChains.RecordsRepeat` | crates/vigil-audit/src/lib.rs:261-298 | in every run that has not forked the log, entry and envelope repeat the entry's number and the chain hash before it |
| `AuditChains.AppendKeepsChain` | crates/vigil-audit/src/lib.rs:261-298 | an append leaves memory and sink equal and well chained |
| `AuditChains.RecoveryKeepsChain` | crates/vigil-audit/src/sink.rs:117-129 | a restart resumes the same well-chained log, a record left behind included |
| `AuditEvidence.ChainHashPinsPrefix` | crates/vigil-audit/src/lib.rs:243-258 | well-chained logs with one chain hash at n agree on all links up to n, or a collision |
| `AuditEvidence.CheckpointPinsHistory` | crates/vigil-audit/src/lib.rs:379-510 | a verified bundle with a checkpoint the honest chain signed at n carries the same sequences, contents and chain hashes up to n, or a collision |
| `AuditEvidence.NoForgedHistory` | crates/vigil-audit/src/lib.rs:441-510 | the same for any verified checkpoint whose text was signed |
| `AuditEvidence.DeletionReported` | crates/vigil-audit/src/lib.rs:392-439 | cutting any block but a suffix gives exactly one gap and one broken link, both at the first survivor, or a collision |
| `AuditEvidence.EditReported` | crates/vigil-audit/src/lib.rs:392-439 | replacing the content of one entry by content with another text gives exactly one modification and one broken link, both there, or a collision; content without a text gives the modification alone |
| `AuditEvidence.TruncationUnseen` | crates/vigil-audit/src/lib.rs:392-439 | without checkpoints a missing tail is not reported |
| `AuditLog.CleanMeansLinked` | crates/vigil-audit/src/lib.rs:392-439 | the scan reports nothing exactly when every entry is numbered, hashed and linked as an append makes it |
| `AuditLog.ScansAlike` | crates/vigil-audit/src/lib.rs:392-439 | the scan depends neither on an entry's own previous-hash field nor on the sequence and previous hash in its envelope |
| `AuditVerifier.Verify` | crates/vigil-audit/src/lib.rs:379-510 | the two loops report exactly the failures of the entries and of the checkpoints |
| `AuditReports.ReportExactly` | crates/vigil-audit/src/lib.rs:379-510 | a failure is reported if and only if it is true of some entry or checkpoint, for each of the eight kinds, in terms of their fields |
| `AuditReports.EntryReport` | crates/vigil-audit/src/lib.rs:392-439 | an entry's failures are each reported once: duplicate, gap, content, link |
| `AuditReports.ReportsInOrder` | crates/vigil-audit/src/lib.rs:392-439 | the report goes entry by entry |
| `AuditReports.CheckpointReport` | crates/vigil-audit/src/lib.rs:441-510 | a checkpoint has at most one failure: unknown key, bad signature, missing entry, or the last entry with its number has another hash |
| `AuditScheme.CanonicalSchemeCommits` | crates/vigil-audit/src/lib.rs:79-94 | link, content and checkpoint texts each determine everything they were made from; content has a text exactly when it renders |
| `Documents.LinkText` | crates/vigil-audit/src/lib.rs:243-258 | the text whose digest is the chain hash |
| `Documents.CheckpointText` | crates/vigil-audit/src/lib.rs:79-94 | the text that is signed |
| `AuditSystem.VerifiedLogIsHonest` | crates/vigil-audit/src/lib.rs:379-510 | `VerifiedMeansHonest` for canonical JSON, with nothing assumed of the texts |
| `AuditSystem.HonestLogVerifies` | crates/vigil-audit/src/lib.rs:227-337 | `LogVerifiesExactly` for canonical JSON |
| `AuditSystem.CutLogIsReported` | crates/vigil-audit/src/lib.rs:392-439 | in every run that has not forked the log, cutting any block but a suffix out of it gives exactly one gap and one broken link, or a collision |
| `AuditSystem.EditedLogIsReported` | crates/vigil-audit/src/lib.rs:392-439 | in every run that has not forked the log, other content in an entry gives exactly one modification and one broken link there, or a collision |
| `DurableChain.AuditChain.Append` | crates/vigil-audit/src/lib.rs:261-298 | memory advances only when the sink reports success, and the chain stays well formed |
| `DurableChain.AuditChain.SignHead` | crates/vigil-audit/src/lib.rs:301-320 | signs the current head, and fails only on an empty chain |
| `DurableChain.AuditChain.Publish` | crates/vigil-audit/src/lib.rs:322-337 | a checkpoint is remembered only once it is durable |
| `DurableChain.AuditChain.constructor` | crates/vigil-audit/src/lib.rs:227-241 | resumes what the sink holds |
| `CanonicalForm.CanonicalReadsBack` | crates/vigil-common/src/canonical.rs:50-211 | reading canonical text gives the value, with integral doubles as integers and members sorted |
| `CanonicalForm.CanonicalIsIdempotent` | crates/vigil-common/src/canonical.rs:50-211 | canonicalizing what was read gives the same text |
| `CanonicalForm.CanonicalDecidesSame` | crates/vigil-common/src/canonical.rs:50-211 | two values share their text exactly when they differ at most in integral doubles and member order |
| `CanonicalForm.MemberOrderIsIrrelevant` | crates/vigil-common/src/canonical.rs:84-103 | enumerating an object in another order gives the same text |
| `CanonicalText.NormalKeysAscend` | crates/vigil-common/src/canonical.rs:84-103 | in canonical text each key precedes the next by UTF-16 code units |
| `CanonicalText.EscapesExactly` | crates/vigil-common/src/canonical.rs:193-211 | how each character is written: seven short escapes, lowercase hexadecimal for the other controls, everything else as it stands |
| `CanonicalText.SameNumberExactly` | crates/vigil-common/src/canonical.rs:108-135 | two numbers have one text exactly when they are the same number, or have the same real value and lie strictly within 2^53 |
| `CanonicalText.TextExactly` | crates/vigil-common/src/canonical.rs:117-191 | which doubles have a text: magnitude below 10^16, and integral below 2^53 or printed without an exponent and read back unchanged |
| `CanonicalText.CanonicalBlanks` | crates/vigil-common/src/canonical.rs:50-106 | there are no blanks but the spaces inside strings |
| `CanonicalWriter.Canonicalize` | crates/vigil-common/src/canonical.rs:50-106 | the writer succeeds exactly on renderable values and writes their canonical text |
| `CanonicalWriter.WriteNumber` | crates/vigil-common/src/canonical.rs:108-191 | writes a number's canonical form, and fails exactly where there is none |
| `CanonicalWriter.WriteString` | crates/vigil-common/src/canonical.rs:193-211 | writes the quoted, escaped string |
| `Utf16.Utf16Cmp` | crates/vigil-common/src/canonical.rs:214-228 | answers less exactly when, where the code units first part, the first string ends or has the smaller unit; equal only on identical strings |
| `Ordering.LexExactly` | crates/vigil-common/src/canonical.rs:214-228 | the order of the sort is the one of the first difference |
| `Utf16.Utf16LeIsTotalOrder` | crates/vigil-common/src/canonical.rs:214-228 | that comparison is a total order |
| `ContentHashes.CtEq` | crates/vigil-common/src/hash.rs:84-93 | the constant-time comparison is equality |
| `ContentHashes.ParseInvertsText` | crates/vigil-common/src/hash.rs:105-137 | parsing succeeds exactly on `sha256:` and 64 lowercase hexadecimal digits, and gives them back |
| `Paths.Normalize` | crates/vigil-common/src/path.rs:26-54 | the loop shows the path's lexical form |
| `Paths.LexIsNormal` | crates/vigil-common/src/path.rs:26-54 | that form holds only names, with parent references only in front of a relative path |
| `Paths.NormalizeKeepsMeaning` | crates/vigil-common/src/path.rs:26-54 | from every start directory a path and its normalization lead to the same place |
| `Paths.NormalizeIsIdempotent` | crates/vigil-common/src/path.rs:26-54 | normalizing twice changes nothing |
| `Paths.InsideExactly` | crates/vigil-common/src/path.rs:60-70 | a path is inside a root exactly when the root's names begin its own; the relative root `.` holds only itself |
| `Paths.InsideAbsoluteRoots` | crates/vigil-common/src/path.rs:60-70 | for absolute roots, exactly when the path is absolute and some root's place lies on the way to its place |
| `PathDetector.AnalyzePath` | crates/vigil-detect/src/command.rs:228-268 | the findings are exactly the two reported conditions |
| `PathDetector.DecodeTraversal` | crates/vigil-detect/src/command.rs:275-287 | stopping early is the same as decoding three times |
| `PathDetector.PercentDecodeLossy` | crates/vigil-detect/src/command.rs:290-310 | the loop undoes the escapes byte by byte and decodes lossily |
| `PathDetector.DecodedParts` | crates/vigil-detect/src/command.rs:290-310 | decoding works on each path component on its own |
| `PathDetector.UnsuspiciousDecodes` | crates/vigil-detect/src/command.rs:313-330 | if nothing is revealed, decoding commutes with normalization |
| `PathDetector.DetectorAgrees` | fuzz/fuzz_targets/path_traversal.rs:27-51 | a path inside roots that decoding leaves alone, without reported traversal, is not reported outside |
| `PathDetector.PercentFreeRootsAreFixed` | crates/vigil-detect/src/command.rs:290-310 | roots without a percent sign are such roots |
| `PathEncoding.DecodeUndoesPercent` | crates/vigil-detect/src/command.rs:290-310 | decoding undoes percent-encoding, for every text and either case of every digit |
| `PathEncoding.HiddenIsReported` | crates/vigil-detect/src/command.rs:228-330 | a separator, a NUL or a dot component behind one to three layers of encoding is reported |
| `PathEncoding.TraversalExactly` | crates/vigil-detect/src/command.rs:228-258 | traversal is reported exactly when decoding reveals something, brings out a NUL, or leads above the start |
| `PathEncoding.BackslashesFold` | crates/vigil-detect/src/command.rs:275-287 | after decoding, backslashes are slashes and nothing else is changed |
| `PathAgreement.AgreementExactly` | crates/vigil-detect/src/command.rs:228-330 | a list of roots is never contradicted, for any path, if and only if each root already reports traversal or, decoded, is held by some root of the list |
| `PathAgreement.SingleRootAgreesExactly` | crates/vigil-detect/src/command.rs:228-330 | for one root: if and only if decoding leaves it alone or already reports traversal in it |
| `PathAgreement.SomeRootDisagrees` | crates/vigil-detect/src/command.rs:228-268 | some root is inside itself, without traversal, and reported outside itself |
| `Endpoint.AllowExactly` | crates/vigil-endpoint/src/lib.rs:358-485 | an attributed process is allowed exactly permitted operations, with the margin left in exact arithmetic before a present deadline |
| `Endpoint.OperationExactly` | crates/vigil-endpoint/src/lib.rs:415-471 | permitted means: known open flags, well-formed paths under a workspace and no protected prefix, or an allowlisted unprotected executable |
| `Endpoint.KnownFlagsExactly` | crates/vigil-endpoint/src/lib.rs:415-471 | the known open flags are the three lowest bits, and at least one must be set |
| `Endpoint.OperationReason` | crates/vigil-endpoint/src/lib.rs:415-471 | the reason given is the first thing wrong, for each operation |
| `Endpoint.AnswerExactly` | crates/vigil-endpoint/src/lib.rs:358-413 | session, latency and time left of every answer, and its reason for managed and unmanaged processes |
| `EndpointPaths.WellFormedExactly` | crates/vigil-endpoint/src/lib.rs:574-589 | which paths are refused, in terms of their text: no parent reference between slashes |
| `EndpointPaths.UnderIsInside` | crates/vigil-endpoint/src/lib.rs:551-565 | for well-formed paths without a backslash, under a root means lexical containment in it |
| `EndpointPaths.BelowIsUnder` | crates/vigil-endpoint/src/lib.rs:551-565 | whatever follows a root behind a slash is under it |
| `EndpointPaths.UnderAnyExactly` | crates/vigil-endpoint/src/lib.rs:551-565 | any one of the roots will do, wherever it is listed |
| `Endpoint.ResponseSaysVerdict` | crates/vigil-endpoint/src/lib.rs:591-605 | the response is of the operation's kind and grants exactly what the verdict allows |
| `EndpointRuns.PolicyIsNeverMissing` | crates/vigil-endpoint/src/lib.rs:322-517 | in every run the table stays within 16,384 entries without a zero key, and no event finds its session without a policy |
| `EndpointRuns.AttributionHasOrigin` | crates/vigil-endpoint/src/lib.rs:487-517 | every attribution goes back through forks and allowed execs, undisturbed in between, to a root bound to its session |
| `EndpointRuns.AttributionExactly` | crates/vigil-endpoint/src/lib.rs:322-517 | in every run a process belongs to a session if and only if it so descends from a root bound to it |
| `EndpointRuns.EventExactly` | crates/vigil-endpoint/src/lib.rs:487-517 | what each event does to each process: handed on, ended, or left alone |
| `EndpointRuns.BindExactly` | crates/vigil-endpoint/src/lib.rs:322-348 | a binding adds a new process to a known session while there is room, and moves none |
| `EndpointRuns.PolicyLimits` | crates/vigil-endpoint/src/lib.rs:284-320 | the limits of a valid policy, in numbers |
| `EndpointRuns.NewState` | crates/vigil-endpoint/src/lib.rs:284-320 | succeeds exactly on bounded, valid policies without a repeated session |
| `EndpointRuns.FastPathState.BindRoot` | crates/vigil-endpoint/src/lib.rs:322-348 | binds exactly where it may, and keeps the table valid |
| `EndpointRuns.FastPathState.ApplySuccessfulTransition` | crates/vigil-endpoint/src/lib.rs:487-517 | moves, copies or drops the attribution as the event says, and keeps the table valid |
| `EndpointMetrics.AuthorizationMetrics.RecordDecision` | crates/vigil-endpoint/src/lib.rs:692-713 | counts one decision with saturation |
| `EndpointMetrics.EndpointSimulator.Run` | crates/vigil-endpoint/src/lib.rs:728-766 | the loop handles every item up to a source failure and reports the result |
| `EndpointMetrics.CountersBalance` | crates/vigil-endpoint/src/lib.rs:692-713 | below 2^64 items, authorizations are counted exactly and equal allows plus denials, and late events are at most guard denials, which are at most denials |
| `EndpointMetrics.CountersCountDecisions` | crates/vigil-endpoint/src/lib.rs:692-713 | each counter equals the number of decisions of its kind, and the greatest latency is that of some answer |
| `EndpointMetrics.NothingUnaccounted` | crates/vigil-endpoint/src/lib.rs:728-766 | with ascending sequences on a fresh simulator, observed plus dropped equals last minus first plus one |
| `EndpointMetrics.DroppedExactly` | crates/vigil-endpoint/src/lib.rs:728-766 | the dropped counter is the sum of all reported losses and skipped numbers, up to where it saturates |
| `EndpointMetrics.SimulationIsLaneRun` | crates/vigil-endpoint/src/lib.rs:728-766 | a simulation continues the run of the lane it starts from, each event processed at its time plus the delay, and reports the lane's own answers |
| `Risk.Aggregate` | crates/vigil-core/src/risk.rs:175-179 | the loop computes one minus the product of what each signal leaves |
| `Risk.Assess` | crates/vigil-core/src/risk.rs:105-189 | the score is the rounded, discounted aggregate of the signals |
| `Risk.OrderIsIrrelevant` | crates/vigil-core/src/risk.rs:175-179 | the aggregate does not depend on the order of the signals |
| `Risk.ListOrderIsIrrelevant` | crates/vigil-core/src/risk.rs:129-168 | nor the score on the order of taints and detector results |
| `Risk.SignalsOnlyRaise` | crates/vigil-core/src/risk.rs:97-104 | another signal never lowers the aggregate |
| `Risk.ScoreBounds` | crates/vigil-core/src/risk.rs:105-189 | the score stays below 1, and is positive exactly when some signal is, approval or not |
| `Risk.ScoreExactly` | crates/vigil-core/src/risk.rs:105-189 | the score as a product, with what each signal leaves of 1 written out |
| `Risk.RoundingEdges` | crates/vigil-core/src/risk.rs:206-208 | rounding shows 0 exactly below 0.00005 and 1 exactly from 0.99995 on |
| `Risk.ReviewExactly` | crates/vigil-core/src/risk.rs:78-82 | review is warranted exactly from a score of 0.59995 on |

## Left out

- Gateways.Gateway.ExecuteAs: the capability's constraints, the backend lookup and the credential broker are one given predicate; an outcome of the tool itself is not modelled.
- Pipelines.DecisionPipeline.Decide: the verdicts of policy, remit, budget, detectors and risk are inputs; session records, budgets, previews and reason codes are not modelled.
- Protocol.InvocationsMapToMints: needs every purge to meet the condition of `PurgeGuardIsExact`; without it the property is false (`ReplayRun`), and purges with late cutoffs meet it (`LateRunsQualify`). A redemption may carry any request that presents the same action, which includes the one it began with.
- Materials.MaterialCommits: the operation of a database statement is a given field and not read off the statement; fields an action does not commit to are left out.
- Endpoint.AllowExactly: path components are those of absolute paths, which the validated roots and prefixes are.
- Risk.Assess: arithmetic is over the reals; the confidence value and the sorted contribution list are left out.
- DurableChain.FileAuditSink: a record is written whole or not at all; the text of the files and their parsing are not modelled.
- Lock poisoning, log text, reason codes, latency fields and error messages.
- Ed25519, SHA-256, randomness and serialization of claims and headers, which are parameters.
- `classify_capability_failure`, `inspect`, `deciding_stage`, `remaining_seconds`: they would add only easy members.
- The command line, HTTP layers, daemon, local store, identity, policy and remit engines, endpoint snapshots and filesystem-resolved paths.
