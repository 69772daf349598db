/**
 The audit theorems for the texts in use. Canonical JSON commits to everything it is made
 from, so nothing is left to assume about the scheme but how doubles print.
 */
module AuditSystem {
  import opened Json
  import opened ReadBack
  import opened ContentHashes
  import opened AuditLog
  import opened AuditEvidence
  import opened AuditScheme
  import opened AuditChains

  /** Foreign code: how doubles print, the digest, and signature verification. */
  datatype Platform = Platform(fc: FloatCodec, digest: string -> ContentHash,
                               verifies: (PublicKey, string, string) -> bool)

  function SchemeOf(p: Platform): Scheme { CanonicalScheme(p.fc, p.digest, p.verifies) }

  /** In any run that has not forked the log, a bundle that verifies shows the chain's own history. */
  lemma {:induction false} VerifiedLogIsHonest(p: Platform, signer: Signer, key: PublicKey, trusted: TrustedKeys,
                                               states: seq<State>, steps: seq<Step>, k: nat, b: AuditBundle, i: nat)
    requires PrintsFloatTokens(p.fc) && SignerWorks(SchemeOf(p), signer, key) && TrustsChain(signer, key, trusted)
    requires IsRun(SchemeOf(p), signer, states, steps) && k < |states| && !Forks(steps, k)
    requires Unforged(SchemeOf(p), trusted, b, states[k].signed)
    requires ValidLog(b.entries) && Failures(SchemeOf(p), trusted, b) == []
    requires i < |b.checkpoints| && b.checkpoints[i].sequence < U64_LIMIT
    ensures var n, honest := b.checkpoints[i].sequence, states[k].core.durableEntries;
            && n < |b.entries| && n < |honest|
            && (ClashUpTo(SchemeOf(p), b.entries, honest, n) || SameHistory(b.entries, honest, n))
  {
    CanonicalSchemeCommits(p.fc, p.digest, p.verifies);
    VerifiedMeansHonest(SchemeOf(p), signer, key, trusted, states, steps, k, b, i);
  }

  /** Over every run the durable log verifies exactly as long as it has not been forked. */
  lemma {:induction false} HonestLogVerifies(p: Platform, signer: Signer, key: PublicKey, trusted: TrustedKeys,
                                             states: seq<State>, steps: seq<Step>, k: nat)
    requires PrintsFloatTokens(p.fc) && SignerWorks(SchemeOf(p), signer, key) && TrustsChain(signer, key, trusted)
    requires IsRun(SchemeOf(p), signer, states, steps) && k < |states|
    ensures var s := states[k].core;
            Clean(SchemeOf(p), signer, trusted, s.durableEntries, s.durableCheckpoints) <==> !Forks(steps, k)
  {
    CanonicalSchemeCommits(p.fc, p.digest, p.verifies);
    LogVerifiesExactly(SchemeOf(p), signer, key, trusted, states, steps, k);
  }

  /** Cutting a block, not at the end, out of an unforked durable log is reported at the cut and nowhere else. */
  lemma {:induction false} CutLogIsReported(p: Platform, signer: Signer, states: seq<State>, steps: seq<Step>, k: nat,
                                            i: nat, j: nat)
    requires PrintsFloatTokens(p.fc)
    requires IsRun(SchemeOf(p), signer, states, steps) && k < |states| && !Forks(steps, k)
    requires i < j < |states[k].core.durableEntries|
    ensures var es := states[k].core.durableEntries;
            var cut := es[..i] + es[j..];
            || ClashAtCut(SchemeOf(p), es, i, j)
            || LogFailures(SchemeOf(p), cut, |cut|) == [SequenceGap(i, j), ChainBroken(j)]
  {
    CanonicalSchemeCommits(p.fc, p.digest, p.verifies);
    RunForm(SchemeOf(p), signer, states, steps, k);
    DeletionReported(SchemeOf(p), states[k].core.durableEntries, i, j);
  }

  /** Editing the content of an entry of an unforked durable log is reported there and nowhere else. */
  lemma {:induction false} EditedLogIsReported(p: Platform, signer: Signer, states: seq<State>, steps: seq<Step>,
                                               k: nat, i: nat, v: Value)
    requires PrintsFloatTokens(p.fc) && Valid(v) && Renderable(p.fc, v)
    requires IsRun(SchemeOf(p), signer, states, steps) && k < |states| && !Forks(steps, k)
    requires i < |states[k].core.durableEntries| && !Same(states[k].core.durableEntries[i].event.content, v)
    ensures var es := states[k].core.durableEntries;
            || ClashAtEdit(SchemeOf(p), es, i, v)
            || LogFailures(SchemeOf(p), Edited(es, i, v), |es|) == [ContentModified(i), ChainBroken(i)]
  {
    var es := states[k].core.durableEntries;
    CanonicalSchemeCommits(p.fc, p.digest, p.verifies);
    RunForm(SchemeOf(p), signer, states, steps, k);
    assert Linked(SchemeOf(p), es, i);
    EditReported(SchemeOf(p), es, i, v);
  }
}
