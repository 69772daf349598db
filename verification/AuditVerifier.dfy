/**
 The verifier as it runs: one pass over the entries that carries what it expects next, the
 previous hash, the numbers seen and the hash at each number, then one pass over the
 checkpoints.
 */
module AuditVerifier {
  import opened Json
  import opened ContentHashes
  import opened AuditLog

  datatype VerificationReport = VerificationReport(entriesChecked: nat, checkpointsChecked: nat, failures: seq<Failure>)

  method CheckHashes(c: Scheme, previous: Option<ContentHash>, e: AuditEntry) returns (failures: seq<Failure>)
    ensures failures == HashFailures(c, previous, e)
  {
    failures := [];
    match ContentHashOf(c, e)
    case None => failures := failures + [ContentModified(e.sequence)];
    case Some(recomputed) =>
      if e.event.integrity.None? || e.event.integrity.value.eventHash != recomputed {
        failures := failures + [ContentModified(e.sequence)];
      }
      if LinkHash(c, e.sequence, recomputed, previous) != e.chainHash {
        failures := failures + [ChainBroken(e.sequence)];
      }
  }

  ghost predicate HaveSeen(es: seq<AuditEntry>, k: nat, seen: set<nat>)
    requires k <= |es|
  {
    forall n :: n in seen <==> SequenceSeen(es, k, n)
  }

  lemma {:induction false} SeenOneMore(es: seq<AuditEntry>, k: nat, seen: set<nat>)
    requires k < |es| && HaveSeen(es, k, seen)
    ensures HaveSeen(es, k + 1, seen + {es[k].sequence})
  {
    forall n ensures n in seen + {es[k].sequence} <==> SequenceSeen(es, k + 1, n) {
      assert SequenceSeen(es, k + 1, n) <==> SequenceSeen(es, k, n) || n == es[k].sequence;
    }
  }

  /** A gap is reported once: the scan resynchronizes to the number it found. */
  method CheckPosition(es: seq<AuditEntry>, k: nat, seen: set<nat>, expected: nat)
    returns (failures: seq<Failure>, resynchronized: nat)
    requires k < |es| && expected == Expected(es, k) && HaveSeen(es, k, seen)
    ensures failures == PositionFailures(es, k) && resynchronized == es[k].sequence
  {
    failures, resynchronized := [], expected;
    if es[k].sequence in seen {
      failures := failures + [DuplicateSequence(es[k].sequence)];
    }
    if es[k].sequence != expected {
      failures := failures + [SequenceGap(expected, es[k].sequence)];
      resynchronized := es[k].sequence;
    }
  }

  /** Everything reported about one entry. */
  method CheckEntry(c: Scheme, es: seq<AuditEntry>, k: nat, seen: set<nat>, expected: nat,
                    previous: Option<ContentHash>)
    returns (failures: seq<Failure>, next: nat)
    requires k < |es| && expected == Expected(es, k) && previous == Previous(es, k) && HaveSeen(es, k, seen)
    ensures failures == EntryFailures(c, es, k) && next == Expected(es, k + 1)
  {
    var position, resynchronized := CheckPosition(es, k, seen, expected);
    var hashes := CheckHashes(c, previous, es[k]);
    return position + hashes, (resynchronized + 1) % U64_LIMIT;
  }

  /** What the pass over the entries leaves behind. */
  datatype Scan = Scan(failures: seq<Failure>, hashAt: map<nat, ContentHash>)

  method CheckEntries(c: Scheme, es: seq<AuditEntry>) returns (scan: Scan)
    ensures scan == Scan(LogFailures(c, es, |es|), HashAt(es, |es|))
  {
    var failures: seq<Failure>, hashAt: map<nat, ContentHash> := [], map[];
    var expected: nat, previous: Option<ContentHash>, seen: set<nat> := 0, None, {};
    for k := 0 to |es|
      invariant failures == LogFailures(c, es, k) && hashAt == HashAt(es, k)
      invariant expected == Expected(es, k) && previous == Previous(es, k) && HaveSeen(es, k, seen)
    {
      var found, next := CheckEntry(c, es, k, seen, expected, previous);
      ScanStep(c, es, k);
      SeenOneMore(es, k, seen);
      failures := failures + found;
      seen := seen + {es[k].sequence};
      hashAt := hashAt[es[k].sequence := es[k].chainHash];
      previous, expected := Some(es[k].chainHash), next;
    }
    return Scan(failures, hashAt);
  }

  method Verify(c: Scheme, trusted: TrustedKeys, b: AuditBundle) returns (report: VerificationReport)
    ensures report.entriesChecked == |b.entries| && report.checkpointsChecked == |b.checkpoints|
    ensures report.failures == Failures(c, trusted, b)
  {
    var scan := CheckEntries(c, b.entries);
    var failures, hashAt := scan.failures, scan.hashAt;
    for k := 0 to |b.checkpoints|
      invariant failures == LogFailures(c, b.entries, |b.entries|) + AllCheckpointFailures(c, trusted, b, k)
    {
      var cp := b.checkpoints[k];
      var found := [];
      if cp.keyId !in trusted {
        found := [CheckpointKeyUnknown(cp.sequence, cp.keyId)];
      } else if !c.verifies(trusted[cp.keyId], c.payloadText(cp), cp.signature) {
        found := [CheckpointSignatureInvalid(cp.sequence)];
      } else if cp.sequence !in hashAt {
        found := [TruncatedBelowCheckpoint(cp.sequence, LastSequence(b.entries))];
      } else if hashAt[cp.sequence] != cp.chainHash {
        found := [CheckpointMismatch(cp.sequence)];
      }
      assert found == CheckpointFailures(c, trusted, b.entries, cp);
      failures := failures + found;
    }
    return VerificationReport(|b.entries|, |b.checkpoints|, failures);
  }
}
