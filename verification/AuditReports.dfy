/**
 What the verifier's report says, failure by failure, in terms of the fields of the entries and
 checkpoints it is about.
 */
module AuditReports {
  import opened Json
  import opened ContentHashes
  import opened AuditLog

  // ---- entries ----

  /** The chain hash the entry before position `k` carries. */
  function Before(es: seq<AuditEntry>, k: nat): Option<ContentHash>
    requires k < |es|
  {
    if k == 0 then None else Some(es[k - 1].chainHash)
  }

  /** The content has no text, or the event hash is missing or is not the hash of that text. */
  predicate ContentSpoiled(c: Scheme, e: AuditEntry) {
    var text := c.contentText(e.event.content);
    text.None? || e.event.integrity.None? || e.event.integrity.value.eventHash != c.digest(text.value)
  }

  /** The chain hash is not that of the entry's number, its content and the entry before. */
  predicate LinkSpoiled(c: Scheme, es: seq<AuditEntry>, k: nat)
    requires k < |es|
  {
    var text := c.contentText(es[k].event.content);
    text.Some?
    && es[k].chainHash != c.digest(c.linkText(es[k].sequence, c.digest(text.value), Before(es, k)))
  }

  /** The failure is true of the entry at `k`. */
  ghost predicate Deserved(c: Scheme, es: seq<AuditEntry>, k: nat, f: Failure)
    requires k < |es|
  {
    match f
    case DuplicateSequence(n) => n == es[k].sequence && exists i :: 0 <= i < k && es[i].sequence == n
    case SequenceGap(m, n) =>
      n == es[k].sequence && m != n && m == if k == 0 then 0 else (es[k - 1].sequence + 1) % 0x1_0000_0000_0000_0000
    case ContentModified(n) => n == es[k].sequence && ContentSpoiled(c, es[k])
    case ChainBroken(n) => n == es[k].sequence && LinkSpoiled(c, es, k)
    case _ => false
  }

  /** The order in which the failures of one entry are reported. */
  function Rank(f: Failure): nat {
    match f
    case DuplicateSequence(_) => 0
    case SequenceGap(_, _) => 1
    case ContentModified(_) => 2
    case ChainBroken(_) => 3
    case _ => 4
  }

  ghost predicate Ascending(fs: seq<Failure>) {
    forall i, j :: 0 <= i < j < |fs| ==> Rank(fs[i]) < Rank(fs[j])
  }

  lemma {:induction false} HashesReported(c: Scheme, es: seq<AuditEntry>, k: nat, f: Failure)
    requires k < |es|
    ensures f in HashFailures(c, Previous(es, k), es[k]) <==>
            (f.ContentModified? || f.ChainBroken?) && Deserved(c, es, k, f)
  {
  }

  lemma {:induction false} PositionReported(c: Scheme, es: seq<AuditEntry>, k: nat, f: Failure)
    requires k < |es|
    ensures f in PositionFailures(es, k) <==> (f.DuplicateSequence? || f.SequenceGap?) && Deserved(c, es, k, f)
  {
  }

  /** The report on an entry: exactly the failures that are true of it, each once and in order. */
  lemma {:induction false} EntryReport(c: Scheme, es: seq<AuditEntry>, k: nat)
    requires k < |es|
    ensures forall f :: f in EntryFailures(c, es, k) <==> Deserved(c, es, k, f)
    ensures Ascending(EntryFailures(c, es, k))
  {
    forall f ensures f in EntryFailures(c, es, k) <==> Deserved(c, es, k, f) {
      HashesReported(c, es, k, f);
      PositionReported(c, es, k, f);
    }
  }

  ghost predicate SomeEntryDeserves(c: Scheme, es: seq<AuditEntry>, k: nat, f: Failure)
    requires k <= |es|
  {
    exists i :: 0 <= i < k && Deserved(c, es, i, f)
  }

  ghost predicate SomeReportHas(reports: seq<seq<Failure>>, k: nat, f: Failure)
    requires k <= |reports|
  {
    exists i :: 0 <= i < k && f in reports[i]
  }

  lemma {:induction false} FlatHolds(reports: seq<seq<Failure>>, k: nat, f: Failure)
    requires k <= |reports|
    ensures f in Flat(reports, k) <==> SomeReportHas(reports, k, f)
  {
    if k > 0 {
      FlatHolds(reports, k - 1, f);
      assert f in Flat(reports, k) <==> f in Flat(reports, k - 1) || f in reports[k - 1];
    }
  }

  /** The report on a log: exactly the failures that are true of some entry. */
  lemma {:induction false} LogReport(c: Scheme, es: seq<AuditEntry>, f: Failure)
    ensures f in LogFailures(c, es, |es|) <==> SomeEntryDeserves(c, es, |es|, f)
  {
    var reports := Reports(c, es);
    FlatHolds(reports, |es|, f);
    forall i | 0 <= i < |es| ensures f in reports[i] <==> Deserved(c, es, i, f) {
      EntryReport(c, es, i);
    }
  }

  lemma {:induction false} FlatBegins(reports: seq<seq<Failure>>, i: nat, k: nat)
    requires i < k <= |reports|
    ensures Flat(reports, i) + reports[i] <= Flat(reports, k)
  {
    if i < k - 1 {
      FlatBegins(reports, i, k - 1);
      assert Flat(reports, k) == Flat(reports, k - 1) + reports[k - 1];
    }
  }

  /** The report goes entry by entry: what is said of the first entries is said first. */
  lemma {:induction false} ReportsInOrder(c: Scheme, es: seq<AuditEntry>, i: nat, k: nat)
    requires i < k <= |es|
    ensures LogFailures(c, es, i) + EntryFailures(c, es, i) <= LogFailures(c, es, k)
  {
    FlatBegins(Reports(c, es), i, k);
  }

  // ---- checkpoints ----

  /** Of the first `k` entries, the one at `i` is the last with the number `n`. */
  ghost predicate LastWith(es: seq<AuditEntry>, k: nat, i: nat, n: nat)
    requires k <= |es|
  {
    i < k && es[i].sequence == n && forall j :: i < j < k ==> es[j].sequence != n
  }

  predicate Authentic(c: Scheme, trusted: TrustedKeys, cp: Checkpoint) {
    cp.keyId in trusted && c.verifies(trusted[cp.keyId], c.payloadText(cp), cp.signature)
  }

  /** The failure is true of the checkpoint, beside these entries. */
  ghost predicate CheckpointDeserves(c: Scheme, trusted: TrustedKeys, es: seq<AuditEntry>, cp: Checkpoint, f: Failure) {
    match f
    case CheckpointKeyUnknown(n, id) => n == cp.sequence && id == cp.keyId && id !in trusted
    case CheckpointSignatureInvalid(n) => n == cp.sequence && cp.keyId in trusted && !Authentic(c, trusted, cp)
    case TruncatedBelowCheckpoint(n, last) =>
      && n == cp.sequence && Authentic(c, trusted, cp) && (forall i :: 0 <= i < |es| ==> es[i].sequence != n)
      && last == if es == [] then 0 else es[|es| - 1].sequence
    case CheckpointMismatch(n) =>
      && n == cp.sequence && Authentic(c, trusted, cp)
      && exists i: nat :: LastWith(es, |es|, i, n) && es[i].chainHash != cp.chainHash
    case _ => false
  }

  /** The hash recorded for a number is that of the last entry with it. */
  lemma {:induction false} HashAtIsLast(es: seq<AuditEntry>, k: nat, n: nat) returns (i: nat)
    requires k <= |es|
    ensures n in HashAt(es, k) ==> LastWith(es, k, i, n) && HashAt(es, k)[n] == es[i].chainHash
    ensures n !in HashAt(es, k) ==> forall j :: 0 <= j < k ==> es[j].sequence != n
  {
    i := 0;
    if k > 0 {
      i := HashAtIsLast(es, k - 1, n);
      if es[k - 1].sequence == n {
        i := k - 1;
      }
    }
  }

  /** The report on a checkpoint: exactly the failure that is true of it, if there is one. */
  lemma {:induction false} CheckpointReport(c: Scheme, trusted: TrustedKeys, es: seq<AuditEntry>, cp: Checkpoint)
    ensures |CheckpointFailures(c, trusted, es, cp)| <= 1
    ensures forall f :: f in CheckpointFailures(c, trusted, es, cp) <==> CheckpointDeserves(c, trusted, es, cp, f)
  {
    var i := HashAtIsLast(es, |es|, cp.sequence);
  }

  ghost predicate SomeCheckpointDeserves(c: Scheme, trusted: TrustedKeys, b: AuditBundle, k: nat, f: Failure)
    requires k <= |b.checkpoints|
  {
    exists i :: 0 <= i < k && CheckpointDeserves(c, trusted, b.entries, b.checkpoints[i], f)
  }

  lemma {:induction false} CheckpointsReport(c: Scheme, trusted: TrustedKeys, b: AuditBundle, k: nat)
    requires k <= |b.checkpoints|
    ensures forall f :: f in AllCheckpointFailures(c, trusted, b, k) <==> SomeCheckpointDeserves(c, trusted, b, k, f)
  {
    if k > 0 {
      CheckpointsReport(c, trusted, b, k - 1);
      CheckpointReport(c, trusted, b.entries, b.checkpoints[k - 1]);
      forall f
        ensures SomeCheckpointDeserves(c, trusted, b, k, f) <==>
                || SomeCheckpointDeserves(c, trusted, b, k - 1, f)
                || CheckpointDeserves(c, trusted, b.entries, b.checkpoints[k - 1], f)
      {
      }
    }
  }

  /** The whole report: a failure is in it if and only if it is true of some entry or some checkpoint. */
  lemma {:induction false} ReportExactly(c: Scheme, trusted: TrustedKeys, b: AuditBundle, f: Failure)
    ensures f in Failures(c, trusted, b) <==>
            || SomeEntryDeserves(c, b.entries, |b.entries|, f)
            || SomeCheckpointDeserves(c, trusted, b, |b.checkpoints|, f)
  {
    LogReport(c, b.entries, f);
    CheckpointsReport(c, trusted, b, |b.checkpoints|);
  }
}
