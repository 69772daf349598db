/**
 The hash-chained audit log and what its verifier reports.

 A `Scheme` says what text is hashed for an event, for a link and for a checkpoint, and
 holds the foreign hash and signature functions. `CanonicalScheme` is the one in use. Nothing
 is assumed about the hash function: where a result would need collision resistance, it says
 "or these two texts, which the two logs hash, collide".
 */
module AuditLog {
  import opened Json
  import opened ContentHashes

  type PublicKey = int

  datatype Envelope = Envelope(sequence: nat, eventHash: ContentHash, previousHash: Option<ContentHash>)

  /** A security event: its content, and the chain fields kept out of its own hash. */
  datatype Event = Event(content: Value, integrity: Option<Envelope>)

  datatype AuditEntry = AuditEntry(sequence: nat, event: Event, chainHash: ContentHash,
                                   previousHash: Option<ContentHash>)

  datatype Checkpoint = Checkpoint(tenant: string, sequence: nat, chainHash: ContentHash,
                                   signedAt: string, keyId: string, signature: string)

  datatype Failure =
    | ContentModified(sequence: nat)
    | ChainBroken(sequence: nat)
    | SequenceGap(expected: nat, found: nat)
    | DuplicateSequence(sequence: nat)
    | CheckpointSignatureInvalid(sequence: nat)
    | CheckpointKeyUnknown(sequence: nat, keyId: string)
    | CheckpointMismatch(sequence: nat)
    | TruncatedBelowCheckpoint(checkpointSequence: nat, lastSequence: nat)

  datatype Scheme = Scheme(contentText: Value -> Option<string>,
                           linkText: (nat, ContentHash, Option<ContentHash>) -> string,
                           payloadText: Checkpoint -> string,
                           digest: string -> ContentHash,
                           verifies: (PublicKey, string, string) -> bool)

  /** Sequences are 64-bit and event contents are maps without repeated keys. */
  ghost predicate ValidLog(es: seq<AuditEntry>) {
    forall i :: 0 <= i < |es| ==> es[i].sequence < U64_LIMIT && Valid(es[i].event.content)
  }

  // ---- what is hashed ----

  /** A link text determines the number and the two hashes it was made from. */
  ghost predicate LinksCommit(c: Scheme) {
    forall m: nat, g, p, n: nat, h, q ::
      m < U64_LIMIT && n < U64_LIMIT && c.linkText(m, g, p) == c.linkText(n, h, q) ==>
        m == n && g == h && p == q
  }

  /** A content text determines the content, up to what canonical JSON identifies. */
  ghost predicate ContentsCommit(c: Scheme) {
    forall v, w :: Valid(v) && Valid(w) && c.contentText(v).Some? && c.contentText(v) == c.contentText(w) ==> Same(v, w)
  }

  /** A payload determines the checkpoint, signature aside. */
  ghost predicate PayloadsCommit(c: Scheme) {
    forall a: Checkpoint, b: Checkpoint ::
      a.sequence < U64_LIMIT && b.sequence < U64_LIMIT && c.payloadText(a) == c.payloadText(b) ==>
        a.(signature := "") == b.(signature := "")
  }

  ghost predicate PayloadIgnoresSignature(c: Scheme) {
    forall cp: Checkpoint, sig :: c.payloadText(cp.(signature := sig)) == c.payloadText(cp)
  }

  function ContentHashOf(c: Scheme, e: AuditEntry): (h: Option<ContentHash>) {
    var text := c.contentText(e.event.content);
    if text.None? then None else Some(c.digest(text.value))
  }

  function LinkHash(c: Scheme, sequence: nat, eventHash: ContentHash, previous: Option<ContentHash>): ContentHash {
    c.digest(c.linkText(sequence, eventHash, previous))
  }

  // ---- the verifier's report on the entries ----

  /** What the scan expects after k entries: one past the last of them, in 64-bit arithmetic. */
  function Expected(es: seq<AuditEntry>, k: nat): nat
    requires k <= |es|
  {
    if k == 0 then 0 else (es[k - 1].sequence + 1) % U64_LIMIT
  }

  function Previous(es: seq<AuditEntry>, k: nat): Option<ContentHash>
    requires k <= |es|
  {
    if k == 0 then None else Some(es[k - 1].chainHash)
  }

  predicate SequenceSeen(es: seq<AuditEntry>, k: nat, n: nat)
    requires k <= |es|
  {
    exists i :: 0 <= i < k && es[i].sequence == n
  }

  /** What is wrong with the position, content and link of the entry at k. */
  function EntryFailures(c: Scheme, es: seq<AuditEntry>, k: nat): (r: seq<Failure>)
    requires k < |es|
  {
    PositionFailures(es, k) + HashFailures(c, Previous(es, k), es[k])
  }

  function PositionFailures(es: seq<AuditEntry>, k: nat): (r: seq<Failure>)
    requires k < |es|
  {
    var n := es[k].sequence;
    (if SequenceSeen(es, k, n) then [DuplicateSequence(n)] else [])
    + (if n != Expected(es, k) then [SequenceGap(Expected(es, k), n)] else [])
  }

  function HashFailures(c: Scheme, previous: Option<ContentHash>, e: AuditEntry): (r: seq<Failure>) {
    match ContentHashOf(c, e)
    case None => [ContentModified(e.sequence)]
    case Some(h) =>
      (if e.event.integrity.None? || e.event.integrity.value.eventHash != h
       then [ContentModified(e.sequence)] else [])
      + (if LinkHash(c, e.sequence, h, previous) != e.chainHash then [ChainBroken(e.sequence)] else [])
  }

  /** The first k reports, one after the other. */
  function Flat(reports: seq<seq<Failure>>, k: nat): (r: seq<Failure>)
    requires k <= |reports|
  {
    if k == 0 then [] else Flat(reports, k - 1) + reports[k - 1]
  }

  function Reports(c: Scheme, es: seq<AuditEntry>): (r: seq<seq<Failure>>) {
    seq(|es|, (i: nat) requires i < |es| => EntryFailures(c, es, i))
  }

  /** The scan's report on the first k entries. */
  function LogFailures(c: Scheme, es: seq<AuditEntry>, k: nat): (r: seq<Failure>)
    requires k <= |es|
  {
    Flat(Reports(c, es), k)
  }

  lemma {:induction false} ScanStep(c: Scheme, es: seq<AuditEntry>, k: nat)
    requires k < |es|
    ensures LogFailures(c, es, k + 1) == LogFailures(c, es, k) + EntryFailures(c, es, k)
  {
  }

  lemma {:induction false} FlatIsEmpty(reports: seq<seq<Failure>>, k: nat)
    requires k <= |reports|
    ensures Flat(reports, k) == [] <==> EmptyUpTo(reports, k)
  {
    if k > 0 {
      FlatIsEmpty(reports, k - 1);
    }
  }

  lemma {:induction false} FlatsAgree(a: seq<seq<Failure>>, b: seq<seq<Failure>>, k: nat)
    requires k <= |a| && k <= |b| && forall i :: 0 <= i < k ==> a[i] == b[i]
    ensures Flat(a, k) == Flat(b, k)
  {
    if k > 0 {
      FlatsAgree(a, b, k - 1);
    }
  }

  /** When only one report says anything, it is all that is said. */
  lemma {:induction false} OnlyReport(reports: seq<seq<Failure>>, i: nat, k: nat)
    requires i < k <= |reports| && forall j :: 0 <= j < k && j != i ==> reports[j] == []
    ensures Flat(reports, k) == reports[i]
  {
    if k == i + 1 {
      FlatIsEmpty(reports, i);
    } else {
      OnlyReport(reports, i, k - 1);
    }
  }

  /** Whether the entry at a position is numbered, hashed and linked as an append would have it. */
  ghost predicate Linked(c: Scheme, es: seq<AuditEntry>, i: nat)
    requires i < |es|
  {
    var e := es[i];
    && e.sequence == i
    && ContentHashOf(c, e).Some?
    && e.event.integrity.Some?
    && e.event.integrity.value.eventHash == ContentHashOf(c, e).value
    && e.chainHash == LinkHash(c, i, ContentHashOf(c, e).value, Previous(es, i))
  }

  ghost predicate LinkedUpTo(c: Scheme, es: seq<AuditEntry>, k: nat)
    requires k <= |es|
  {
    forall i :: 0 <= i < k ==> Linked(c, es, i)
  }

  ghost predicate WellChained(c: Scheme, es: seq<AuditEntry>) { LinkedUpTo(c, es, |es|) }

  /** After k linked entries the scan expects k, and has not seen that number. */
  lemma {:induction false} ExpectsLength(c: Scheme, es: seq<AuditEntry>, k: nat)
    requires k <= |es| && LinkedUpTo(c, es, k) && ValidLog(es)
    ensures k <= U64_LIMIT
    ensures k < U64_LIMIT ==> Expected(es, k) == k && !SequenceSeen(es, k, k)
    ensures k == U64_LIMIT ==> Expected(es, k) == 0 && SequenceSeen(es, k, 0)
  {
    forall i | 0 <= i < k ensures es[i].sequence == i < U64_LIMIT {
      assert Linked(c, es, i);
    }
    assert k > 0 ==> es[k - 1].sequence == k - 1;
    assert k == U64_LIMIT ==> es[0].sequence == 0;
  }

  lemma {:induction false} LinkedEntryIsClean(c: Scheme, es: seq<AuditEntry>, k: nat)
    requires k < |es| && LinkedUpTo(c, es, k) && ValidLog(es)
    ensures EntryFailures(c, es, k) == [] <==> Linked(c, es, k)
  {
    ExpectsLength(c, es, k);
  }

  ghost predicate EmptyUpTo(reports: seq<seq<Failure>>, k: nat)
    requires k <= |reports|
  {
    forall i :: 0 <= i < k ==> reports[i] == []
  }

  ghost predicate CleanUpTo(c: Scheme, es: seq<AuditEntry>, k: nat)
    requires k <= |es|
  {
    EmptyUpTo(Reports(c, es), k)
  }

  lemma {:induction false} CleanEntriesAreLinked(c: Scheme, es: seq<AuditEntry>, k: nat)
    requires ValidLog(es) && k <= |es|
    ensures CleanUpTo(c, es, k) <==> LinkedUpTo(c, es, k)
  {
    if k > 0 {
      CleanEntriesAreLinked(c, es, k - 1);
      UpToOneMore(c, es, k - 1);
      if LinkedUpTo(c, es, k - 1) {
        LinkedEntryIsClean(c, es, k - 1);
      }
    }
  }

  lemma {:induction false} UpToOneMore(c: Scheme, es: seq<AuditEntry>, k: nat)
    requires k < |es|
    ensures LinkedUpTo(c, es, k + 1) <==> LinkedUpTo(c, es, k) && Linked(c, es, k)
    ensures CleanUpTo(c, es, k + 1) <==> CleanUpTo(c, es, k) && EntryFailures(c, es, k) == []
  {
    EmptyOneMore(Reports(c, es), k);
  }

  lemma {:induction false} EmptyOneMore(reports: seq<seq<Failure>>, k: nat)
    requires k < |reports|
    ensures EmptyUpTo(reports, k + 1) <==> EmptyUpTo(reports, k) && reports[k] == []
  {
  }

  /** The scan reports nothing exactly when every entry is numbered, hashed and linked. */
  lemma {:induction false} CleanMeansLinked(c: Scheme, es: seq<AuditEntry>, k: nat)
    requires ValidLog(es) && k <= |es|
    ensures LogFailures(c, es, k) == [] <==> LinkedUpTo(c, es, k)
  {
    FlatIsEmpty(Reports(c, es), k);
    CleanEntriesAreLinked(c, es, k);
  }

  /** The envelope's fields that repeat the chain's: its number and its previous hash. */
  predicate EnvelopesAlike(a: Option<Envelope>, b: Option<Envelope>) {
    a.Some? == b.Some? && (a.Some? ==> a.value.eventHash == b.value.eventHash)
  }

  /** Entries that differ at most in the previous-hash fields and in the envelope's number. */
  predicate Alike(e: AuditEntry, f: AuditEntry) {
    && e.sequence == f.sequence && e.chainHash == f.chainHash && e.event.content == f.event.content
    && EnvelopesAlike(e.event.integrity, f.event.integrity)
  }

  lemma {:induction false} EntryScansAlike(c: Scheme, es: seq<AuditEntry>, fs: seq<AuditEntry>, k: nat)
    requires k < |es| && k < |fs| && forall i :: 0 <= i <= k ==> Alike(es[i], fs[i])
    ensures EntryFailures(c, es, k) == EntryFailures(c, fs, k)
    ensures Linked(c, es, k) <==> Linked(c, fs, k)
  {
    assert k > 0 ==> Alike(es[k - 1], fs[k - 1]);
    assert SequenceSeen(es, k, es[k].sequence) <==> SequenceSeen(fs, k, fs[k].sequence) by {
      assert forall i :: 0 <= i < k ==> es[i].sequence == fs[i].sequence;
    }
    assert PositionFailures(es, k) == PositionFailures(fs, k);
  }

  /**
   The scan reads nothing beyond the entries so far, and of those neither a previous-hash field
   nor the envelope's number.
   */
  lemma {:induction false} ScansAlike(c: Scheme, es: seq<AuditEntry>, fs: seq<AuditEntry>, k: nat)
    requires k <= |es| && k <= |fs| && forall i :: 0 <= i < k ==> Alike(es[i], fs[i])
    ensures LogFailures(c, es, k) == LogFailures(c, fs, k)
    ensures LinkedUpTo(c, es, k) <==> LinkedUpTo(c, fs, k)
  {
    forall i | 0 <= i < k
      ensures Reports(c, es)[i] == Reports(c, fs)[i] && (Linked(c, es, i) <==> Linked(c, fs, i))
    {
      EntryScansAlike(c, es, fs, i);
    }
    FlatsAgree(Reports(c, es), Reports(c, fs), k);
  }

  // ---- the verifier's report on the checkpoints ----

  datatype AuditBundle = AuditBundle(tenant: string, entries: seq<AuditEntry>, checkpoints: seq<Checkpoint>)

  type TrustedKeys = map<string, PublicKey>

  /** The chain hash recorded at each sequence; a later entry with the same number wins. */
  function HashAt(es: seq<AuditEntry>, k: nat): (m: map<nat, ContentHash>)
    requires k <= |es|
  {
    if k == 0 then map[] else HashAt(es, k - 1)[es[k - 1].sequence := es[k - 1].chainHash]
  }

  function LastSequence(es: seq<AuditEntry>): nat {
    if es == [] then 0 else es[|es| - 1].sequence
  }

  function CheckpointFailures(c: Scheme, trusted: TrustedKeys, es: seq<AuditEntry>, cp: Checkpoint): (r: seq<Failure>) {
    if cp.keyId !in trusted then [CheckpointKeyUnknown(cp.sequence, cp.keyId)]
    else if !c.verifies(trusted[cp.keyId], c.payloadText(cp), cp.signature) then
      [CheckpointSignatureInvalid(cp.sequence)]
    else if cp.sequence !in HashAt(es, |es|) then [TruncatedBelowCheckpoint(cp.sequence, LastSequence(es))]
    else if HashAt(es, |es|)[cp.sequence] != cp.chainHash then [CheckpointMismatch(cp.sequence)]
    else []
  }

  /** The report on the first k checkpoints. */
  function AllCheckpointFailures(c: Scheme, trusted: TrustedKeys, b: AuditBundle, k: nat): (r: seq<Failure>)
    requires k <= |b.checkpoints|
  {
    if k == 0 then []
    else AllCheckpointFailures(c, trusted, b, k - 1) + CheckpointFailures(c, trusted, b.entries, b.checkpoints[k - 1])
  }

  /** Everything `verify` reports, in the order it reports it. */
  function Failures(c: Scheme, trusted: TrustedKeys, b: AuditBundle): (r: seq<Failure>) {
    LogFailures(c, b.entries, |b.entries|) + AllCheckpointFailures(c, trusted, b, |b.checkpoints|)
  }

  lemma {:induction false} HashAtLinked(c: Scheme, es: seq<AuditEntry>, k: nat)
    requires k <= |es| && LinkedUpTo(c, es, k)
    ensures forall n: nat :: n in HashAt(es, k) <==> n < k
    ensures forall n: nat :: n < k ==> HashAt(es, k)[n] == es[n].chainHash
  {
    if k > 0 {
      HashAtLinked(c, es, k - 1);
      assert Linked(c, es, k - 1);
    }
  }

  lemma {:induction false} EveryCheckpointClean(c: Scheme, trusted: TrustedKeys, b: AuditBundle, k: nat)
    requires k <= |b.checkpoints|
    ensures AllCheckpointFailures(c, trusted, b, k) == [] <==>
            forall i :: 0 <= i < k ==> CheckpointFailures(c, trusted, b.entries, b.checkpoints[i]) == []
  {
    if k > 0 {
      EveryCheckpointClean(c, trusted, b, k - 1);
    }
  }
}
