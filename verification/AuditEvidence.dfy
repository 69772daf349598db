/**
 What a clean verification proves about a log, and what tampering makes the verifier say.
 */
module AuditEvidence {
  import opened Json
  import opened ContentHashes
  import opened AuditLog

  // ---- two texts with one digest ----

  predicate Clash(c: Scheme, s: string, t: string) { s != t && c.digest(s) == c.digest(t) }

  predicate ContentClash(c: Scheme, e: AuditEntry, h: AuditEntry) {
    var s, t := c.contentText(e.event.content), c.contentText(h.event.content);
    s.Some? && t.Some? && Clash(c, s.value, t.value)
  }

  /** The text whose digest is the chain hash of a linked entry. */
  function LinkTextAt(c: Scheme, es: seq<AuditEntry>, i: nat): string
    requires i < |es|
  {
    c.linkText(es[i].sequence, EventHash(es[i]), Previous(es, i))
  }

  /** The event hash an entry records. */
  function EventHash(e: AuditEntry): ContentHash {
    if e.event.integrity.Some? then e.event.integrity.value.eventHash else e.chainHash
  }

  /** Whether the two logs hash clashing texts at a position. */
  predicate ClashAt(c: Scheme, es: seq<AuditEntry>, hs: seq<AuditEntry>, i: nat)
    requires i < |es| && i < |hs|
  {
    Clash(c, LinkTextAt(c, es, i), LinkTextAt(c, hs, i)) || ContentClash(c, es[i], hs[i])
  }

  ghost predicate ClashUpTo(c: Scheme, es: seq<AuditEntry>, hs: seq<AuditEntry>, n: nat)
    requires n < |es| && n < |hs|
  {
    exists i: nat :: i <= n && ClashAt(c, es, hs, i)
  }

  /** Same number, same chain hash, same text of the content. */
  predicate Agree(c: Scheme, e: AuditEntry, h: AuditEntry) {
    && e.sequence == h.sequence && e.chainHash == h.chainHash
    && c.contentText(e.event.content) == c.contentText(h.event.content)
  }

  /** Two well-chained logs that agree on one chain hash agree on everything before it. */
  lemma {:induction false} ChainHashPinsPrefix(c: Scheme, es: seq<AuditEntry>, hs: seq<AuditEntry>, n: nat)
    requires LinksCommit(c) && n < U64_LIMIT
    requires WellChained(c, es) && WellChained(c, hs) && n < |es| && n < |hs|
    requires es[n].chainHash == hs[n].chainHash && !ClashUpTo(c, es, hs, n)
    ensures forall i :: 0 <= i <= n ==> Agree(c, es[i], hs[i])
  {
    assert !ClashAt(c, es, hs, n);
    assert Linked(c, es, n) && Linked(c, hs, n);
    if n > 0 {
      ChainHashPinsPrefix(c, es, hs, n - 1);
    }
  }

  /** What the verifier established about one checkpoint of a clean bundle. */
  lemma {:induction false} CleanCheckpoint(c: Scheme, trusted: TrustedKeys, b: AuditBundle, k: nat)
    requires ValidLog(b.entries) && Failures(c, trusted, b) == [] && k < |b.checkpoints|
    ensures WellChained(c, b.entries)
    ensures var cp := b.checkpoints[k];
            && cp.sequence < |b.entries| && b.entries[cp.sequence].chainHash == cp.chainHash
            && cp.keyId in trusted && c.verifies(trusted[cp.keyId], c.payloadText(cp), cp.signature)
  {
    CleanMeansLinked(c, b.entries, |b.entries|);
    EveryCheckpointClean(c, trusted, b, |b.checkpoints|);
    assert CheckpointFailures(c, trusted, b.entries, b.checkpoints[k]) == [];
    HashAtLinked(c, b.entries, |b.entries|);
  }

  /** Whether two logs hold the same history up to n: numbers, chain hashes, event contents. */
  ghost predicate SameHistory(es: seq<AuditEntry>, hs: seq<AuditEntry>, n: nat)
    requires n < |es| && n < |hs|
  {
    forall i :: 0 <= i <= n ==>
      && es[i].sequence == hs[i].sequence && es[i].chainHash == hs[i].chainHash
      && Same(es[i].event.content, hs[i].event.content)
  }

  lemma {:induction false} AgreementIsSameHistory(c: Scheme, es: seq<AuditEntry>, hs: seq<AuditEntry>, n: nat)
    requires ContentsCommit(c) && ValidLog(es) && ValidLog(hs) && n < |es| && n < |hs| && WellChained(c, es)
    requires forall i :: 0 <= i <= n ==> Agree(c, es[i], hs[i])
    ensures SameHistory(es, hs, n)
  {
    forall i | 0 <= i <= n
      ensures && es[i].sequence == hs[i].sequence && es[i].chainHash == hs[i].chainHash
              && Same(es[i].event.content, hs[i].event.content)
    {
      assert Agree(c, es[i], hs[i]) && Linked(c, es, i);
    }
  }

  /**
   If verification reports nothing on a bundle that holds a checkpoint carrying the honest
   chain's hash at sequence n, the bundle holds the honest entries 0..n, or the two logs
   exhibit a hash collision. The bundle is otherwise arbitrary.
   */
  lemma {:induction false} CheckpointPinsHistory(c: Scheme, trusted: TrustedKeys, b: AuditBundle, k: nat,
                                                 honest: seq<AuditEntry>)
    requires LinksCommit(c) && ContentsCommit(c)
    requires ValidLog(b.entries) && ValidLog(honest) && WellChained(c, honest)
    requires Failures(c, trusted, b) == [] && k < |b.checkpoints|
    requires var cp := b.checkpoints[k]; cp.sequence < |honest| && cp.chainHash == honest[cp.sequence].chainHash
    ensures var n := b.checkpoints[k].sequence;
            && n < |b.entries|
            && (ClashUpTo(c, b.entries, honest, n) || SameHistory(b.entries, honest, n))
  {
    var n := b.checkpoints[k].sequence;
    CleanCheckpoint(c, trusted, b, k);
    ExpectsLength(c, honest, |honest|);
    if !ClashUpTo(c, b.entries, honest, n) {
      ChainHashPinsPrefix(c, b.entries, honest, n);
      AgreementIsSameHistory(c, b.entries, honest, n);
    }
  }

  ghost predicate WasSigned(c: Scheme, signed: set<Checkpoint>, text: string) {
    exists h :: h in signed && c.payloadText(h) == text
  }

  /** Each presented checkpoint whose signature a trusted key verifies was signed by the honest chain. */
  ghost predicate Unforged(c: Scheme, trusted: TrustedKeys, b: AuditBundle, signed: set<Checkpoint>) {
    forall i :: 0 <= i < |b.checkpoints| ==> CheckpointUnforged(c, trusted, b.checkpoints[i], signed)
  }

  ghost predicate CheckpointUnforged(c: Scheme, trusted: TrustedKeys, cp: Checkpoint, signed: set<Checkpoint>) {
    cp.keyId in trusted && c.verifies(trusted[cp.keyId], c.payloadText(cp), cp.signature) ==>
      WasSigned(c, signed, c.payloadText(cp))
  }

  /** Every checkpoint the honest chain signed covers an entry of its log. */
  ghost predicate SignedFrom(signed: set<Checkpoint>, honest: seq<AuditEntry>) {
    forall h :: h in signed ==> h.sequence < |honest| && h.sequence < U64_LIMIT
                                && h.chainHash == honest[h.sequence].chainHash
  }

  /** Without the signing key no bundle verifies unless each of its checkpoints pins honest history. */
  lemma {:induction false} NoForgedHistory(c: Scheme, trusted: TrustedKeys, b: AuditBundle, k: nat,
                                           honest: seq<AuditEntry>, signed: set<Checkpoint>)
    requires LinksCommit(c) && ContentsCommit(c) && PayloadsCommit(c)
    requires ValidLog(b.entries) && ValidLog(honest) && WellChained(c, honest)
    requires Unforged(c, trusted, b, signed) && SignedFrom(signed, honest)
    requires Failures(c, trusted, b) == [] && k < |b.checkpoints| && b.checkpoints[k].sequence < U64_LIMIT
    ensures var n := b.checkpoints[k].sequence;
            && n < |b.entries| && n < |honest|
            && (ClashUpTo(c, b.entries, honest, n) || SameHistory(b.entries, honest, n))
  {
    CleanCheckpoint(c, trusted, b, k);
    CheckpointPinsHistory(c, trusted, b, k, honest);
  }

  // ---- deleting a block ----

  /** Whether the log hashes clashing texts at the cut: the links at j, or the links before it. */
  ghost predicate ClashAtCut(c: Scheme, es: seq<AuditEntry>, i: nat, j: nat)
    requires i < j < |es|
  {
    || Clash(c, LinkTextAt(c, es, j), c.linkText(es[j].sequence, EventHash(es[j]), Previous(es, i)))
    || (i > 0 && Clash(c, LinkTextAt(c, es, i - 1), LinkTextAt(c, es, j - 1)))
  }

  lemma {:induction false} CutChangesPrevious(c: Scheme, es: seq<AuditEntry>, i: nat, j: nat)
    requires LinksCommit(c) && WellChained(c, es) && i < j < |es| <= U64_LIMIT
    requires !ClashAtCut(c, es, i, j)
    ensures Previous(es, i) != Previous(es, j)
  {
    if i > 0 {
      assert Linked(c, es, i - 1) && Linked(c, es, j - 1);
      assert LinkTextAt(c, es, i - 1) != LinkTextAt(c, es, j - 1);
    }
  }

  lemma {:induction false} CutLinkBreaks(c: Scheme, es: seq<AuditEntry>, i: nat, j: nat)
    requires LinksCommit(c) && WellChained(c, es) && i < j < |es| <= U64_LIMIT
    requires !ClashAtCut(c, es, i, j)
    ensures HashFailures(c, Previous(es, i), es[j]) == [ChainBroken(j)]
  {
    CutChangesPrevious(c, es, i, j);
    assert Linked(c, es, j);
    assert c.linkText(j, EventHash(es[j]), Previous(es, i)) != LinkTextAt(c, es, j);
  }

  /** The log with the block from i up to j taken out. */
  predicate IsCut(es: seq<AuditEntry>, i: nat, j: nat, cut: seq<AuditEntry>) {
    && i < j < |es| && |cut| == |es| - (j - i)
    && (forall k :: 0 <= k < i ==> cut[k] == es[k])
    && (forall k :: i <= k < |cut| ==> cut[k] == es[k + (j - i)])
  }

  lemma {:induction false} FirstSurvivorReported(c: Scheme, es: seq<AuditEntry>, i: nat, j: nat, cut: seq<AuditEntry>)
    requires LinksCommit(c) && ValidLog(es) && WellChained(c, es) && IsCut(es, i, j, cut)
    requires !ClashAtCut(c, es, i, j)
    ensures EntryFailures(c, cut, i) == [SequenceGap(i, j), ChainBroken(j)]
  {
    ExpectsLength(c, es, |es|);
    assert Linked(c, es, j) && cut[i] == es[j];
    CutLinkBreaks(c, es, i, j);
    assert Previous(cut, i) == Previous(es, i);
    forall k | 0 <= k < i ensures cut[k].sequence == k {
      assert Linked(c, es, k);
    }
    assert PositionFailures(cut, i) == [SequenceGap(i, j)];
  }

  lemma {:induction false} LaterSurvivorClean(c: Scheme, es: seq<AuditEntry>, i: nat, j: nat, cut: seq<AuditEntry>,
                                              m: nat)
    requires ValidLog(es) && WellChained(c, es) && IsCut(es, i, j, cut) && i < m < |cut|
    ensures EntryFailures(c, cut, m) == []
  {
    var d := j - i;
    ExpectsLength(c, es, |es|);
    assert Linked(c, es, m + d) && Linked(c, es, m - 1 + d);
    assert cut[m] == es[m + d] && cut[m - 1] == es[m - 1 + d];
    assert Previous(cut, m) == Previous(es, m + d);
    forall k | 0 <= k < m ensures cut[k].sequence < m + d {
      assert Linked(c, es, if k < i then k else k + d);
    }
    assert PositionFailures(cut, m) == [];
  }

  /** In front of the block nothing changes. */
  lemma {:induction false} CutPrefixClean(c: Scheme, es: seq<AuditEntry>, i: nat, j: nat, cut: seq<AuditEntry>, m: nat)
    requires ValidLog(es) && WellChained(c, es) && IsCut(es, i, j, cut) && m < i
    ensures EntryFailures(c, cut, m) == []
  {
    EntryScansAlike(c, es, cut, m);
    LinkedEntryIsClean(c, es, m);
  }

  lemma {:induction false} CutReports(c: Scheme, es: seq<AuditEntry>, i: nat, j: nat, cut: seq<AuditEntry>)
    requires LinksCommit(c) && ValidLog(es) && WellChained(c, es) && IsCut(es, i, j, cut)
    requires !ClashAtCut(c, es, i, j)
    ensures LogFailures(c, cut, |cut|) == [SequenceGap(i, j), ChainBroken(j)]
  {
    FirstSurvivorReported(c, es, i, j, cut);
    forall m | 0 <= m < |cut| && m != i ensures Reports(c, cut)[m] == [] {
      if m < i { CutPrefixClean(c, es, i, j, cut, m); } else { LaterSurvivorClean(c, es, i, j, cut, m); }
    }
    OnlyReport(Reports(c, cut), i, |cut|);
  }

  /**
   Taking any block but a suffix out of a well-chained log makes the scan report exactly one
   gap and one broken link, both at the first entry behind the block, or exhibits a collision.
   */
  lemma {:induction false} DeletionReported(c: Scheme, es: seq<AuditEntry>, i: nat, j: nat)
    requires LinksCommit(c) && ValidLog(es) && WellChained(c, es) && i < j < |es|
    ensures var cut := es[..i] + es[j..];
            ClashAtCut(c, es, i, j) || LogFailures(c, cut, |cut|) == [SequenceGap(i, j), ChainBroken(j)]
  {
    var cut := es[..i] + es[j..];
    assert IsCut(es, i, j, cut);
    if !ClashAtCut(c, es, i, j) {
      CutReports(c, es, i, j, cut);
    }
  }

  // ---- editing an entry ----

  /** The log with other content in the entry at i, and everything else as it was. */
  function Edited(es: seq<AuditEntry>, i: nat, v: Value): seq<AuditEntry>
    requires i < |es|
  {
    es[i := es[i].(event := es[i].event.(content := v))]
  }

  /** Whether the old and the new content, or the links made from them, are clashing texts. */
  predicate ClashAtEdit(c: Scheme, es: seq<AuditEntry>, i: nat, v: Value)
    requires i < |es|
  {
    var s, t := c.contentText(es[i].event.content), c.contentText(v);
    && s.Some? && t.Some?
    && (Clash(c, s.value, t.value)
        || Clash(c, LinkTextAt(c, es, i), c.linkText(es[i].sequence, c.digest(t.value), Previous(es, i))))
  }

  lemma {:induction false} EditedEntryReported(c: Scheme, es: seq<AuditEntry>, i: nat, v: Value)
    requires LinksCommit(c) && ValidLog(es) && WellChained(c, es) && i < |es|
    ensures var t := c.contentText(v);
            var report := EntryFailures(c, Edited(es, i, v), i);
            && (t.None? ==> report == [ContentModified(i)])
            && (t == c.contentText(es[i].event.content) ==> report == [])
            && (t.Some? && t != c.contentText(es[i].event.content) ==>
                  ClashAtEdit(c, es, i, v) || report == [ContentModified(i), ChainBroken(i)])
  {
    var edited := Edited(es, i, v);
    assert Linked(c, es, i);
    ExpectsLength(c, es, i);
    assert Previous(edited, i) == Previous(es, i) && Expected(edited, i) == Expected(es, i);
    assert SequenceSeen(edited, i, i) <==> SequenceSeen(es, i, i);
    assert PositionFailures(edited, i) == [];
  }

  lemma {:induction false} OthersUnmoved(c: Scheme, es: seq<AuditEntry>, i: nat, v: Value, m: nat)
    requires ValidLog(es) && WellChained(c, es) && i < |es| && m < |es| && m != i
    ensures EntryFailures(c, Edited(es, i, v), m) == []
  {
    var edited := Edited(es, i, v);
    LinkedEntryIsClean(c, es, m);
    assert Previous(edited, m) == Previous(es, m) && Expected(edited, m) == Expected(es, m);
    assert SequenceSeen(edited, m, es[m].sequence) <==> SequenceSeen(es, m, es[m].sequence) by {
      assert forall k :: 0 <= k < |es| ==> edited[k].sequence == es[k].sequence;
    }
  }

  /**
   Replacing the content of one entry of a well-chained log by content with another text makes
   the scan report exactly that the content was modified and the link is broken, both there, or
   exhibits a collision; content without a text is reported as modified, and content with the
   same text not at all.
   */
  lemma {:induction false} EditReported(c: Scheme, es: seq<AuditEntry>, i: nat, v: Value)
    requires LinksCommit(c) && ValidLog(es) && WellChained(c, es) && i < |es|
    ensures var t := c.contentText(v);
            var report := LogFailures(c, Edited(es, i, v), |es|);
            && (t.None? ==> report == [ContentModified(i)])
            && (t == c.contentText(es[i].event.content) ==> report == [])
            && (t.Some? && t != c.contentText(es[i].event.content) ==>
                  ClashAtEdit(c, es, i, v) || report == [ContentModified(i), ChainBroken(i)])
  {
    var edited := Edited(es, i, v);
    forall m | 0 <= m < |es| && m != i ensures Reports(c, edited)[m] == [] {
      OthersUnmoved(c, es, i, v, m);
    }
    OnlyReport(Reports(c, edited), i, |es|);
    EditedEntryReported(c, es, i, v);
  }

  /** The scan alone finds nothing wrong with a log whose tail is missing. */
  lemma {:induction false} TruncationUnseen(c: Scheme, es: seq<AuditEntry>, k: nat)
    requires ValidLog(es) && WellChained(c, es) && k <= |es|
    ensures LogFailures(c, es, k) == []
  {
    CleanMeansLinked(c, es, k);
  }
}
