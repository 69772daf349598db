/**
 The texts the audit log hashes and signs, as canonical JSON documents, and the proof that
 each of them commits to everything it was made from.
 */
module AuditScheme {
  import opened Json
  import opened ReadBack
  import opened CanonicalForm
  import opened ContentHashes
  import opened AuditLog

  function LinkValue(sequence: nat, eventHash: ContentHash, previous: Option<ContentHash>): Value {
    Obj([Entry("sequence", Num(PosInt(sequence))),
         Entry("event_hash", Str(Text(eventHash))),
         Entry("previous_hash", if previous.None? then Null else Str(Text(previous.value)))])
  }

  function CheckpointValue(cp: Checkpoint): Value {
    Obj([Entry("tenant_id", Str(cp.tenant)),
         Entry("sequence", Num(PosInt(cp.sequence))),
         Entry("chain_hash", Str(Text(cp.chainHash))),
         Entry("signed_at", Str(cp.signedAt)),
         Entry("key_id", Str(cp.keyId))])
  }

  function CanonicalScheme(fc: FloatCodec, digest: string -> ContentHash,
                           verifies: (PublicKey, string, string) -> bool): (c: Scheme) {
    Scheme(v => if Renderable(fc, v) then Some(Canonical(fc, v)) else None,
           (n: nat, h, p) => Canonical(fc, LinkValue(n, h, p)),
           cp => Canonical(fc, CheckpointValue(cp)),
           digest, verifies)
  }

  lemma {:induction false} LinkValueIsHashable(fc: FloatCodec, n: nat, h: ContentHash, p: Option<ContentHash>)
    requires n < U64_LIMIT
    ensures Valid(LinkValue(n, h, p)) && Renderable(fc, LinkValue(n, h, p))
  {
    assert |"sequence"| == 8 && |"event_hash"| == 10 && |"previous_hash"| == 13;
  }

  /** The link text commits to all three of its parts. */
  lemma {:induction false} LinkTextInjective(fc: FloatCodec, m: nat, g: ContentHash, p: Option<ContentHash>,
                                             n: nat, h: ContentHash, q: Option<ContentHash>)
    requires PrintsFloatTokens(fc) && m < U64_LIMIT && n < U64_LIMIT
    requires Canonical(fc, LinkValue(m, g, p)) == Canonical(fc, LinkValue(n, h, q))
    ensures m == n && g == h && p == q
  {
    var v, w := LinkValue(m, g, p), LinkValue(n, h, q);
    LinkValueIsHashable(fc, m, g, p);
    LinkValueIsHashable(fc, n, h, q);
    SameRecords(fc, v.entries, w.entries);
    assert Same(v.entries[0].value, w.entries[0].value) && Same(v.entries[1].value, w.entries[1].value)
           && Same(v.entries[2].value, w.entries[2].value);
    TextInjective(g, h);
    if p.Some? && q.Some? {
      TextInjective(p.value, q.value);
    }
  }

  lemma {:induction false} CheckpointValueIsHashable(fc: FloatCodec, cp: Checkpoint)
    requires cp.sequence < U64_LIMIT
    ensures Valid(CheckpointValue(cp)) && Renderable(fc, CheckpointValue(cp))
  {
    assert |"tenant_id"| == 9 && |"sequence"| == 8 && |"chain_hash"| == 10 && |"signed_at"| == 9 && |"key_id"| == 6;
    assert "tenant_id"[0] != "signed_at"[0];
  }

  /** A signature over one checkpoint's payload is a signature over everything else in it. */
  lemma {:induction false} PayloadInjective(fc: FloatCodec, a: Checkpoint, b: Checkpoint)
    requires PrintsFloatTokens(fc) && a.sequence < U64_LIMIT && b.sequence < U64_LIMIT
    requires Canonical(fc, CheckpointValue(a)) == Canonical(fc, CheckpointValue(b))
    ensures a.(signature := "") == b.(signature := "")
  {
    CheckpointValueIsHashable(fc, a);
    CheckpointValueIsHashable(fc, b);
    SameRecords(fc, CheckpointValue(a).entries, CheckpointValue(b).entries);
    SameCheckpointFields(a, b);
  }

  lemma {:induction false} SameCheckpointFields(a: Checkpoint, b: Checkpoint)
    requires forall i :: 0 <= i < 5 ==> Same(CheckpointValue(a).entries[i].value, CheckpointValue(b).entries[i].value)
    ensures a.(signature := "") == b.(signature := "")
  {
    var es, fs := CheckpointValue(a).entries, CheckpointValue(b).entries;
    assert Same(es[0].value, fs[0].value) && Same(es[1].value, fs[1].value) && Same(es[2].value, fs[2].value)
           && Same(es[3].value, fs[3].value) && Same(es[4].value, fs[4].value);
    TextInjective(a.chainHash, b.chainHash);
  }

  /** Canonical JSON is a committing scheme, whatever the hash and signature functions. */
  lemma {:induction false} CanonicalSchemeCommits(fc: FloatCodec, digest: string -> ContentHash,
                                                  verifies: (PublicKey, string, string) -> bool)
    requires PrintsFloatTokens(fc)
    ensures var c := CanonicalScheme(fc, digest, verifies);
            && LinksCommit(c) && ContentsCommit(c) && PayloadsCommit(c) && PayloadIgnoresSignature(c)
            && forall v :: Renderable(fc, v) <==> c.contentText(v).Some?
  {
    var c := CanonicalScheme(fc, digest, verifies);
    forall m: nat, g, p, n: nat, h, q | m < U64_LIMIT && n < U64_LIMIT && c.linkText(m, g, p) == c.linkText(n, h, q)
      ensures m == n && g == h && p == q
    {
      LinkTextInjective(fc, m, g, p, n, h, q);
    }
    forall v, w | Valid(v) && Valid(w) && c.contentText(v).Some? && c.contentText(v) == c.contentText(w)
      ensures Same(v, w)
    {
      CanonicalDecidesSame(fc, v, w);
    }
    forall a: Checkpoint, b: Checkpoint
      | a.sequence < U64_LIMIT && b.sequence < U64_LIMIT && c.payloadText(a) == c.payloadText(b)
      ensures a.(signature := "") == b.(signature := "")
    {
      PayloadInjective(fc, a, b);
    }
  }
}
