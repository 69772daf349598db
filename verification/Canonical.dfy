/**
 What canonical text promises: it reads back to the value, canonicalizing twice changes
 nothing, and two values share their text exactly when they are the same up to integral
 doubles and the order of object members.
 */
module CanonicalForm {
  import opened Ordering
  import opened Utf16
  import opened Json
  import opened JsonReader
  import opened ReadBack

  // ---- member lists ----

  lemma {:induction false} DistinctKeysSeparate(es: seq<Entry>)
    requires DistinctKeys(es)
    ensures Separates(EntryRank, es) && NoRepeats(es)
  {
    forall x, y | x in es && y in es && EntryRank(x) == EntryRank(y) ensures x == y {
      UnitsInjective(x.key, y.key);
    }
  }

  lemma {:induction false} RearrangedStaysDistinct(es: seq<Entry>, fs: seq<Entry>)
    requires DistinctKeys(es) && multiset(fs) == multiset(es)
    ensures DistinctKeys(fs) && |fs| == |es| && (forall e :: e in fs <==> e in es)
  {
    DistinctKeysSeparate(es);
    assert |fs| == |multiset(fs)| == |multiset(es)| == |es|;
    forall e ensures e in fs <==> e in es { SameMultisetSameMembers(fs, es, e); }
    forall x | x in fs ensures multiset(fs)[x] == 1 { NoRepeatsCounts(es, x); }
    CountsGiveNoRepeats(fs);
    forall i, j | 0 <= i < j < |fs| ensures fs[i].key != fs[j].key {
      assert fs[i] in es && fs[j] in es;
    }
  }

  lemma {:induction false} SortKeepsDistinct(es: seq<Entry>)
    requires DistinctKeys(es)
    ensures var s := SortBy(EntryRank, es);
            DistinctKeys(s) && |s| == |es| && (forall e :: e in s <==> e in es)
  {
    SortByOrders(EntryRank, es);
    RearrangedStaysDistinct(es, SortBy(EntryRank, es));
  }

  // ---- the normal form ----

  /** Every renderable value normalizes to one the reader hands back unchanged. */
  lemma {:induction false} NormalIsReadable(fc: FloatCodec, v: Value)
    requires Valid(v) && Renderable(fc, v)
    ensures Readable(fc, Normal(v)) && Valid(Normal(v)) && Renderable(fc, Normal(v))
    decreases v
  {
    match v
    case Arr(items) =>
      forall i | 0 <= i < |items|
        ensures var x := NormalItems(items)[i]; Readable(fc, x) && Valid(x) && Renderable(fc, x)
      {
        NormalIsReadable(fc, items[i]);
      }
    case Obj(es) =>
      SortKeepsDistinct(NormalEntries(es));
      forall f | f in NormalEntries(es)
        ensures Readable(fc, f.value) && Valid(f.value) && Renderable(fc, f.value)
      {
        var e :| e in es && f == Entry(e.key, Normal(e.value));
        NormalIsReadable(fc, e.value);
      }
    case _ =>
  }

  /** Canonicalizing a value in normal form changes nothing. */
  lemma {:induction false} NormalIsIdempotent(v: Value)
    requires Valid(v)
    ensures Normal(Normal(v)) == Normal(v)
    decreases v
  {
    match v
    case Arr(items) =>
      forall i | 0 <= i < |items| ensures Normal(NormalItems(items)[i]) == NormalItems(items)[i] {
        NormalIsIdempotent(items[i]);
      }
      assert NormalItems(NormalItems(items)) == NormalItems(items);
    case Obj(es) =>
      var sorted := SortBy(EntryRank, NormalEntries(es));
      SortKeepsDistinct(NormalEntries(es));
      forall f | f in sorted ensures Normal(f.value) == f.value {
        var e :| e in es && f == Entry(e.key, Normal(e.value));
        NormalIsIdempotent(e.value);
      }
      assert NormalEntries(sorted) == sorted;
      SortOfOrdered(sorted, NormalEntries(es));
    case _ =>
  }

  lemma {:induction false} SortOfOrdered(sorted: seq<Entry>, es: seq<Entry>)
    requires DistinctKeys(sorted) && sorted == SortBy(EntryRank, es)
    ensures SortBy(EntryRank, sorted) == sorted
  {
    SortByOrders(EntryRank, es);
    SortByOrders(EntryRank, sorted);
    DistinctKeysSeparate(sorted);
    OrderedIsUnique(EntryRank, sorted, SortBy(EntryRank, sorted));
  }

  // ---- sameness ----

  lemma {:induction false} NormalNumberDecidesSame(m: Number, n: Number)
    requires Valid(Num(m)) && Valid(Num(n))
    ensures NormalNumber(m) == NormalNumber(n) <==> SameNumber(m, n)
  {
  }

  /** Values have one normal form exactly when they are the same. */
  lemma {:induction false} NormalDecidesSame(v: Value, w: Value)
    requires Valid(v) && Valid(w)
    ensures Normal(v) == Normal(w) <==> Same(v, w)
    decreases v
  {
    match (v, w)
    case (Num(m), Num(n)) => NormalNumberDecidesSame(m, n);
    case (Arr(xs), Arr(ys)) =>
      forall i | 0 <= i < |xs| && i < |ys| ensures Normal(xs[i]) == Normal(ys[i]) <==> Same(xs[i], ys[i]) {
        NormalDecidesSame(xs[i], ys[i]);
      }
    case (Obj(es), Obj(fs)) =>
      forall i, j | 0 <= i < |es| && 0 <= j < |fs|
        ensures Normal(es[i].value) == Normal(fs[j].value) <==> Same(es[i].value, fs[j].value)
      {
        NormalDecidesSame(es[i].value, fs[j].value);
      }
      SameMeansMatched(es, fs);
      if |es| == |fs| && Matched(es, fs) {
        SameObjectsNormalize(es, fs);
      }
      if Normal(v) == Normal(w) {
        NormalObjectsMatch(es, fs);
      }
    case _ =>
  }

  ghost predicate HasPartner(e: Entry, fs: seq<Entry>) {
    exists j :: 0 <= j < |fs| && e.key == fs[j].key && Normal(e.value) == Normal(fs[j].value)
  }

  /** Whether every member has a partner with the same key and the same normal form. */
  ghost predicate Matched(es: seq<Entry>, fs: seq<Entry>) {
    forall i :: 0 <= i < |es| ==> HasPartner(es[i], fs)
  }

  lemma {:induction false} SameMeansMatched(es: seq<Entry>, fs: seq<Entry>)
    requires forall i, j :: 0 <= i < |es| && 0 <= j < |fs| ==>
               (Normal(es[i].value) == Normal(fs[j].value) <==> Same(es[i].value, fs[j].value))
    ensures SameMembers(es, fs) <==> |es| == |fs| && Matched(es, fs)
  {
    forall i | 0 <= i < |es| ensures HasSame(es[i], fs) <==> HasPartner(es[i], fs) {
    }
  }

  lemma {:induction false} SameObjectsNormalize(es: seq<Entry>, fs: seq<Entry>)
    requires DistinctKeys(es) && DistinctKeys(fs) && |es| == |fs| && Matched(es, fs)
    ensures SortBy(EntryRank, NormalEntries(es)) == SortBy(EntryRank, NormalEntries(fs))
  {
    var ns, ms := NormalEntries(es), NormalEntries(fs);
    DistinctKeysSeparate(ns);
    DistinctKeysSeparate(ms);
    forall x | x in ns ensures x in ms {
      var i :| 0 <= i < |es| && ns[i] == x;
      var j :| 0 <= j < |fs| && es[i].key == fs[j].key && Normal(es[i].value) == Normal(fs[j].value);
      assert ms[j] == x;
    }
    SameMembersSameMultiset(ns, ms);
    SortKeepsDistinct(ns);
    DistinctKeysSeparate(SortBy(EntryRank, ns));
    SortByOrders(EntryRank, ns);
    SortByOrders(EntryRank, ms);
    OrderedIsUnique(EntryRank, SortBy(EntryRank, ns), SortBy(EntryRank, ms));
  }

  lemma {:induction false} NormalObjectsMatch(es: seq<Entry>, fs: seq<Entry>)
    requires SortBy(EntryRank, NormalEntries(es)) == SortBy(EntryRank, NormalEntries(fs))
    ensures |es| == |fs| && Matched(es, fs)
  {
    var ns, ms := NormalEntries(es), NormalEntries(fs);
    SortByOrders(EntryRank, ns);
    SortByOrders(EntryRank, ms);
    assert |ns| == |multiset(ns)| == |multiset(ms)| == |ms|;
    forall i | 0 <= i < |es| ensures HasPartner(es[i], fs) {
      SameMultisetSameMembers(ns, ms, ns[i]);
      var j :| 0 <= j < |ms| && ms[j] == ns[i];
      assert fs[j].key == es[i].key;
    }
  }

  // ---- the theorems ----

  /** Reading canonical text back gives the value in normal form. */
  lemma {:induction false} CanonicalReadsBack(fc: FloatCodec, v: Value)
    requires PrintsFloatTokens(fc) && Valid(v) && Renderable(fc, v)
    ensures Parse(fc, Canonical(fc, v)) == Some(Normal(v))
  {
    NormalIsReadable(fc, v);
    ValueReadsBack(fc, Normal(v), "");
    assert Print(fc, Normal(v)) + "" == Canonical(fc, v);
  }

  /** Canonicalize, read back, canonicalize again: the same text. */
  lemma {:induction false} CanonicalIsIdempotent(fc: FloatCodec, v: Value)
    requires PrintsFloatTokens(fc) && Valid(v) && Renderable(fc, v)
    ensures var back := Parse(fc, Canonical(fc, v));
            && back.Some? && Valid(back.value) && Renderable(fc, back.value) && Same(v, back.value)
            && Canonical(fc, back.value) == Canonical(fc, v)
  {
    CanonicalReadsBack(fc, v);
    NormalIsReadable(fc, v);
    NormalIsIdempotent(v);
    NormalDecidesSame(v, Normal(v));
  }

  /** Two values share their canonical text exactly when they are the same. */
  lemma {:induction false} CanonicalDecidesSame(fc: FloatCodec, v: Value, w: Value)
    requires PrintsFloatTokens(fc)
    requires Valid(v) && Renderable(fc, v) && Valid(w) && Renderable(fc, w)
    ensures Canonical(fc, v) == Canonical(fc, w) <==> Same(v, w)
  {
    NormalDecidesSame(v, w);
    CanonicalReadsBack(fc, v);
    CanonicalReadsBack(fc, w);
  }

  /** Records of one shape with the same text agree member by member. */
  lemma {:induction false} SameRecords(fc: FloatCodec, es: seq<Entry>, fs: seq<Entry>)
    requires PrintsFloatTokens(fc) && Keys(es) == Keys(fs)
    requires Valid(Obj(es)) && Renderable(fc, Obj(es)) && Valid(Obj(fs)) && Renderable(fc, Obj(fs))
    requires Canonical(fc, Obj(es)) == Canonical(fc, Obj(fs))
    ensures |es| == |fs| && forall i :: 0 <= i < |es| ==> Same(es[i].value, fs[i].value)
  {
    CanonicalDecidesSame(fc, Obj(es), Obj(fs));
    assert |es| == |Keys(es)| == |fs|;
    forall i | 0 <= i < |es| ensures Same(es[i].value, fs[i].value) {
      assert HasSame(es[i], fs);
      var j :| 0 <= j < |fs| && es[i].key == fs[j].key && Same(es[i].value, fs[j].value);
      assert Keys(es)[i] == Keys(fs)[i];
      assert fs[i].key == fs[j].key;
    }
  }

  lemma {:induction false} RearrangedNormalizesAlike(es: seq<Entry>, fs: seq<Entry>)
    requires DistinctKeys(es) && multiset(es) == multiset(fs)
    ensures Normal(Obj(es)) == Normal(Obj(fs)) && DistinctKeys(fs)
  {
    RearrangedStaysDistinct(es, fs);
    forall i | 0 <= i < |es| ensures HasPartner(es[i], fs) {
      assert es[i] in fs;
      var j :| 0 <= j < |fs| && fs[j] == es[i];
      assert es[i].key == fs[j].key;
    }
    SameObjectsNormalize(es, fs);
  }

  /** Listing an object's members in another order does not change its text. */
  lemma {:induction false} MemberOrderIsIrrelevant(fc: FloatCodec, es: seq<Entry>, fs: seq<Entry>)
    requires Valid(Obj(es)) && multiset(es) == multiset(fs)
    ensures Canonical(fc, Obj(es)) == Canonical(fc, Obj(fs))
  {
    RearrangedNormalizesAlike(es, fs);
  }
}
