/**
 The canonicalizer itself: one pass over a value that appends to a shared text buffer,
 sorting each object's keys as it meets it. Proved against "normalize, then print".
 */
module CanonicalWriter {
  import opened Ordering
  import opened Utf16
  import opened Json
  import opened JsonReader
  import opened CanonicalForm

  class TextBuffer {
    var text: string

    constructor ()
      ensures text == ""
    {
      text := "";
    }

    method Push(s: string)
      modifies this
      ensures text == old(text) + s
    {
      text := text + s;
    }
  }

  lemma {:induction false} EscapeSnoc(s: string, c: char)
    ensures Escape(s + [c]) == Escape(s) + EscapeChar(c)
  {
    if s == "" {
      assert s + [c] == [c] && [c][1..] == "";
    } else {
      EscapeSnoc(s[1..], c);
      assert (s + [c])[0] == s[0] && (s + [c])[1..] == s[1..] + [c];
    }
  }

  lemma {:induction false} EscapeStep(before: string, s: string, i: nat)
    requires i < |s|
    ensures before + Escape(s[..i]) + EscapeChar(s[i]) == before + Escape(s[..i + 1])
  {
    EscapeSnoc(s[..i], s[i]);
    assert s[..i + 1] == s[..i] + [s[i]];
  }

  lemma {:induction false} Quoted(before: string, s: string)
    ensures before + "\"" + Escape(s[..|s|]) + "\"" == before + PrintString(s)
    ensures before + "\"" + Escape(s[..0]) == before + "\""
  {
    assert s[..|s|] == s;
  }

  method WriteChar(c: char, out: TextBuffer)
    modifies out
    ensures out.text == old(out.text) + EscapeChar(c)
  {
    if c == '"' {
      out.Push("\\\"");
    } else if c == '\\' {
      out.Push("\\\\");
    } else if c == 0x08 as char {
      out.Push("\\b");
    } else if c == 0x09 as char {
      out.Push("\\t");
    } else if c == 0x0a as char {
      out.Push("\\n");
    } else if c == 0x0c as char {
      out.Push("\\f");
    } else if c == 0x0d as char {
      out.Push("\\r");
    } else if c as int < 0x20 {
      out.Push("\\u00" + [HexDigit(c as int / 16), HexDigit(c as int % 16)]);
    } else {
      out.Push([c]);
    }
  }

  method WriteString(s: string, out: TextBuffer)
    modifies out
    ensures out.text == old(out.text) + PrintString(s)
  {
    Quoted(out.text, s);
    out.Push("\"");
    ghost var before := out.text;
    for i := 0 to |s|
      invariant out.text == before + Escape(s[..i])
    {
      EscapeStep(before, s, i);
      WriteChar(s[i], out);
    }
    out.Push("\"");
  }

  /** Write a number, or refuse it and leave the buffer alone. */
  method WriteNumber(fc: FloatCodec, n: Number, out: TextBuffer) returns (ok: bool)
    modifies out
    ensures ok <==> RenderableNumber(fc, n)
    ensures out.text == old(out.text) + if ok then PrintNumber(fc, NormalNumber(n)) else ""
  {
    if n.PosInt? {
      out.Push(PrintInteger(n.u));
      return true;
    }
    if n.NegInt? {
      out.Push(PrintInteger(n.i));
      return true;
    }
    var d := n.d;
    if d.NonFinite? || Abs(d.value) >= MAX_CANONICAL_MAGNITUDE {
      return false;
    }
    if d.value == d.value.Floor as real && Abs(d.value) < MAX_EXACT_INTEGER {
      out.Push(PrintInteger(d.value.Floor));
      return true;
    }
    var rendered := fc.format(d);
    if HasExponent(rendered) || fc.read(rendered) != Some(d) {
      return false;
    }
    out.Push(rendered);
    return true;
  }

  // ---- joining with commas ----

  lemma {:induction false} MoreItemsSnoc(fc: FloatCodec, xs: seq<Value>, x: Value)
    ensures PrintMoreItems(fc, xs + [x]) == PrintMoreItems(fc, xs) + ("," + Print(fc, x))
  {
    if xs == [] {
      assert xs + [x] == [x] && [x][1..] == [];
    } else {
      MoreItemsSnoc(fc, xs[1..], x);
      assert (xs + [x])[0] == xs[0] && (xs + [x])[1..] == xs[1..] + [x];
    }
  }

  lemma {:induction false} ItemsSnoc(fc: FloatCodec, xs: seq<Value>, x: Value)
    ensures PrintItems(fc, xs + [x]) == PrintItems(fc, xs) + (if xs == [] then "" else ",") + Print(fc, x)
  {
    if xs == [] {
      assert xs + [x] == [x] && [x][1..] == [];
    } else {
      MoreItemsSnoc(fc, xs[1..], x);
      assert (xs + [x])[0] == xs[0] && (xs + [x])[1..] == xs[1..] + [x];
    }
  }

  lemma {:induction false} MoreEntriesSnoc(fc: FloatCodec, es: seq<Entry>, e: Entry)
    ensures PrintMoreEntries(fc, es + [e]) == PrintMoreEntries(fc, es) + ("," + PrintEntry(fc, e))
  {
    if es == [] {
      assert es + [e] == [e] && [e][1..] == [];
    } else {
      MoreEntriesSnoc(fc, es[1..], e);
      assert (es + [e])[0] == es[0] && (es + [e])[1..] == es[1..] + [e];
    }
  }

  lemma {:induction false} EntriesSnoc(fc: FloatCodec, es: seq<Entry>, e: Entry)
    ensures PrintEntries(fc, es + [e]) ==
            PrintEntries(fc, es) + (if es == [] then "" else ",") + PrintEntry(fc, e)
  {
    if es == [] {
      assert es + [e] == [e] && [e][1..] == [];
    } else {
      MoreEntriesSnoc(fc, es[1..], e);
      assert (es + [e])[0] == es[0] && (es + [e])[1..] == es[1..] + [e];
    }
  }

  // ---- sorted keys and sorted members ----

  lemma {:induction false} InsertKeys(e: Entry, es: seq<Entry>)
    ensures Keys(Insert(EntryRank, e, es)) == Insert(Units, e.key, Keys(es))
  {
    if es != [] && !LexLe(Units(e.key), Units(es[0].key)) {
      InsertKeys(e, es[1..]);
      assert Keys(es)[1..] == Keys(es[1..]);
    }
  }

  lemma {:induction false} SortKeysOf(es: seq<Entry>)
    ensures Keys(SortBy(EntryRank, es)) == SortBy(Units, Keys(es))
  {
    if es != [] {
      SortKeysOf(es[1..]);
      InsertKeys(es[0], SortBy(EntryRank, es[1..]));
      assert Keys(es)[1..] == Keys(es[1..]);
    }
  }

  lemma {:induction false} GetFinds(es: seq<Entry>, e: Entry)
    requires DistinctKeys(es) && e in es
    ensures Get(es, e.key) == Some(e.value)
  {
    if es[0] != e {
      assert e in es[1..];
      GetFinds(es[1..], e);
      var i :| 0 <= i < |es[1..]| && es[1..][i] == e;
      assert es[i + 1] == e;
    }
  }

  lemma {:induction false} SortedLengths(es: seq<Entry>)
    ensures |SortBy(Units, Keys(es))| == |SortBy(EntryRank, NormalEntries(es))| == |es|
  {
    var keys, sorted := SortBy(Units, Keys(es)), SortBy(EntryRank, NormalEntries(es));
    SortByOrders(Units, Keys(es));
    SortByOrders(EntryRank, NormalEntries(es));
    assert |keys| == |multiset(keys)| && |sorted| == |multiset(sorted)|;
  }

  /** Whether looking the key up finds the value that, in normal form, the member holds. */
  ghost predicate Looks(es: seq<Entry>, key: string, member: Entry) {
    var found := Get(es, key);
    found.Some? && Entry(key, found.value) in es && member == Entry(key, Normal(found.value))
  }

  /** The k-th sorted key looks up the value of the k-th sorted member. */
  lemma {:induction false} SortedLookup(es: seq<Entry>, k: nat)
    requires Valid(Obj(es)) && k < |es|
    requires |SortBy(Units, Keys(es))| == |SortBy(EntryRank, NormalEntries(es))| == |es|
    ensures Looks(es, SortBy(Units, Keys(es))[k], SortBy(EntryRank, NormalEntries(es))[k])
  {
    var ns := NormalEntries(es);
    SortKeysOf(ns);
    assert Keys(ns) == Keys(es);
    SortKeepsDistinct(ns);
    var f := SortBy(EntryRank, ns)[k];
    assert f in ns;
    var e :| e in es && f == Entry(e.key, Normal(e.value));
    GetFinds(es, e);
    assert Entry(e.key, e.value) == e;
  }

  ghost predicate RenderableUnder(fc: FloatCodec, es: seq<Entry>, key: string) {
    Get(es, key).Some? ==> Renderable(fc, Get(es, key).value)
  }

  /** Every member is found under one of the sorted keys. */
  lemma {:induction false} AllRenderable(fc: FloatCodec, es: seq<Entry>)
    requires DistinctKeys(es)
    requires forall k :: 0 <= k < |SortBy(Units, Keys(es))| ==> RenderableUnder(fc, es, SortBy(Units, Keys(es))[k])
    ensures Renderable(fc, Obj(es))
  {
    var sorted := SortBy(Units, Keys(es));
    SortByOrders(Units, Keys(es));
    forall e | e in es ensures Renderable(fc, e.value) {
      var i :| 0 <= i < |es| && es[i] == e;
      assert Keys(es)[i] == e.key;
      SameMultisetSameMembers(sorted, Keys(es), e.key);
      var k :| 0 <= k < |sorted| && sorted[k] == e.key;
      assert RenderableUnder(fc, es, sorted[k]);
      GetFinds(es, e);
    }
  }

  // ---- values ----

  /** Append the canonical text of a value; fail exactly when a number in it has none. */
  method WriteValue(fc: FloatCodec, v: Value, out: TextBuffer) returns (ok: bool)
    requires Valid(v)
    modifies out
    ensures ok <==> Renderable(fc, v)
    ensures ok ==> out.text == old(out.text) + Canonical(fc, v)
    decreases v, 0
  {
    match v
    case Null => out.Push("null"); return true;
    case Bool(b) => out.Push(if b then "true" else "false"); return true;
    case Num(n) => ok := WriteNumber(fc, n, out);
    case Str(s) => WriteString(s, out); return true;
    case Arr(items) => ok := WriteArray(fc, items, out);
    case Obj(es) => ok := WriteObject(fc, es, out);
  }

  lemma {:induction false} ItemStep(fc: FloatCodec, before: string, xs: seq<Value>, i: nat)
    requires i < |xs|
    ensures before + PrintItems(fc, xs[..i]) + (if i > 0 then "," else "") + Print(fc, xs[i])
         == before + PrintItems(fc, xs[..i + 1])
  {
    ItemsSnoc(fc, xs[..i], xs[i]);
    assert xs[..i + 1] == xs[..i] + [xs[i]];
  }

  lemma {:induction false} Bracketed(fc: FloatCodec, before: string, xs: seq<Value>)
    ensures before + "[" + PrintItems(fc, xs[..|xs|]) + "]" == before + Print(fc, Arr(xs))
    ensures before + "[" + PrintItems(fc, xs[..0]) == before + "["
  {
    assert xs[..|xs|] == xs;
  }

  method WriteArray(fc: FloatCodec, items: seq<Value>, out: TextBuffer) returns (ok: bool)
    requires Valid(Arr(items))
    modifies out
    ensures ok <==> Renderable(fc, Arr(items))
    ensures ok ==> out.text == old(out.text) + Canonical(fc, Arr(items))
    decreases items
  {
    ghost var normal := NormalItems(items);
    Bracketed(fc, out.text, normal);
    out.Push("[");
    ghost var before := out.text;
    for i := 0 to |items|
      invariant out.text == before + PrintItems(fc, normal[..i])
      invariant forall k :: 0 <= k < i ==> Renderable(fc, items[k])
    {
      ok := WriteItem(fc, items[i], i > 0, out);
      if !ok {
        return;
      }
      ItemStep(fc, before, normal, i);
    }
    out.Push("]");
    return true;
  }

  /** One array item, behind a comma unless it is the first. */
  method WriteItem(fc: FloatCodec, item: Value, comma: bool, out: TextBuffer) returns (ok: bool)
    requires Valid(item)
    modifies out
    ensures ok <==> Renderable(fc, item)
    ensures ok ==> out.text == old(out.text) + (if comma then "," else "") + Canonical(fc, item)
    decreases item, 1
  {
    if comma {
      out.Push(",");
    }
    ok := WriteValue(fc, item, out);
  }

  lemma {:induction false} EntryStep(fc: FloatCodec, before: string, es: seq<Entry>, i: nat)
    requires i < |es|
    ensures before + PrintEntries(fc, es[..i]) + (if i > 0 then "," else "") + PrintEntry(fc, es[i])
         == before + PrintEntries(fc, es[..i + 1])
  {
    EntriesSnoc(fc, es[..i], es[i]);
    assert es[..i + 1] == es[..i] + [es[i]];
  }

  lemma {:induction false} Braced(fc: FloatCodec, before: string, es: seq<Entry>)
    ensures before + "{" + PrintEntries(fc, es[..|es|]) + "}" == before + Print(fc, Obj(es))
    ensures before + "{" + PrintEntries(fc, es[..0]) == before + "{"
  {
    assert es[..|es|] == es;
  }

  method WriteObject(fc: FloatCodec, es: seq<Entry>, out: TextBuffer) returns (ok: bool)
    requires Valid(Obj(es))
    modifies out
    ensures ok <==> Renderable(fc, Obj(es))
    ensures ok ==> out.text == old(out.text) + Canonical(fc, Obj(es))
    decreases es
  {
    var keys := SortBy(Units, Keys(es));
    ghost var sorted := SortBy(EntryRank, NormalEntries(es));
    SortedLengths(es);
    forall k | 0 <= k < |keys| ensures Looks(es, keys[k], sorted[k]) {
      SortedLookup(es, k);
    }
    Braced(fc, out.text, sorted);
    out.Push("{");
    ok := WriteEntries(fc, es, keys, sorted, out);
    if ok {
      AllRenderable(fc, es);
      out.Push("}");
    }
  }

  ghost predicate AllLook(es: seq<Entry>, keys: seq<string>, members: seq<Entry>) {
    |keys| == |members| && forall k :: 0 <= k < |keys| ==> Looks(es, keys[k], members[k])
  }

  ghost predicate AllRenderableUnder(fc: FloatCodec, es: seq<Entry>, keys: seq<string>, n: nat)
    requires n <= |keys|
  {
    forall k :: 0 <= k < n ==> RenderableUnder(fc, es, keys[k])
  }

  /** Look each key up in turn and write its member. */
  method WriteEntries(fc: FloatCodec, es: seq<Entry>, keys: seq<string>, ghost sorted: seq<Entry>, out: TextBuffer)
    returns (ok: bool)
    requires Valid(Obj(es))
    requires AllLook(es, keys, sorted)
    modifies out
    ensures ok ==> AllRenderableUnder(fc, es, keys, |keys|)
    ensures !ok ==> !Renderable(fc, Obj(es))
    ensures ok ==> out.text == old(out.text) + PrintEntries(fc, sorted[..|sorted|])
    decreases es, 1
  {
    ghost var before := out.text;
    for i := 0 to |keys|
      invariant out.text == before + PrintEntries(fc, sorted[..i])
      invariant AllRenderableUnder(fc, es, keys, i)
    {
      assert Looks(es, keys[i], sorted[i]);
      ok := WriteKeyed(fc, es, keys[i], sorted[i], i > 0, out);
      if !ok {
        return;
      }
      EntryStep(fc, before, sorted, i);
    }
    return true;
  }

  /** Look one key up and write its member. */
  method WriteKeyed(fc: FloatCodec, es: seq<Entry>, key: string, ghost member: Entry, comma: bool, out: TextBuffer)
    returns (ok: bool)
    requires Valid(Obj(es)) && Looks(es, key, member)
    modifies out
    ensures ok ==> RenderableUnder(fc, es, key)
    ensures !ok ==> !Renderable(fc, Obj(es))
    ensures ok ==> out.text == old(out.text) + (if comma then "," else "") + PrintEntry(fc, member)
    decreases es, 0
  {
    var entry := Get(es, key);
    assert Entry(key, entry.value) in es;
    ok := WriteEntry(fc, key, entry.value, comma, out);
  }

  lemma {:induction false} KeyedText(before: string, key: string, value: string)
    ensures before + key + ":" + value == before + (key + (":" + value))
  {
  }

  /** One object member, behind a comma unless it is the first. */
  method WriteEntry(fc: FloatCodec, key: string, value: Value, comma: bool, out: TextBuffer) returns (ok: bool)
    requires Valid(value)
    modifies out
    ensures ok <==> Renderable(fc, value)
    ensures ok ==> out.text == old(out.text) + (if comma then "," else "") + PrintEntry(fc, Entry(key, Normal(value)))
    decreases value, 1
  {
    ghost var before := out.text + if comma then "," else "";
    if comma {
      out.Push(",");
    }
    assert out.text == before;
    WriteString(key, out);
    out.Push(":");
    ok := WriteValue(fc, value, out);
    if ok {
      assert out.text == before + PrintString(key) + ":" + Canonical(fc, value);
      KeyedText(before, PrintString(key), Canonical(fc, value));
    }
  }

  /** The canonical text of a value, or nothing when a number in it cannot be rendered. */
  method Canonicalize(fc: FloatCodec, v: Value) returns (r: Option<string>)
    requires Valid(v)
    ensures r.Some? <==> Renderable(fc, v)
    ensures r.Some? ==> r.value == Canonical(fc, v)
  {
    var out := new TextBuffer();
    var ok := WriteValue(fc, v, out);
    assert "" + out.text == out.text;
    return if ok then Some(out.text) else None;
  }
}
