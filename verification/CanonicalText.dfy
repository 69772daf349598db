/** What canonical text looks like, character by character: escapes, blanks, and the order of members. */
module CanonicalText {
  import opened Json
  import opened JsonReader
  import opened ReadBack
  import opened CanonicalForm
  import opened Ordering
  import opened Utf16
  import opened Text

  // ---- escapes ----

  const HEX_DIGITS := "0123456789abcdef"

  /** The seven characters with a short escape, and the letter that stands for each. */
  const SHORT_ESCAPES: map<char, char> :=
    map['\"' := '\"', '\\' := '\\', 8 as char := 'b', 9 as char := 't', 10 as char := 'n', 12 as char := 'f',
        13 as char := 'r']

  /** Each character as it is written inside quotes. */
  lemma {:induction false} EscapesExactly(c: char)
    ensures c in SHORT_ESCAPES ==> EscapeChar(c) == ['\\', SHORT_ESCAPES[c]]
    ensures c !in SHORT_ESCAPES && c as int < 0x20 ==>
              EscapeChar(c) == ['\\', 'u', '0', '0', HEX_DIGITS[c as int / 16], HEX_DIGITS[c as int % 16]]
    ensures c !in SHORT_ESCAPES && c as int >= 0x20 ==> EscapeChar(c) == [c]
  {
    if c as int < 0x20 {
      HexDigits(c as int / 16);
      HexDigits(c as int % 16);
    }
  }

  lemma {:induction false} HexDigits(n: nat)
    requires n < 16
    ensures HexDigit(n) == HEX_DIGITS[n]
  {
  }

  // ---- numbers ----

  /** Only a zero carries the sign flag. */
  predicate Proper(n: Number) {
    n.Float? && n.d.Finite? && n.d.negativeZero ==> n.d.value == 0.0
  }

  /** What a number is worth; an infinity or a not-a-number is worth nothing. */
  function Worth(n: Number): Option<real> {
    match n
    case PosInt(u) => Some(u as real)
    case NegInt(i) => Some(i as real)
    case Float(Finite(value, _)) => Some(value)
    case Float(NonFinite) => None
  }

  /** Rewriting a number keeps its worth. */
  lemma {:induction false} NormalKeepsWorth(n: Number)
    ensures Worth(NormalNumber(n)) == Worth(n)
  {
    if n.Float? && PrintsAsInteger(n.d) {
      assert n.d.value.Floor as real == n.d.value;
    }
  }

  /** Two numbers have one text exactly when they are one number, or are worth the same and within the
   *  integers a double holds exactly. */
  lemma {:induction false} SameNumberExactly(m: Number, n: Number)
    requires Valid(Num(m)) && Valid(Num(n)) && Proper(m) && Proper(n)
    ensures NormalNumber(m) == NormalNumber(n) <==>
              m == n
              || (Worth(m) == Worth(n) && Worth(m).Some?
                  && -9_007_199_254_740_992.0 < Worth(m).value < 9_007_199_254_740_992.0)
  {
    NormalKeepsWorth(m);
    NormalKeepsWorth(n);
    NormalWhenWhole(m);
    NormalWhenWhole(n);
  }

  predicate Counts(x: real, k: int) { x == k as real }

  /** A number is rewritten exactly when it is an integral double below 2^53. */
  lemma {:induction false} NormalWhenWhole(n: Number)
    ensures !NormalNumber(n).Float? <==>
              !n.Float?
              || (n.d.Finite? && (exists k :: Counts(n.d.value, k))
                  && -9_007_199_254_740_992.0 < n.d.value < 9_007_199_254_740_992.0)
    ensures NormalNumber(n).Float? || !n.Float? ==> NormalNumber(n) == n
    ensures NormalNumber(n).NegInt? && n.Float? ==> NormalNumber(n).i < 0
  {
    if n.Float? && n.d.Finite? {
      var floor := n.d.value.Floor;
      if n.d.value == floor as real {
        assert Counts(n.d.value, floor);
      }
    }
  }

  /** The doubles with a text: below 10^16, and either rewritten as integers or printed without an exponent in a
   *  form that reads back. */
  lemma {:induction false} TextExactly(fc: FloatCodec, d: Double)
    ensures Renderable(fc, Num(Float(d))) <==>
              d.Finite? && -10_000_000_000_000_000.0 < d.value < 10_000_000_000_000_000.0
              && (NormalNumber(Float(d)) != Float(d)
                  || (fc.read(fc.format(d)) == Some(d)
                      && forall i :: 0 <= i < |fc.format(d)| ==> fc.format(d)[i] !in {'e', 'E'}))
  {
    NormalWhenWhole(Float(d));
    if HasExponent(fc.format(d)) {
      var i :| 0 <= i < |fc.format(d)| && fc.format(d)[i] in {'e', 'E'};
    }
  }

  // ---- blanks ----

  function Blanks(s: string): nat {
    if s == [] then 0 else (if IsSpace(s[0]) then 1 else 0) + Blanks(s[1..])
  }

  lemma {:induction false} BlanksConcat(s: string, t: string)
    ensures Blanks(s + t) == Blanks(s) + Blanks(t)
  {
    if s == [] {
      assert s + t == t;
    } else {
      BlanksConcat(s[1..], t);
      assert (s + t)[1..] == s[1..] + t;
    }
  }

  /** The spaces in a string; tabs and line ends are written as escapes. */
  function Spaces(s: string): nat {
    if s == [] then 0 else (if s[0] == ' ' then 1 else 0) + Spaces(s[1..])
  }

  /** The spaces in all strings and keys of a value. */
  function SpacesIn(v: Value): nat
    decreases v
  {
    match v
    case Str(s) => Spaces(s)
    case Arr(items) => SpacesInItems(items)
    case Obj(es) => SpacesInEntries(es)
    case _ => 0
  }

  function SpacesInItems(items: seq<Value>): nat
    decreases items
  {
    if items == [] then 0 else SpacesIn(items[0]) + SpacesInItems(items[1..])
  }

  function SpacesInEntries(es: seq<Entry>): nat
    decreases es
  {
    if es == [] then 0 else Spaces(es[0].key) + SpacesIn(es[0].value) + SpacesInEntries(es[1..])
  }

  lemma {:induction false} EscapedBlanks(c: char)
    ensures Blanks(EscapeChar(c)) == if c == ' ' then 1 else 0
  {
    EscapesExactly(c);
    var e := EscapeChar(c);
    if |e| == 1 {
      assert e[1..] == [];
    } else {
      NoBlanks(e);
    }
  }

  lemma {:induction false} NoBlanks(s: string)
    requires forall i :: 0 <= i < |s| ==> !IsSpace(s[i])
    ensures Blanks(s) == 0
  {
    if s != [] {
      NoBlanks(s[1..]);
    }
  }

  lemma {:induction false} StringBlanks(s: string)
    ensures Blanks(PrintString(s)) == Spaces(s)
  {
    EscapeBlanks(s);
    BlanksConcat("\"" + Escape(s), "\"");
    BlanksConcat("\"", Escape(s));
    NoBlanks("\"");
  }

  lemma {:induction false} EscapeBlanks(s: string)
    ensures Blanks(Escape(s)) == Spaces(s)
  {
    if s != [] {
      EscapedBlanks(s[0]);
      EscapeBlanks(s[1..]);
      BlanksConcat(EscapeChar(s[0]), Escape(s[1..]));
    }
  }

  lemma {:induction false} NumberBlanks(fc: FloatCodec, n: Number)
    requires PrintsFloatTokens(fc) && Readable(fc, Num(n))
    ensures Blanks(PrintNumber(fc, n)) == 0
  {
    var s := PrintNumber(fc, n);
    NumberReadsBack(fc, n);
    TokenSpan(s);
    SpanHasNumberChars(s);
    NoBlanks(s);
  }

  lemma {:induction false} SpanHasNumberChars(s: string)
    ensures forall i :: 0 <= i < NumberSpan(s) ==> IsNumberChar(s[i])
  {
    if s != "" && IsNumberChar(s[0]) {
      SpanHasNumberChars(s[1..]);
    }
  }

  /** Canonical text has no blanks but the spaces inside its strings. */
  lemma {:induction false} BlanksAreContent(fc: FloatCodec, v: Value)
    requires PrintsFloatTokens(fc) && Readable(fc, v)
    ensures Blanks(Print(fc, v)) == SpacesIn(v)
    decreases v, 1
  {
    match v
    case Null => NoBlanks("null");
    case Bool(b) => NoBlanks(if b then "true" else "false");
    case Num(n) => NumberBlanks(fc, n);
    case Str(s) => StringBlanks(s);
    case Arr(items) =>
      ItemsBlanks(fc, items);
      Bracketed("[", PrintItems(fc, items), "]");
    case Obj(es) =>
      EntriesBlanks(fc, es);
      Bracketed("{", PrintEntries(fc, es), "}");
  }

  lemma {:induction false} Bracketed(open: string, body: string, close: string)
    requires |open| == |close| == 1 && !IsSpace(open[0]) && !IsSpace(close[0])
    ensures Blanks(open + body + close) == Blanks(body)
  {
    BlanksConcat(open + body, close);
    BlanksConcat(open, body);
    NoBlanks(open);
    NoBlanks(close);
  }

  lemma {:induction false} ItemsBlanks(fc: FloatCodec, items: seq<Value>)
    requires PrintsFloatTokens(fc) && forall x :: x in items ==> Readable(fc, x)
    ensures Blanks(PrintItems(fc, items)) == Blanks(PrintMoreItems(fc, items)) == SpacesInItems(items)
    decreases items, 0
  {
    if items != [] {
      var first, more := Print(fc, items[0]), PrintMoreItems(fc, items[1..]);
      BlanksAreContent(fc, items[0]);
      ItemsBlanks(fc, items[1..]);
      BlanksConcat(first, more);
      BlanksConcat(",", first + more);
      NoBlanks(",");
    }
  }

  lemma {:induction false} EntriesBlanks(fc: FloatCodec, es: seq<Entry>)
    requires PrintsFloatTokens(fc) && forall e :: e in es ==> Readable(fc, e.value)
    ensures Blanks(PrintEntries(fc, es)) == Blanks(PrintMoreEntries(fc, es)) == SpacesInEntries(es)
    decreases es, 0
  {
    if es != [] {
      var key, text := PrintString(es[0].key), Print(fc, es[0].value);
      var first, more := PrintEntry(fc, es[0]), PrintMoreEntries(fc, es[1..]);
      StringBlanks(es[0].key);
      BlanksAreContent(fc, es[0].value);
      EntriesBlanks(fc, es[1..]);
      BlanksConcat(key, ":" + text);
      BlanksConcat(":", text);
      NoBlanks(":");
      BlanksConcat(first, more);
      BlanksConcat(",", first + more);
      NoBlanks(",");
    }
  }

  lemma {:induction false} CanonicalBlanks(fc: FloatCodec, v: Value)
    requires PrintsFloatTokens(fc) && Valid(v) && Renderable(fc, v)
    ensures Blanks(Canonical(fc, v)) == SpacesIn(Normal(v))
  {
    NormalIsReadable(fc, v);
    BlanksAreContent(fc, Normal(v));
  }

  // ---- the order of members ----

  ghost predicate KeysAscend(es: seq<Entry>) {
    forall i, j :: 0 <= i < j < |es| ==> Precedes(Units(es[i].key), Units(es[j].key))
  }

  /** In the normal form of an object each key precedes the next, by UTF-16 code units. */
  lemma {:induction false} NormalKeysAscend(es: seq<Entry>)
    requires DistinctKeys(es)
    ensures KeysAscend(Normal(Obj(es)).entries)
  {
    var sorted := SortBy(EntryRank, NormalEntries(es));
    SortByOrders(EntryRank, NormalEntries(es));
    SortKeepsDistinct(NormalEntries(es));
    forall i, j | 0 <= i < j < |sorted| ensures Precedes(Units(sorted[i].key), Units(sorted[j].key)) {
      assert LexLe(EntryRank(sorted[i]), EntryRank(sorted[j]));
      LexExactly(Units(sorted[i].key), Units(sorted[j].key));
      if Units(sorted[i].key) == Units(sorted[j].key) {
        UnitsInjective(sorted[i].key, sorted[j].key);
      }
    }
  }

  /** Where all characters so far take one unit, the units are their codes. */
  lemma {:induction false} NarrowUnits(s: string, k: nat)
    requires k < |s| && forall i :: 0 <= i <= k ==> s[i] as int < 0x1_0000
    ensures k < |Units(s)| && Units(s)[k] == s[k] as int
  {
    assert CharUnits(s[0]) == [s[0] as int];
    if k > 0 {
      NarrowUnits(s[1..], k - 1);
    }
  }

  /** Listed in ascending order, the members of an object are written in that order. */
  lemma {:induction false} AscendingIsNormal(es: seq<Entry>, fs: seq<Entry>)
    requires DistinctKeys(es) && multiset(es) == multiset(fs) && KeysAscend(fs)
    ensures Normal(Obj(es)) == Obj(NormalEntries(fs))
  {
    RearrangedNormalizesAlike(es, fs);
    var ns := NormalEntries(fs);
    forall i, j | 0 <= i < j < |ns| ensures LexLe(EntryRank(ns[i]), EntryRank(ns[j])) {
      LexExactly(Units(fs[i].key), Units(fs[j].key));
    }
    DistinctKeysSeparate(ns);
    SortByOrders(EntryRank, ns);
    OrderedIsUnique(EntryRank, ns, SortBy(EntryRank, ns));
  }
}
