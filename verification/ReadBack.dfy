/**
 Reading printed text back: the reader inverts the printer on every value whose numbers are
 in normal form, whatever follows the text in the document.
 */
module ReadBack {
  import opened Json
  import opened JsonReader

  /** The platform prints every finite double as a JSON number with a fraction or an exponent. */
  ghost predicate PrintsFloatTokens(fc: FloatCodec) {
    forall d: Double :: d.Finite? ==> IsNumberToken(fc.format(d)) && !IsIntegerToken(fc.format(d))
  }

  /** A value that printing and reading leaves exactly as it is. */
  ghost predicate Readable(fc: FloatCodec, v: Value) {
    match v
    case Num(n) => Valid(v) && RenderableNumber(fc, n) && NormalNumber(n) == n
    case Arr(items) => forall x :: x in items ==> Readable(fc, x)
    case Obj(es) => DistinctKeys(es) && forall e :: e in es ==> Readable(fc, e.value)
    case _ => true
  }

  /** What may follow a value: the end of the text, or the punctuation of its container. */
  predicate Ends(rest: string) {
    rest == "" || rest[0] == ',' || rest[0] == ']' || rest[0] == '}'
  }

  // ---- numbers ----

  lemma {:induction false} DigitSpanConcat(s: string, t: string)
    requires DigitSpan(s) == |s|
    ensures DigitSpan(s + t) == |s| + DigitSpan(t)
  {
    if s == "" {
      assert s + t == t;
    } else {
      assert (s + t)[0] == s[0] && (s + t)[1..] == s[1..] + t;
      DigitSpanConcat(s[1..], t);
    }
  }

  lemma {:induction false} DecimalReadsBack(n: nat)
    ensures var s := Decimal(n);
            DigitSpan(s) == |s| && DigitsValue(s) == n && (|s| == 1 || s[0] != '0') && IsDigit(s[0])
            && (n > 0 ==> s[0] != '0')
  {
    var s := Decimal(n);
    if n < 10 {
      assert s[1..] == "" && s[..0] == "";
      assert DigitSpan(s) == 1;
      assert DigitsValue(s) == DigitsValue(s[..0]) * 10 + n;
    } else {
      DecimalReadsBack(n / 10);
      var front, last := Decimal(n / 10), [Digit(n % 10)];
      assert last[1..] == "" && DigitSpan(last) == 1;
      DigitSpanConcat(front, last);
      assert s == front + last;
      assert s[..|s| - 1] == front;
    }
  }

  lemma {:induction false} NumberSpanOfDigits(s: string, t: string)
    requires DigitSpan(s) == |s|
    ensures NumberSpan(s + t) == |s| + NumberSpan(t)
  {
    if s == "" {
      assert s + t == t;
    } else {
      assert (s + t)[0] == s[0] && (s + t)[1..] == s[1..] + t;
      NumberSpanOfDigits(s[1..], t);
    }
  }

  lemma {:induction false} NumberSpanStep(s: string)
    requires s != "" && IsNumberChar(s[0])
    ensures NumberSpan(s) == 1 + NumberSpan(s[1..])
  {
  }

  lemma {:induction false} DigitPrefix(s: string)
    ensures DigitSpan(s[..DigitSpan(s)]) == DigitSpan(s)
  {
    if s != "" && IsDigit(s[0]) {
      DigitPrefix(s[1..]);
      assert s[..DigitSpan(s)][1..] == s[1..][..DigitSpan(s[1..])];
    }
  }

  /** Skipping leading digits leaves the number span of what follows. */
  lemma {:induction false} NumberSpanAfterDigits(s: string)
    ensures NumberSpan(s) == DigitSpan(s) + NumberSpan(s[DigitSpan(s)..])
  {
    DigitPrefix(s);
    NumberSpanOfDigits(s[..DigitSpan(s)], s[DigitSpan(s)..]);
    assert s == s[..DigitSpan(s)] + s[DigitSpan(s)..];
  }

  lemma {:induction false} ExponentSpan(s: string)
    requires IsExponent(s)
    ensures NumberSpan(s) == |s|
  {
    if s != "" {
      NumberSpanStep(s);
      if |s| > 1 && (s[1] == '+' || s[1] == '-') {
        NumberSpanStep(s[1..]);
        assert s[1..][1..] == s[2..];
        NumberSpanAfterDigits(s[2..]);
      } else {
        NumberSpanAfterDigits(s[1..]);
      }
    }
  }

  lemma {:induction false} FractionSpan(s: string)
    requires IsFractionAndExponent(s)
    ensures NumberSpan(s) == |s|
  {
    if s != "" && s[0] == '.' {
      var n := DigitSpan(s[1..]);
      NumberSpanStep(s);
      NumberSpanAfterDigits(s[1..]);
      assert s[1..][n..] == s[1 + n..];
      ExponentSpan(s[1 + n..]);
    } else {
      ExponentSpan(s);
    }
  }

  /** A number token consists of number characters. */
  lemma {:induction false} TokenSpan(s: string)
    requires IsNumberToken(s)
    ensures s != "" && NumberSpan(s) == |s| && (IsDigit(s[0]) || s[0] == '-')
  {
    var t := if s != "" && s[0] == '-' then s[1..] else s;
    NumberSpanAfterDigits(t);
    FractionSpan(t[DigitSpan(t)..]);
    assert t != "" && IsDigit(t[0]);
    if s[0] == '-' {
      NumberSpanStep(s);
    }
  }

  lemma {:induction false} NumberSpanStops(s: string, rest: string)
    requires NumberSpan(s) == |s| && Ends(rest)
    ensures NumberSpan(s + rest) == |s|
  {
    if s == "" {
      assert s + rest == rest;
    } else {
      assert (s + rest)[0] == s[0] && (s + rest)[1..] == s[1..] + rest;
      NumberSpanStops(s[1..], rest);
    }
  }

  lemma {:induction false} IntegerIsToken(i: int)
    ensures var s := PrintInteger(i);
            && IsNumberToken(s) && IsIntegerToken(s)
            && (s[0] == '-' <==> i < 0)
            && (if i < 0 then DigitsValue(s[1..]) == -i else DigitsValue(s) == i)
  {
    var s := PrintInteger(i);
    if 0 <= i {
      DecimalReadsBack(i);
      assert s[DigitSpan(s)..] == "";
    } else {
      DecimalReadsBack(-i);
      assert s[1..] == Decimal(-i);
      assert s[1..][DigitSpan(s[1..])..] == "";
    }
  }

  /** A printed number is one token, and the token denotes the number. */
  lemma {:induction false} NumberReadsBack(fc: FloatCodec, n: Number)
    requires PrintsFloatTokens(fc) && Readable(fc, Num(n))
    ensures IsNumberToken(PrintNumber(fc, n))
    ensures NumberOfToken(fc, PrintNumber(fc, n)) == Some(n)
  {
    match n
    case PosInt(u) => IntegerIsToken(u);
    case NegInt(i) => IntegerIsToken(i);
    case Float(d) =>
      assert IsNumberToken(fc.format(d));
  }

  // ---- strings ----

  /** Reading past one escaped character recovers it. */
  lemma {:induction false} CharReadsBack(c: char, rest: string)
    ensures ReadString(EscapeChar(c) + rest) ==
            (match ReadString(rest) case Fail => Fail case Ok(t, more) => Ok([c] + t, more))
  {
    var e := EscapeChar(c);
    var s := e + rest;
    assert s[0] == e[0];
    if |e| == 1 {
      assert s[1..] == rest;
    } else if |e| == 2 {
      assert s[1] == e[1];
      assert s[1..][1..] == rest;
      assert ReadEscape(s[1..]) == Ok(c, rest);
    } else {
      var hex := "00" + [HexDigit(c as int / 16), HexDigit(c as int % 16)] + rest;
      assert s[1] == 'u';
      assert s[1..][1..] == hex;
      assert ReadEscape(s[1..]) == Ok(c, rest);
    }
  }

  lemma {:induction false} StringReadsBack(s: string, rest: string)
    ensures ReadString(Escape(s) + "\"" + rest) == Ok(s, rest)
  {
    if s == "" {
      assert Escape(s) + "\"" + rest == "\"" + rest;
      assert ("\"" + rest)[1..] == rest;
    } else {
      var tail := Escape(s[1..]) + "\"" + rest;
      assert Escape(s) + "\"" + rest == EscapeChar(s[0]) + tail;
      CharReadsBack(s[0], tail);
      StringReadsBack(s[1..], rest);
      assert [s[0]] + s[1..] == s;
    }
  }

  lemma {:induction false} QuotedReadsBack(s: string, rest: string)
    ensures var t := PrintString(s) + rest; t != "" && t[0] == '"' && ReadString(t[1..]) == Ok(s, rest)
  {
    var t := PrintString(s) + rest;
    assert t[1..] == Escape(s) + "\"" + rest;
    StringReadsBack(s, rest);
  }

  // ---- values ----

  lemma {:induction false} NumberValueReadsBack(fc: FloatCodec, n: Number, rest: string)
    requires PrintsFloatTokens(fc) && Readable(fc, Num(n)) && Ends(rest)
    ensures ReadValue(fc, Print(fc, Num(n)) + rest) == Ok(Num(n), rest)
  {
    var tok := PrintNumber(fc, n);
    NumberReadsBack(fc, n);
    TokenSpan(tok);
    TokenReads(fc, tok, n, rest);
    NumberValueReads(fc, tok + rest, Ok(Num(n), rest));
  }

  lemma {:induction false} TokenReads(fc: FloatCodec, tok: string, n: Number, rest: string)
    requires tok != "" && NumberSpan(tok) == |tok| && NumberOfToken(fc, tok) == Some(n) && Ends(rest)
    ensures ReadNumber(fc, tok + rest) == Ok(Num(n), rest)
  {
    var s := tok + rest;
    NumberSpanStops(tok, rest);
    assert s[..|tok|] == tok && s[|tok|..] == rest;
  }

  lemma {:induction false} NumberValueReads(fc: FloatCodec, s: string, r: JsonReader.Read<Value>)
    requires s != "" && (s[0] == '-' || '0' <= s[0] <= '9') && ReadNumber(fc, s) == r
    ensures ReadValue(fc, s) == r
  {
  }

  lemma {:induction false} LiteralReadsBack(fc: FloatCodec, v: Value, rest: string)
    requires v.Null? || v.Bool?
    ensures ReadValue(fc, Print(fc, v) + rest) == Ok(v, rest)
  {
    var s := Print(fc, v) + rest;
    assert s[|Print(fc, v)|..] == rest;
  }

  /** Brackets around items that read back make an array that reads back. */
  lemma {:induction false} ArrayReads(fc: FloatCodec, s: string, items: seq<Value>, rest: string)
    requires s != "" && s[0] == '['
    requires if items == [] then s[1..] == "]" + rest
             else ReadItems(fc, s[1..]) == Ok(items, rest) && StartsItself(s[1..])
    ensures ReadValue(fc, s) == Ok(Arr(items), rest)
  {
    assert items == [] ==> s[1..][1..] == rest;
    assert ReadArray(fc, s[1..]) == Ok(Arr(items), rest);
  }

  /** Braces around members that read back make an object that reads back. */
  lemma {:induction false} ObjectReads(fc: FloatCodec, s: string, es: seq<Entry>, rest: string)
    requires s != "" && s[0] == '{'
    requires if es == [] then s[1..] == "}" + rest
             else ReadEntries(fc, s[1..]) == Ok(es, rest) && StartsItself(s[1..])
    ensures ReadValue(fc, s) == Ok(Obj(es), rest)
  {
    assert es == [] ==> s[1..][1..] == rest;
    assert ReadObject(fc, s[1..]) == Ok(Obj(es), rest);
  }

  lemma {:induction false} BracketedText(open: string, body: string, close: string, rest: string)
    requires |open| == 1
    ensures var s := open + body + close + rest; s != "" && s[0] == open[0] && s[1..] == body + (close + rest)
    ensures body == "" ==> body + (close + rest) == close + rest
  {
  }

  /** A first member's text, then what follows it. */
  lemma {:induction false} FirstEntryText(fc: FloatCodec, es: seq<Entry>, rest: string)
    requires es != []
    ensures var after := PrintMoreEntries(fc, es[1..]) + ("}" + rest);
            && PrintEntries(fc, es) + ("}" + rest)
               == PrintString(es[0].key) + (":" + (Print(fc, es[0].value) + after))
            && (PrintEntries(fc, es) + ("}" + rest))[0] == '"'
            && (es[1..] == [] ==> after == "}" + rest)
            && (es[1..] != [] ==> after != "" && after[0] == ','
                                  && after[1..] == PrintEntries(fc, es[1..]) + ("}" + rest))
  {
    var k, v, more := PrintString(es[0].key), Print(fc, es[0].value), PrintMoreEntries(fc, es[1..]);
    assert k + (":" + v) + more + ("}" + rest) == k + (":" + (v + (more + ("}" + rest))));
  }

  /** Text that starts with neither whitespace nor a closing bracket. */
  predicate StartsItself(s: string) {
    s != "" && !IsSpace(s[0]) && s[0] != ']' && s[0] != '}'
  }

  lemma {:induction false} StringValueReadsBack(fc: FloatCodec, str: string, rest: string)
    ensures ReadValue(fc, Print(fc, Str(str)) + rest) == Ok(Str(str), rest)
  {
    QuotedReadsBack(str, rest);
  }

  /** The reader inverts the printer, with any container punctuation behind the value. */
  lemma {:induction false} ValueReadsBack(fc: FloatCodec, v: Value, rest: string)
    requires PrintsFloatTokens(fc) && Readable(fc, v) && Ends(rest)
    ensures ReadValue(fc, Print(fc, v) + rest) == Ok(v, rest)
    decreases v
  {
    match v
    case Null => LiteralReadsBack(fc, v, rest);
    case Bool(_) => LiteralReadsBack(fc, v, rest);
    case Num(n) => NumberValueReadsBack(fc, n, rest);
    case Str(str) => StringValueReadsBack(fc, str, rest);
    case Arr(items) =>
      if items != [] {
        ItemsReadBack(fc, items, rest);
      }
      BracketedText("[", PrintItems(fc, items), "]", rest);
      ArrayReads(fc, Print(fc, v) + rest, items, rest);
    case Obj(es) =>
      if es != [] {
        EntriesReadBack(fc, es, rest);
      }
      BracketedText("{", PrintEntries(fc, es), "}", rest);
      ObjectReads(fc, Print(fc, v) + rest, es, rest);
  }

  /** No value starts like whitespace or a closing bracket. */
  lemma {:induction false} PrintStarts(fc: FloatCodec, v: Value)
    requires PrintsFloatTokens(fc) && Readable(fc, v)
    ensures StartsItself(Print(fc, v))
  {
    if v.Num? {
      NumberReadsBack(fc, v.n);
      TokenSpan(PrintNumber(fc, v.n));
    }
  }

  /** One more item in front of items that read back. */
  lemma {:induction false} ConsItemReads(fc: FloatCodec, s: string, after: string, head: Value,
                                         tail: seq<Value>, rest: string)
    requires ReadValue(fc, s) == Ok(head, after)
    requires if tail == [] then after == "]" + rest
             else after != "" && after[0] == ',' && ReadItems(fc, after[1..]) == Ok(tail, rest)
    ensures ReadItems(fc, s) == Ok([head] + tail, rest)
  {
    if tail == [] {
      assert after[1..] == rest && [head] + tail == [head];
    }
  }

  lemma {:induction false} ItemsReadBack(fc: FloatCodec, items: seq<Value>, rest: string)
    requires PrintsFloatTokens(fc) && items != [] && forall x :: x in items ==> Readable(fc, x)
    ensures var s := PrintItems(fc, items) + ("]" + rest);
            ReadItems(fc, s) == Ok(items, rest) && StartsItself(s)
    decreases items
  {
    var head, tail := items[0], items[1..];
    var after := PrintMoreItems(fc, tail) + ("]" + rest);
    var s := PrintItems(fc, items) + ("]" + rest);
    assert s == Print(fc, head) + after;
    assert items == [head] + tail;
    PrintStarts(fc, head);
    if tail == [] {
      assert after == "]" + rest;
    } else {
      assert after[1..] == PrintItems(fc, tail) + ("]" + rest);
      ItemsReadBack(fc, tail, rest);
    }
    ValueReadsBack(fc, head, after);
    ConsItemReads(fc, s, after, head, tail, rest);
  }

  /** A quoted key, a colon and a value that reads back make a member that reads back. */
  lemma {:induction false} KeyedReads(fc: FloatCodec, key: string, text: string, v: Value, rest: string)
    requires ReadValue(fc, text) == Ok(v, rest)
    ensures ReadEntry(fc, PrintString(key) + (":" + text)) == Ok(Entry(key, v), rest)
  {
    var colon := ":" + text;
    QuotedReadsBack(key, colon);
    assert colon[1..] == text;
  }

  /** One more member in front of members that read back. */
  lemma {:induction false} ConsEntryReads(fc: FloatCodec, s: string, after: string, head: Entry,
                                          tail: seq<Entry>, rest: string)
    requires ReadEntry(fc, s) == Ok(head, after)
    requires if tail == [] then after == "}" + rest
             else after != "" && after[0] == ',' && ReadEntries(fc, after[1..]) == Ok(tail, rest)
    requires Get(tail, head.key) == None
    ensures ReadEntries(fc, s) == Ok([head] + tail, rest)
  {
    if tail == [] {
      assert after[1..] == rest && [head] + tail == [head];
    }
  }

  lemma {:induction false} GetAbsent(es: seq<Entry>, k: string)
    requires forall e :: e in es ==> e.key != k
    ensures Get(es, k) == None
  {
    if es != [] {
      GetAbsent(es[1..], k);
    }
  }

  lemma {:induction false} HeadIsAbsent(es: seq<Entry>)
    requires es != [] && DistinctKeys(es)
    ensures es == [es[0]] + es[1..] && DistinctKeys(es[1..]) && Get(es[1..], es[0].key) == None
  {
    GetAbsent(es[1..], es[0].key);
  }

  lemma {:induction false} EntriesReadBack(fc: FloatCodec, es: seq<Entry>, rest: string)
    requires PrintsFloatTokens(fc) && es != [] && DistinctKeys(es)
    requires forall e :: e in es ==> Readable(fc, e.value)
    ensures var s := PrintEntries(fc, es) + ("}" + rest);
            ReadEntries(fc, s) == Ok(es, rest) && StartsItself(s)
    decreases es
  {
    var head, tail := es[0], es[1..];
    var after := PrintMoreEntries(fc, tail) + ("}" + rest);
    HeadIsAbsent(es);
    FirstEntryText(fc, es, rest);
    if tail != [] {
      EntriesReadBack(fc, tail, rest);
    }
    ValueReadsBack(fc, head.value, after);
    KeyedReads(fc, head.key, Print(fc, head.value) + after, head.value, after);
    ConsEntryReads(fc, PrintEntries(fc, es) + ("}" + rest), after, head, tail, rest);
  }
}
