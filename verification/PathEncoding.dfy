/** Percent-encoding, which the detector undoes, and what hiding a path behind it leads to. */
module PathEncoding {
  import opened Text
  import opened Utf8
  import opened Paths
  import opened PathDetector

  const UPPER_DIGITS := "0123456789ABCDEF"
  const LOWER_DIGITS := "0123456789abcdef"

  function HexDigit(n: nat, upper: bool): (c: char)
    requires n < 16
  {
    if upper then UPPER_DIGITS[n] else LOWER_DIGITS[n]
  }

  /** Every byte as a percent sign and two digits, each digit in whichever case is chosen for it. */
  function Escaped(upper: nat -> bool, bs: seq<Byte>): (s: string)
    ensures |s| == 3 * |bs|
  {
    if bs == [] then ""
    else
      var b, n := bs[|bs| - 1], |bs|;
      Escaped(upper, bs[..n - 1]) + ['%', HexDigit(b / 16, upper(2 * n)), HexDigit(b % 16, upper(2 * n + 1))]
  }

  /** A text, every byte of it percent-encoded. */
  function PercentEncode(upper: nat -> bool, s: string): string { Escaped(upper, Encode(s)) }

  lemma {:induction false} DigitReadsBack(n: nat, upper: bool)
    requires n < 16
    ensures HexDigit(n, upper) < 0x80 as char && Digit(HexDigit(n, upper) as int) == n
    ensures HexDigit(n, upper) != '%' && !IsSlash(HexDigit(n, upper)) && HexDigit(n, upper) != '.'
  {
  }

  /** The three characters of each byte. */
  lemma {:induction false} EscapedAt(upper: nat -> bool, bs: seq<Byte>, k: nat)
    requires k < |bs|
    ensures var s := Escaped(upper, bs);
            && s[3 * k] == '%' && s[3 * k + 1] == HexDigit(bs[k] / 16, upper(2 * k + 2))
            && s[3 * k + 2] == HexDigit(bs[k] % 16, upper(2 * k + 3))
  {
    if k < |bs| - 1 {
      EscapedAt(upper, bs[..|bs| - 1], k);
    }
  }

  /** Encoded text consists of percent signs and digits. */
  lemma {:induction false} EscapedIsPlain(upper: nat -> bool, bs: seq<Byte>)
    ensures forall c :: c in Escaped(upper, bs) ==> c < 0x80 as char && !IsSlash(c) && c != '.'
  {
    if bs != [] {
      var b, n := bs[|bs| - 1], |bs|;
      EscapedIsPlain(upper, bs[..n - 1]);
      DigitReadsBack(b / 16, upper(2 * n));
      DigitReadsBack(b % 16, upper(2 * n + 1));
    }
  }

  /** The byte at `k` is an escape in the codes, and the escape reads as it. */
  ghost predicate ReadsAt(bs: seq<Byte>, codes: seq<Byte>, k: nat)
    requires k < |bs| && |codes| == 3 * |bs|
  {
    First(codes, 3 * k) == (bs[k], 3 * (k + 1))
  }

  lemma {:induction false} ByteUnescapes(upper: nat -> bool, bs: seq<Byte>, codes: seq<Byte>, k: nat)
    requires k < |bs| && |codes| == 3 * |bs|
    requires forall i :: 0 <= i < |codes| ==> codes[i] == Escaped(upper, bs)[i] as int
    ensures ReadsAt(bs, codes, k)
  {
    EscapedAt(upper, bs, k);
    DigitReadsBack(bs[k] / 16, upper(2 * k + 2));
    DigitReadsBack(bs[k] % 16, upper(2 * k + 3));
    assert IsEscape(codes, 3 * k);
  }

  lemma {:induction false} BytesUnescape(bs: seq<Byte>, codes: seq<Byte>, k: nat)
    requires k <= |bs| && |codes| == 3 * |bs| && forall i: nat :: i < |bs| ==> ReadsAt(bs, codes, i)
    ensures Unescape(codes, 3 * k) == bs[k..]
    decreases |bs| - k
  {
    if k < |bs| {
      BytesUnescape(bs, codes, k + 1);
      assert ReadsAt(bs, codes, k);
      UnescapeStep(codes, 3 * k);
      assert bs[k..] == [bs[k]] + bs[k + 1..];
    }
  }

  /** Decoding undoes percent-encoding, for every text and either case of every digit. */
  lemma {:induction false} DecodeUndoesPercent(upper: nat -> bool, s: string)
    ensures PercentDecode(PercentEncode(upper, s)) == s
  {
    var bs, text := Encode(s), PercentEncode(upper, s);
    EscapedIsPlain(upper, bs);
    forall k | 0 <= k < |text| ensures text[k] < 0x80 as char { assert text[k] in text; }
    AsciiEncodes(text);
    forall k: nat | k < |bs| ensures ReadsAt(bs, Encode(text), k) { ByteUnescapes(upper, bs, Encode(text), k); }
    BytesUnescape(bs, Encode(text), 0);
    assert bs[0..] == bs;
    DecodeUndoesEncode(s);
  }

  function Layers(upper: nat -> bool, s: string, n: nat): string {
    if n == 0 then s else PercentEncode(upper, Layers(upper, s, n - 1))
  }

  lemma {:induction false} LayerComesOff(upper: nat -> bool, s: string, n: nat)
    requires '%' !in s
    ensures PercentDecode(Layers(upper, s, n)) == Layers(upper, s, if n == 0 then 0 else n - 1)
  {
    if n == 0 {
      PercentDecodeFixes(s);
    } else {
      DecodeUndoesPercent(upper, Layers(upper, s, n - 1));
    }
  }

  /** Up to three layers of encoding are all taken off a text that holds no percent sign. */
  lemma {:induction false} LayersComeOff(upper: nat -> bool, s: string, n: nat)
    requires '%' !in s && n <= 3
    ensures Thrice(Layers(upper, s, n)) == s
  {
    var m := if n == 0 then 0 else n - 1;
    LayerComesOff(upper, s, n);
    LayerComesOff(upper, s, m);
    LayerComesOff(upper, s, if m == 0 then 0 else m - 1);
  }

  /** Something that means more than a name: a separator, a NUL, or a dot component. */
  predicate Hides(s: string) {
    (exists c :: c in s && IsSlash(c)) || '\0' in s || s == "." || s == ".."
  }

  lemma {:induction false} SlashCounts(s: string)
    ensures CountSlashes(s) > 0 <==> exists c :: c in s && IsSlash(c)
  {
    if s != "" {
      SlashCounts(s[1..]);
      assert s == [s[0]] + s[1..];
      assert s[0] in s;
    }
  }

  lemma {:induction false} FoldHolds(s: string)
    ensures (exists c :: c in Fold(s) && IsSlash(c)) <==> exists c :: c in s && IsSlash(c)
    ensures '\0' in Fold(s) <==> '\0' in s
  {
    if c :| c in Fold(s) && IsSlash(c) {
      var k :| 0 <= k < |s| && Fold(s)[k] == c;
      assert s[k] in s && IsSlash(s[k]);
    }
    if c :| c in s && IsSlash(c) {
      var k :| 0 <= k < |s| && s[k] == c;
      assert Fold(s)[k] in Fold(s) && IsSlash(Fold(s)[k]);
    }
    if '\0' in Fold(s) {
      var k :| 0 <= k < |s| && Fold(s)[k] == '\0';
      assert s[k] in s;
    }
    if '\0' in s {
      var k :| 0 <= k < |s| && s[k] == '\0';
      assert Fold(s)[k] in Fold(s);
    }
  }

  lemma {:induction false} OneComponent(s: string)
    requires forall c :: c in s ==> !IsSlash(c)
    ensures Parts(s) == [s] && CountDots(Parts(s)) == if IsDots(s) then 1 else 0
  {
    forall k | 0 <= k < |s| ensures !IsSlash(s[k]) { assert s[k] in s; }
    SplitOne(IsSlash, s);
    assert [s][1..] == [];
  }

  lemma {:induction false} LayersArePlain(upper: nat -> bool, s: string, n: nat)
    requires 1 <= n && s != ""
    ensures var t := Layers(upper, s, n);
            CountSlashes(t) == 0 && CountDots(Parts(t)) == 0 && (forall c :: c in t ==> c != '.' && !IsSlash(c))
  {
    var inner := Layers(upper, s, n - 1);
    var t := PercentEncode(upper, inner);
    EscapedIsPlain(upper, Encode(inner));
    SlashCounts(t);
    OneComponent(t);
    assert "."[0] in "." && ".."[0] in "..";
  }

  /** A separator, a NUL or a dot component behind one to three layers of encoding is reported. */
  lemma {:induction false} HiddenIsReported(upper: nat -> bool, s: string, n: nat)
    requires '%' !in s && 1 <= n <= 3 && Hides(s)
    ensures ReportsTraversal(Layers(upper, s, n))
  {
    var path := Layers(upper, s, n);
    LayersComeOff(upper, s, n);
    LayersArePlain(upper, s, n);
    var d := Decoded(path);
    assert d == Fold(s);
    FoldHolds(s);
    SlashCounts(d);
    if (exists c :: c in s && IsSlash(c)) || '\0' in s {
      assert Reveals(path, d);
    } else {
      assert d == s;
      OneComponent(s);
    }
    if d == path {
      SlashCounts(path);
    }
  }

  // ---- exactly what is reported ----

  /** After decoding, backslashes are slashes and everything else is as decoded. */
  lemma {:induction false} BackslashesFold(path: string, k: nat)
    requires k < |Thrice(path)|
    ensures |Decoded(path)| == |Thrice(path)|
    ensures Decoded(path)[k] == if Thrice(path)[k] == '\\' then '/' else Thrice(path)[k]
  {
  }

  /** The path is relative, and its first name begins with two dots. */
  predicate LeadsUp(p: Lexical) { !p.absolute && p.names != [] && StartsWith(p.names[0], "..") }

  lemma {:induction false} ShownBegins(p: Lexical)
    requires IsNormal(p)
    ensures StartsWith(Show(p), "..") <==> LeadsUp(p)
  {
    if !p.absolute && p.names != [] {
      JoinIsNonempty(p.names);
      var first, shown := p.names[0], Show(p);
      assert shown == Join(p.names, '/');
      assert shown[..|first|] == first;
      if |first| >= 2 {
        assert shown[..2] == first[..2];
      } else if |p.names| > 1 {
        assert shown[1] == '/';
      }
    } else {
      assert Show(p)[0] == '/' || Show(p) == ".";
    }
  }

  lemma {:induction false} ParentInsideStands(s: string)
    requires HasParentInside(s)
    ensures exists j :: 0 < j < |Parts(s)| && Parts(s)[j] == ".."
  {
    var k :| 0 <= k <= |s| && StartsWith(s[k..], "/../");
    assert s[k..][..4] == "/../";
    var x, rest := s[..k], s[k + 4..];
    forall i | 0 <= i < 4 ensures s[k + i] == "/../"[i] { assert s[k..][..4][i] == s[k + i]; }
    assert s == x + ['/'] + (".." + ['/'] + rest);
    SplitConcat(IsSlash, x, '/', ".." + ['/'] + rest);
    SplitStep(IsSlash, "..", '/', rest);
    assert Parts(s) == Parts(x) + ([".."] + Parts(rest));
    assert Parts(s)[|Parts(x)|] == "..";
  }

  lemma {:induction false} ParentInsideLeadsUp(p: Lexical)
    requires IsNormal(p) && HasParentInside(Show(p))
    ensures LeadsUp(p)
  {
    ParentInsideStands(Show(p));
    PartsOfShown(p);
    var parts := Parts(Show(p));
    var j :| 0 < j < |parts| && parts[j] == "..";
    if !p.absolute {
      assert p.names[j] == "..";
      assert p.names[0] == "..";
    }
  }

  /**
   Traversal is reported if and only if decoding revealed something, or brought out a NUL, or the
   decoded path leads above where it starts.
   */
  lemma {:induction false} TraversalExactly(path: string)
    ensures var d := Decoded(path);
            ReportsTraversal(path) <==> (d != path && Reveals(path, d)) || '\0' in d || LeadsUp(Lex(d))
  {
    var d := Decoded(path);
    LexIsNormal(d);
    ShownBegins(Lex(d));
    if HasParentInside(Show(Lex(d))) {
      ParentInsideLeadsUp(Lex(d));
    }
  }
}
