/**
 The path detector: percent-decode up to three times, look for traversal that the encoding
 hid, and check the result against the permitted roots.
 */
module PathDetector {
  import opened Text
  import opened Utf8
  import opened Paths

  const PERCENT: Byte := 0x25

  /** The value of a hexadecimal digit, or -1. */
  function Digit(b: Byte): (n: int)
    ensures -1 <= n < 16
  {
    if 0x30 <= b <= 0x39 then b - 0x30
    else if 0x41 <= b <= 0x46 then b - 0x41 + 10
    else if 0x61 <= b <= 0x66 then b - 0x61 + 10
    else -1
  }

  /** A percent sign and two digits begin at `i`. */
  predicate IsEscape(bs: seq<Byte>, i: nat) {
    i + 2 < |bs| && bs[i] == PERCENT && Digit(bs[i + 1]) >= 0 && Digit(bs[i + 2]) >= 0
  }

  function Unescape(bs: seq<Byte>, i: nat): (r: seq<Byte>)
    requires i <= |bs|
    decreases |bs| - i
  {
    if i == |bs| then []
    else if IsEscape(bs, i) then [Digit(bs[i + 1]) * 16 + Digit(bs[i + 2])] + Unescape(bs, i + 3)
    else [bs[i]] + Unescape(bs, i + 1)
  }

  function PercentDecode(s: string): string {
    Utf8.Decode(Unescape(Encode(s), 0))
  }

  method PercentDecodeLossy(input: string) returns (r: string)
    ensures r == PercentDecode(input)
  {
    var bytes := Encode(input);
    var out: seq<Byte>, i := [], 0;
    while i < |bytes|
      invariant 0 <= i <= |bytes| && out + Unescape(bytes, i) == Unescape(bytes, 0)
    {
      ghost var before := out;
      if bytes[i] == PERCENT && i + 2 < |bytes| && Digit(bytes[i + 1]) >= 0 && Digit(bytes[i + 2]) >= 0 {
        var b: Byte := Digit(bytes[i + 1]) * 16 + Digit(bytes[i + 2]);
        Associative(before, [b], Unescape(bytes, i + 3));
        out := out + [b];
        i := i + 3;
      } else {
        Associative(before, [bytes[i]], Unescape(bytes, i + 1));
        out := out + [bytes[i]];
        i := i + 1;
      }
    }
    assert out == Unescape(bytes, 0);
    return Utf8.Decode(out);
  }

  function Thrice(s: string): string { PercentDecode(PercentDecode(PercentDecode(s))) }

  function FoldChar(c: char): char { if c == '\\' then '/' else c }

  function Fold(s: string): (r: string) { seq(|s|, (k: nat) requires k < |s| => FoldChar(s[k])) }

  function Passes(s: string, n: nat): string {
    if n == 0 then s else PercentDecode(Passes(s, n - 1))
  }

  /** Stopping at a text that decoding leaves alone is the same as decoding three times. */
  method DecodeTraversal(path: string) returns (r: string)
    ensures r == Fold(Thrice(path))
  {
    assert Passes(path, 1) == PercentDecode(path) && Passes(path, 2) == PercentDecode(Passes(path, 1));
    assert Passes(path, 3) == Thrice(path);
    var current := path;
    for pass := 0 to 3
      invariant current == Passes(path, pass)
    {
      var decoded := PercentDecodeLossy(current);
      if decoded == current {
        assert current == Thrice(path);
        break;
      }
      current := decoded;
    }
    return Fold(current);
  }

  // ---- what is reported ----

  predicate IsDots(c: string) { c == "." || c == ".." }

  function CountDots(parts: seq<string>): (n: nat) {
    if parts == [] then 0 else (if IsDots(parts[0]) then 1 else 0) + CountDots(parts[1..])
  }

  function CountSlashes(s: string): (n: nat) {
    if s == "" then 0 else (if IsSlash(s[0]) then 1 else 0) + CountSlashes(s[1..])
  }

  /** Decoding brought out a separator, a dot component or a NUL that was not there. */
  predicate Reveals(original: string, decoded: string) {
    || CountDots(Parts(decoded)) > CountDots(Parts(original))
    || CountSlashes(decoded) > CountSlashes(original)
    || '\0' in decoded
  }

  function Decoded(path: string): string { Fold(Thrice(path)) }

  predicate HasParentInside(s: string) {
    exists k :: 0 <= k <= |s| && StartsWith(s[k..], "/../")
  }

  predicate ReportsTraversal(path: string) {
    var d := Decoded(path);
    var n := Show(Lex(d));
    (d != path && Reveals(path, d)) || '\0' in d || StartsWith(n, "..") || HasParentInside(n)
  }

  predicate ReportsOutside(path: string, roots: seq<string>) {
    roots != [] && !IsInsideAny(Show(Lex(Decoded(path))), roots)
  }

  datatype Finding = PathTraversal | PathOutsideAllowlist

  method AnalyzePath(path: string, roots: seq<string>) returns (findings: seq<Finding>)
    ensures PathTraversal in findings <==> ReportsTraversal(path)
    ensures PathOutsideAllowlist in findings <==> ReportsOutside(path, roots)
  {
    findings := [];
    var decoded := DecodeTraversal(path);
    if decoded != path && Reveals(path, decoded) {
      findings := findings + [PathTraversal];
    }
    if '\0' in decoded {
      findings := findings + [PathTraversal];
    }
    var normalized := Normalize(decoded);
    if StartsWith(normalized, "..") || HasParentInside(normalized) {
      findings := findings + [PathTraversal];
    }
    if roots != [] && !IsInsideAny(normalized, roots) {
      findings := findings + [PathOutsideAllowlist];
    }
  }

  // ---- decoding goes component by component ----

  predicate IsSlashByte(b: Byte) { b == 0x2F || b == 0x5C }

  /** What comes out at `i`, and where the next begins. */
  function First(bs: seq<Byte>, i: nat): (r: (Byte, nat))
    requires i < |bs|
    ensures i < r.1 <= |bs|
  {
    if IsEscape(bs, i) then (Digit(bs[i + 1]) * 16 + Digit(bs[i + 2]), i + 3) else (bs[i], i + 1)
  }

  lemma {:induction false} UnescapeStep(bs: seq<Byte>, i: nat)
    requires i < |bs|
    ensures Unescape(bs, i) == [First(bs, i).0] + Unescape(bs, First(bs, i).1)
  {
  }

  lemma {:induction false} UnescapeIsLocal(a: seq<Byte>, b: seq<Byte>, i: nat, d: nat)
    requires i <= |a| && |b| == |a| + d && forall k :: i <= k < |a| ==> a[k] == b[k + d]
    ensures Unescape(a, i) == Unescape(b, i + d)
    decreases |a| - i
  {
    if i < |a| {
      var r := First(a, i);
      assert First(b, i + d) == (r.0, r.1 + d);
      UnescapeIsLocal(a, b, r.1, d);
      UnescapeStep(a, i);
      UnescapeStep(b, i + d);
    }
  }

  lemma {:induction false} FirstStops(a: seq<Byte>, x: seq<Byte>, i: nat)
    requires i < |a| < |x| && IsSlashByte(x[|a|]) && forall k :: 0 <= k < |a| ==> a[k] == x[k]
    ensures First(a, i) == First(x, i)
  {
    assert IsEscape(a, i) == IsEscape(x, i);
  }

  /** No escape reaches across a separator. */
  lemma {:induction false} UnescapeCut(a: seq<Byte>, x: seq<Byte>, i: nat)
    requires i <= |a| < |x| && IsSlashByte(x[|a|]) && forall k :: 0 <= k < |a| ==> a[k] == x[k]
    ensures Unescape(x, i) == Unescape(a, i) + Unescape(x, |a|)
    decreases |a| - i
  {
    if i < |a| {
      FirstStops(a, x, i);
      var r := First(a, i);
      UnescapeStep(a, i);
      UnescapeStep(x, i);
      UnescapeCut(a, x, r.1);
      Associative([r.0], Unescape(a, r.1), Unescape(x, |a|));
    }
  }

  lemma {:induction false} UnescapeConcat(a: seq<Byte>, b: Byte, c: seq<Byte>)
    requires IsSlashByte(b)
    ensures Unescape(a + [b] + c, 0) == Unescape(a, 0) + [b] + Unescape(c, 0)
  {
    var x := a + [b] + c;
    UnescapeCut(a, x, 0);
    UnescapeIsLocal(c, x, 0, |a| + 1);
    assert !IsEscape(x, |a|);
    Associative(Unescape(a, 0), [b], Unescape(c, 0));
  }

  lemma {:induction false} EncodeSlash(x: string, separator: char, y: string)
    requires IsSlash(separator)
    ensures Encode(x + [separator] + y) == Encode(x) + [separator as int] + Encode(y)
    ensures IsSlashByte(separator as int)
  {
    EncodeConcat(x + [separator], y);
    EncodeConcat(x, [separator]);
    assert Encode([separator]) == [separator as int] + Encode("");
  }

  /** A separator stays, and what is around it decodes on its own. */
  lemma {:induction false} DecodeAtSlash(x: string, separator: char, y: string)
    requires IsSlash(separator)
    ensures PercentDecode(x + [separator] + y) == PercentDecode(x) + [separator] + PercentDecode(y)
  {
    EncodeSlash(x, separator, y);
    UnescapeConcat(Encode(x), separator as int, Encode(y));
    DecodeCut(Unescape(Encode(x), 0), separator as int, Unescape(Encode(y), 0));
  }

  /** All the parts that a list of components decodes into. */
  function Expanded(f: string -> string, cs: seq<string>): seq<string> {
    if cs == [] then [] else Parts(f(cs[0])) + Expanded(f, cs[1..])
  }

  function Mapped(f: string -> string, cs: seq<string>): (r: seq<string>) {
    seq(|cs|, (k: nat) requires k < |cs| => f(cs[k]))
  }

  lemma {:induction false} DecodedParts(s: string)
    ensures Parts(PercentDecode(s)) == Expanded(PercentDecode, Parts(s))
    decreases |s|
  {
    var j := NextSeparator(IsSlash, s, 0);
    if j == |s| {
      SplitOne(IsSlash, s);
      assert [s][1..] == [];
      assert Expanded(PercentDecode, [s]) == Parts(PercentDecode(s)) + [];
    } else {
      var x, rest := s[..j], s[j + 1..];
      assert s == x + [s[j]] + rest;
      SplitStep(IsSlash, x, s[j], rest);
      DecodeAtSlash(x, s[j], rest);
      SplitConcat(IsSlash, PercentDecode(x), s[j], PercentDecode(rest));
      DecodedParts(rest);
    }
  }

  lemma {:induction false} ExpansionGrows(f: string -> string, cs: seq<string>)
    ensures |Expanded(f, cs)| >= |cs|
    ensures |Expanded(f, cs)| == |cs| ==> Expanded(f, cs) == Mapped(f, cs)
  {
    if cs != [] {
      ExpansionGrows(f, cs[1..]);
      if |Expanded(f, cs)| == |cs| {
        assert Mapped(f, cs) == [f(cs[0])] + Mapped(f, cs[1..]);
      }
    }
  }

  /** One pass adds parts or decodes each part in place. */
  lemma {:induction false} PassGrows(s: string)
    ensures |Parts(PercentDecode(s))| >= |Parts(s)|
    ensures |Parts(PercentDecode(s))| == |Parts(s)| ==> Parts(PercentDecode(s)) == Mapped(PercentDecode, Parts(s))
  {
    DecodedParts(s);
    ExpansionGrows(PercentDecode, Parts(s));
  }

  lemma {:induction false} ThriceGrows(s: string)
    ensures |Parts(Thrice(s))| >= |Parts(s)|
    ensures |Parts(Thrice(s))| == |Parts(s)| ==> Parts(Thrice(s)) == Mapped(Thrice, Parts(s))
  {
    var t := PercentDecode(s);
    var u := PercentDecode(t);
    PassGrows(s);
    PassGrows(t);
    PassGrows(u);
    if |Parts(Thrice(s))| == |Parts(s)| {
      var cs := Parts(s);
      assert Mapped(PercentDecode, Mapped(PercentDecode, Mapped(PercentDecode, cs))) == Mapped(Thrice, cs);
    }
  }

  lemma {:induction false} FoldKeepsParts(s: string, i: nat)
    requires i <= |s|
    ensures SplitFrom(IsSlash, Fold(s), i) == SplitFrom(IsSlash, s, i)
    decreases |s| - i
  {
    var j := NextSeparator(IsSlash, s, i);
    SeparatorFound(IsSlash, Fold(s), i, j);
    assert Fold(s)[i..j] == s[i..j];
    if j < |s| {
      FoldKeepsParts(s, j + 1);
    } else {
      assert s[i..j] == s[i..] && Fold(s)[i..j] == Fold(s)[i..];
    }
  }

  lemma {:induction false} SlashesCountParts(s: string)
    ensures |Parts(s)| == CountSlashes(s) + 1
    decreases |s|
  {
    var j := NextSeparator(IsSlash, s, 0);
    NoSlashes(s, j);
    if j == |s| {
      SplitOne(IsSlash, s);
    } else {
      var x, rest := s[..j], s[j + 1..];
      assert s == x + [s[j]] + rest;
      SplitStep(IsSlash, x, s[j], rest);
      SlashesCountParts(rest);
    }
  }

  lemma {:induction false} NoSlashes(s: string, j: nat)
    requires j <= |s| && forall k :: 0 <= k < j ==> !IsSlash(s[k])
    requires j < |s| ==> IsSlash(s[j])
    ensures CountSlashes(s) == if j == |s| then 0 else 1 + CountSlashes(s[j + 1..])
    decreases j
  {
    if j > 0 {
      NoSlashes(s[1..], j - 1);
      if j < |s| { assert s[1..][j..] == s[j + 1..]; }
    }
  }

  // ---- a decoding that hides nothing commutes with normalization ----

  /** On this component the decoding neither makes nor loses a special meaning. */
  predicate Faithful(f: string -> string, c: string) {
    (f(c) == "" <==> c == "") && (IsDots(c) ==> f(c) == c) && (IsDots(f(c)) ==> IsDots(c))
  }

  lemma {:induction false} DotsStay(f: string -> string, cs: seq<string>)
    requires forall k :: 0 <= k < |cs| && IsDots(cs[k]) ==> f(cs[k]) == cs[k]
    ensures CountDots(Mapped(f, cs)) >= CountDots(cs)
    ensures CountDots(Mapped(f, cs)) == CountDots(cs) ==>
              forall k :: 0 <= k < |cs| && IsDots(f(cs[k])) ==> IsDots(cs[k])
  {
    if cs != [] {
      DotsStay(f, cs[1..]);
      assert Mapped(f, cs)[1..] == Mapped(f, cs[1..]);
      if CountDots(Mapped(f, cs)) == CountDots(cs) {
        forall k | 0 <= k < |cs| && IsDots(f(cs[k])) ensures IsDots(cs[k]) {
          if k > 0 { assert cs[1..][k - 1] == cs[k]; }
        }
      }
    }
  }

  lemma {:induction false} ResolveCommutes(f: string -> string, absolute: bool, stack: seq<string>, c: string)
    requires Faithful(f, c) && forall k :: 0 <= k < |stack| ==> Faithful(f, stack[k])
    ensures Resolve(absolute, Mapped(f, stack), f(c)) == Mapped(f, Resolve(absolute, stack, c))
  {
    assert Mapped(f, stack + [c]) == Mapped(f, stack) + [f(c)];
    if stack != [] {
      assert Mapped(f, stack)[|stack| - 1] == f(stack[|stack| - 1]);
      assert Mapped(f, stack[..|stack| - 1]) == Mapped(f, stack)[..|stack| - 1];
    }
  }

  lemma {:induction false} StackCommutes(f: string -> string, absolute: bool, cs: seq<string>, n: nat)
    requires n <= |cs| && forall k :: 0 <= k < |cs| ==> Faithful(f, cs[k])
    ensures StackOf(absolute, Mapped(f, cs), n) == Mapped(f, StackOf(absolute, cs, n))
    ensures forall k :: 0 <= k < |StackOf(absolute, cs, n)| ==> Faithful(f, StackOf(absolute, cs, n)[k])
  {
    if n > 0 {
      StackCommutes(f, absolute, cs, n - 1);
      ResolveCommutes(f, absolute, StackOf(absolute, cs, n - 1), cs[n - 1]);
    }
  }

  // ---- when decoding changes nothing ----

  lemma {:induction false} NoPercentNoEscape(bs: seq<Byte>, i: nat)
    requires i <= |bs| && PERCENT !in bs
    ensures Unescape(bs, i) == bs[i..]
    decreases |bs| - i
  {
    if i < |bs| {
      NoPercentNoEscape(bs, i + 1);
    }
  }

  lemma {:induction false} PercentIsItsByte(s: string)
    requires '%' !in s
    ensures PERCENT !in Encode(s)
  {
    if s != "" {
      assert s[0] in s;
      assert PERCENT !in EncodeChar(s[0]);
      PercentIsItsByte(s[1..]);
    }
  }

  /** Text without a percent sign decodes to itself. */
  lemma {:induction false} PercentDecodeFixes(s: string)
    requires '%' !in s
    ensures PercentDecode(s) == s
  {
    PercentIsItsByte(s);
    NoPercentNoEscape(Encode(s), 0);
    assert Encode(s)[0..] == Encode(s);
    DecodeUndoesEncode(s);
  }

  lemma {:induction false} PercentFreeIsFixed(s: string)
    requires '%' !in s
    ensures Thrice(s) == s
  {
    PercentDecodeFixes(s);
  }

  lemma {:induction false} NonemptyStays(s: string)
    requires s != ""
    ensures PercentDecode(s) != ""
  {
  }

  lemma {:induction false} EmptyExactly(s: string)
    ensures Thrice(s) == "" <==> s == ""
  {
    if s == "" {
      PercentFreeIsFixed("");
    } else {
      NonemptyStays(s);
      NonemptyStays(PercentDecode(s));
      NonemptyStays(PercentDecode(PercentDecode(s)));
    }
  }

  // ---- agreement ----

  /** When nothing is revealed, each component decodes in place and keeps its meaning. */
  lemma {:induction false} UnrevealedParts(path: string)
    requires !Reveals(path, Decoded(path))
    ensures Parts(Decoded(path)) == Mapped(Thrice, Parts(path))
    ensures forall k :: 0 <= k < |Parts(path)| ==> Faithful(Thrice, Parts(path)[k])
  {
    var d, cs := Decoded(path), Parts(path);
    FoldKeepsParts(Thrice(path), 0);
    SlashesCountParts(path);
    SlashesCountParts(d);
    ThriceGrows(path);
    PercentFreeIsFixed(".");
    PercentFreeIsFixed("..");
    DotsStay(Thrice, cs);
    forall k | 0 <= k < |cs| ensures Faithful(Thrice, cs[k]) { EmptyExactly(cs[k]); }
  }

  /** Unless traversal is reported, the decoded path is the path with each name decoded. */
  lemma {:induction false} UnsuspiciousDecodes(path: string)
    requires !Reveals(path, Decoded(path))
    ensures Lex(Decoded(path)) == Lexical(Lex(path).absolute, Mapped(Thrice, Lex(path).names))
  {
    UnrevealedParts(path);
    StackCommutes(Thrice, Absolute(path), Parts(path), |Parts(path)|);
  }

  /** Decoding leaves every name of the root alone. */
  predicate DecodeFixed(root: string) {
    forall k :: 0 <= k < |Lex(root).names| ==> Thrice(Lex(root).names[k]) == Lex(root).names[k]
  }

  lemma {:induction false} StaysInside(path: string, root: string)
    requires IsInside(path, root) && DecodeFixed(root) && !Reveals(path, Decoded(path))
    ensures IsInside(Show(Lex(Decoded(path))), root)
  {
    var d := Decoded(path);
    InsideExactly(path, root);
    UnsuspiciousDecodes(path);
    LexIsNormal(d);
    ShownReadsBack(Lex(d));
    InsideExactly(Show(Lex(d)), root);
  }

  /**
   The two checks agree: a path judged inside roots that decoding leaves alone, and in which
   the detector reports no traversal, is not reported outside them.
   */
  lemma {:induction false} DetectorAgrees(path: string, roots: seq<string>)
    requires forall k :: 0 <= k < |roots| ==> DecodeFixed(roots[k])
    requires IsInsideAny(path, roots) && !ReportsTraversal(path)
    ensures !ReportsOutside(path, roots)
  {
    var k :| 0 <= k < |roots| && IsInside(path, roots[k]);
    var d := Decoded(path);
    if d == path {
      LexIsNormal(path);
      ShownReadsBack(Lex(path));
      InsideExactly(path, roots[k]);
      InsideExactly(Show(Lex(path)), roots[k]);
    } else {
      StaysInside(path, roots[k]);
    }
  }

  lemma {:induction false} NamesAreFree(absolute: bool, parts: seq<string>, n: nat)
    requires n <= |parts| && forall k :: 0 <= k < |parts| ==> '%' !in parts[k]
    ensures forall k :: 0 <= k < |StackOf(absolute, parts, n)| ==> '%' !in StackOf(absolute, parts, n)[k]
  {
    if n > 0 {
      NamesAreFree(absolute, parts, n - 1);
    }
  }

  lemma {:induction false} PartsWithout(s: string, c: char, i: nat)
    requires i <= |s| && c !in s
    ensures forall k :: 0 <= k < |SplitFrom(IsSlash, s, i)| ==> c !in SplitFrom(IsSlash, s, i)[k]
    decreases |s| - i
  {
    var j := NextSeparator(IsSlash, s, i);
    if j < |s| {
      PartsWithout(s, c, j + 1);
    }
  }

  /** In particular the roots may be any without a percent sign. */
  lemma {:induction false} PercentFreeRootsAreFixed(root: string)
    requires '%' !in root
    ensures DecodeFixed(root)
  {
    PartsWithout(root, '%', 0);
    NamesAreFree(Absolute(root), Parts(root), |Parts(root)|);
    forall k | 0 <= k < |Lex(root).names| ensures Thrice(Lex(root).names[k]) == Lex(root).names[k] {
      PercentFreeIsFixed(Lex(root).names[k]);
    }
  }

  /**
   The condition on roots is needed: a root that decoding changes, but in which it reveals no
   traversal, is inside itself and is reported outside itself.
   */
  lemma {:induction false} ChangedRootDisagrees(root: string)
    requires !DecodeFixed(root) && !ReportsTraversal(Show(Lex(root)))
    ensures IsInsideAny(Show(Lex(root)), [root]) && ReportsOutside(Show(Lex(root)), [root])
  {
    var path := Show(Lex(root));
    LexIsNormal(root);
    ShownReadsBack(Lex(root));
    InsideExactly(path, root);
    assert [root][0] == root;
    var d := Decoded(path);
    var k :| 0 <= k < |Lex(root).names| && Thrice(Lex(root).names[k]) != Lex(root).names[k];
    if !Reveals(path, d) {
      UnsuspiciousDecodes(path);
      assert Lex(d).names[k] == Thrice(Lex(path).names[k]) != Lex(root).names[k];
      LexIsNormal(d);
      ShownReadsBack(Lex(d));
      InsideExactly(Show(Lex(d)), root);
    }
  }
}
