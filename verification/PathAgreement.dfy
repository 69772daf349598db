/** For which roots the detector and the containment check always agree. */
module PathAgreement {
  import opened Text
  import opened Utf8
  import opened Paths
  import opened PathDetector

  // ---- three passes go component by component ----

  ghost predicate ByComponent(f: string -> string, s: string) {
    Parts(f(s)) == Expanded(f, Parts(s))
  }

  lemma {:induction false} ExpandedConcat(f: string -> string, a: seq<string>, b: seq<string>)
    ensures Expanded(f, a + b) == Expanded(f, a) + Expanded(f, b)
  {
    if a == [] {
      assert a + b == b;
    } else {
      ExpandedConcat(f, a[1..], b);
      assert (a + b)[1..] == a[1..] + b;
      Associative(Parts(f(a[0])), Expanded(f, a[1..]), Expanded(f, b));
    }
  }

  lemma {:induction false} ExpandTwice(f: string -> string, g: string -> string, h: string -> string, cs: seq<string>)
    requires (forall s :: ByComponent(g, s)) && forall s :: h(s) == g(f(s))
    ensures Expanded(g, Expanded(f, cs)) == Expanded(h, cs)
  {
    if cs != [] {
      ExpandTwice(f, g, h, cs[1..]);
      ExpandedConcat(g, Parts(f(cs[0])), Expanded(f, cs[1..]));
      assert ByComponent(g, f(cs[0]));
    }
  }

  function Twice(s: string): string { PercentDecode(PercentDecode(s)) }

  lemma {:induction false} ThriceByComponent(s: string)
    ensures ByComponent(Thrice, s)
  {
    forall t ensures ByComponent(PercentDecode, t) { DecodedParts(t); }
    ExpandTwice(PercentDecode, PercentDecode, Twice, Parts(s));
    ExpandTwice(Twice, PercentDecode, Thrice, Parts(s));
    assert ByComponent(PercentDecode, s) && ByComponent(PercentDecode, PercentDecode(s));
    assert ByComponent(PercentDecode, Twice(s));
  }

  // ---- components in which decoding reveals nothing ----

  predicate CalmFor(f: string -> string, c: string) {
    FreeOf(IsSlash, f(c)) && Faithful(f, c) && '\0' !in f(c)
  }

  predicate Calm(c: string) { CalmFor(Thrice, c) }

  lemma {:induction false} CalmExpands(f: string -> string, cs: seq<string>)
    requires forall k :: 0 <= k < |cs| ==> CalmFor(f, cs[k])
    ensures Expanded(f, cs) == Mapped(f, cs) && CountDots(Mapped(f, cs)) == CountDots(cs)
  {
    if cs != [] {
      CalmExpands(f, cs[1..]);
      assert CalmFor(f, cs[0]);
      SplitOne(IsSlash, f(cs[0]));
      assert Mapped(f, cs) == [f(cs[0])] + Mapped(f, cs[1..]);
      assert Mapped(f, cs)[1..] == Mapped(f, cs[1..]);
    }
  }

  /** A character that is no separator lies in some part. */
  lemma {:induction false} FoundInParts(s: string, i: nat, m: nat)
    requires i <= m < |s| && !IsSlash(s[m])
    ensures exists k :: 0 <= k < |SplitFrom(IsSlash, s, i)| && s[m] in SplitFrom(IsSlash, s, i)[k]
    decreases |s| - i
  {
    var j := NextSeparator(IsSlash, s, i);
    var parts := SplitFrom(IsSlash, s, i);
    if m < j || j == |s| {
      assert j == |s| ==> s[i..] == s[i..j];
      assert parts[0] == s[i..j] && s[i..j][m - i] == s[m];
    } else {
      FoundInParts(s, j + 1, m);
      var k :| 0 <= k < |SplitFrom(IsSlash, s, j + 1)| && s[m] in SplitFrom(IsSlash, s, j + 1)[k];
      assert parts[k + 1] == SplitFrom(IsSlash, s, j + 1)[k];
    }
  }

  lemma {:induction false} InPartsInText(s: string, c: char, i: nat, k: nat)
    requires i <= |s| && k < |SplitFrom(IsSlash, s, i)| && c in SplitFrom(IsSlash, s, i)[k]
    ensures c in s
    decreases |s| - i
  {
    if c !in s {
      PartsWithout(s, c, i);
    }
  }

  /** A path in which nothing is revealed has calm components only. */
  lemma {:induction false} UnrevealedIsCalm(path: string, k: nat)
    requires !Reveals(path, Decoded(path)) && k < |Parts(path)|
    ensures Calm(Parts(path)[k])
  {
    var d, cs := Decoded(path), Parts(path);
    UnrevealedParts(path);
    PartsAreFree(IsSlash, d, 0);
    assert Parts(d)[k] == Thrice(cs[k]);
    if '\0' in Thrice(cs[k]) {
      InPartsInText(d, '\0', 0, k);
    }
  }

  /** Calm components reveal nothing. */
  lemma {:induction false} CalmIsUnrevealed(path: string)
    requires forall k :: 0 <= k < |Parts(path)| ==> Calm(Parts(path)[k])
    ensures !Reveals(path, Decoded(path))
  {
    var d, cs := Decoded(path), Parts(path);
    FoldKeepsParts(Thrice(path), 0);
    ThriceByComponent(path);
    CalmExpands(Thrice, cs);
    assert Parts(d) == Mapped(Thrice, cs);
    SlashesCountParts(path);
    SlashesCountParts(d);
    if '\0' in d {
      var m :| 0 <= m < |d| && d[m] == '\0';
      FoundInParts(d, 0, m);
    }
  }

  lemma {:induction false} NoiseIsCalm(c: string)
    requires c == "" || c == "."
    ensures Calm(c)
  {
    PercentFreeIsFixed(c);
  }

  lemma {:induction false} StackFromParts(absolute: bool, parts: seq<string>, n: nat, k: nat)
    requires n <= |parts| && k < |StackOf(absolute, parts, n)|
    ensures StackOf(absolute, parts, n)[k] in parts
  {
    var before := StackOf(absolute, parts, n - 1);
    if k < |before| {
      StackFromParts(absolute, parts, n - 1, k);
    }
  }

  /** What is calm in a path is calm in every root that holds it. */
  lemma {:induction false} RootIsCalm(root: string, path: string)
    requires Holds(Lex(root), Lex(path)) && !Reveals(path, Decoded(path))
    ensures var shown := Show(Lex(root)); forall k :: 0 <= k < |Parts(shown)| ==> Calm(Parts(shown)[k])
  {
    var p := Lex(root);
    LexIsNormal(root);
    PartsOfShown(p);
    NoiseIsCalm("");
    NoiseIsCalm(".");
    forall j | 0 <= j < |p.names| ensures Calm(p.names[j]) {
      assert p.names[j] == Lex(path).names[j];
      StackFromParts(Absolute(path), Parts(path), |Parts(path)|, j);
      var k :| 0 <= k < |Parts(path)| && Parts(path)[k] == p.names[j];
      UnrevealedIsCalm(path, k);
    }
  }

  // ---- traversal in a root is traversal in everything inside it ----

  lemma {:induction false} ShownPrefix(root: Lexical, p: Lexical)
    requires IsNormal(root) && IsNormal(p) && root.absolute == p.absolute && root.names != [] && root.names <= p.names
    ensures StartsWith(Show(p), Show(root))
  {
    TrimmedRoot(root);
    HeldIsInside(root, p);
  }

  lemma {:induction false} ParentSpreads(s: string, t: string)
    requires StartsWith(t, s)
    ensures StartsWith(s, "..") ==> StartsWith(t, "..")
    ensures HasParentInside(s) ==> HasParentInside(t)
  {
    assert s == t[..|s|];
    if HasParentInside(s) {
      var k :| 0 <= k <= |s| && StartsWith(s[k..], "/../");
      assert t[k..][..4] == s[k..][..4];
    }
  }

  lemma {:induction false} PlainShows(p: Lexical)
    requires p.names == []
    ensures !StartsWith(Show(p), "..") && !HasParentInside(Show(p))
  {
    assert |Show(p)| == 1;
  }

  lemma {:induction false} RootDecodes(root: string, path: string)
    requires Holds(Lex(root), Lex(path)) && !Reveals(path, Decoded(path))
    ensures var shown := Show(Lex(root));
            && !Reveals(shown, Decoded(shown))
            && Lex(Decoded(shown)) == Lexical(Lex(root).absolute, Mapped(Thrice, Lex(root).names))
  {
    LexIsNormal(root);
    ShownReadsBack(Lex(root));
    RootIsCalm(root, path);
    CalmIsUnrevealed(Show(Lex(root)));
    UnsuspiciousDecodes(Show(Lex(root)));
  }

  /** No traversal is reported in a root that holds a path without any. */
  lemma {:induction false} QuietPathQuietRoot(root: string, path: string)
    requires IsInside(path, root) && !ReportsTraversal(path)
    ensures !ReportsTraversal(Show(Lex(root)))
  {
    var shown, d := Show(Lex(root)), Decoded(path);
    assert !Reveals(path, d);
    InsideExactly(path, root);
    RootDecodes(root, path);
    UnsuspiciousDecodes(path);
    LexIsNormal(Decoded(shown));
    LexIsNormal(d);
    EndsDiffer(Lex(Decoded(shown)), Lex(d), Lex(root), Lex(path));
  }

  lemma {:induction false} EndsDiffer(a: Lexical, b: Lexical, root: Lexical, p: Lexical)
    requires a == Lexical(root.absolute, Mapped(Thrice, root.names))
    requires b == Lexical(p.absolute, Mapped(Thrice, p.names))
    requires Holds(root, p) && IsNormal(a) && IsNormal(b)
    ensures StartsWith(Show(a), "..") ==> StartsWith(Show(b), "..")
    ensures HasParentInside(Show(a)) ==> HasParentInside(Show(b))
  {
    if root.names == [] {
      PlainShows(a);
    } else {
      assert a.names <= b.names;
      ShownPrefix(a, b);
      ParentSpreads(Show(a), Show(b));
    }
  }

  // ---- exactly which roots are safe to check against ----

  /** A root as the detector would see it: with its names decoded. */
  function DecodedRoot(root: string): Lexical {
    Lexical(Lex(root).absolute, Mapped(Thrice, Lex(root).names))
  }

  /** Some root of the list holds this root, decoded. */
  predicate HoldsDecodedRoot(roots: seq<string>, root: string) {
    exists j :: 0 <= j < |roots| && Holds(Lex(roots[j]), DecodedRoot(root))
  }

  /** The detector never contradicts containment: no path inside the roots is reported outside them alone. */
  ghost predicate Agrees(roots: seq<string>) {
    forall path :: IsInsideAny(path, roots) && !ReportsTraversal(path) ==> !ReportsOutside(path, roots)
  }

  lemma {:induction false} QuietDecodes(path: string)
    requires !ReportsTraversal(path)
    ensures Lex(Decoded(path)) == Lexical(Lex(path).absolute, Mapped(Thrice, Lex(path).names))
  {
    UnsuspiciousDecodes(path);
  }

  /** Where the decoded path lies, in terms of the roots' names. */
  lemma {:induction false} OutsideExactly(path: string, roots: seq<string>)
    requires roots != []
    ensures ReportsOutside(path, roots) <==> forall j :: 0 <= j < |roots| ==> !Holds(Lex(roots[j]), Lex(Decoded(path)))
  {
    LexIsNormal(Decoded(path));
    ShownReadsBack(Lex(Decoded(path)));
    forall j | 0 <= j < |roots|
      ensures IsInside(Show(Lex(Decoded(path))), roots[j]) <==> Holds(Lex(roots[j]), Lex(Decoded(path)))
    {
      InsideExactly(Show(Lex(Decoded(path))), roots[j]);
    }
  }

  lemma {:induction false} HeldRootsAgree(roots: seq<string>, path: string, k: nat)
    requires k < |roots| && IsInside(path, roots[k]) && !ReportsTraversal(path) && HoldsDecodedRoot(roots, roots[k])
    ensures !ReportsOutside(path, roots)
  {
    var j :| 0 <= j < |roots| && Holds(Lex(roots[j]), DecodedRoot(roots[k]));
    InsideExactly(path, roots[k]);
    QuietDecodes(path);
    OutsideExactly(path, roots);
  }

  lemma {:induction false} AgreeingRootsAreHeld(roots: seq<string>, k: nat)
    requires k < |roots| && Agrees(roots) && !ReportsTraversal(Show(Lex(roots[k])))
    ensures HoldsDecodedRoot(roots, roots[k])
  {
    var shown := Show(Lex(roots[k]));
    LexIsNormal(roots[k]);
    ShownReadsBack(Lex(roots[k]));
    InsideExactly(shown, roots[k]);
    assert IsInsideAny(shown, roots);
    OutsideExactly(shown, roots);
    QuietDecodes(shown);
  }

  /**
   For any list of roots: the detector never contradicts containment, on any path, if and only
   if each root reports traversal itself or, decoded, is held by some root of the list.
   */
  lemma {:induction false} AgreementExactly(roots: seq<string>)
    ensures Agrees(roots) <==>
            forall k :: 0 <= k < |roots| ==> ReportsTraversal(Show(Lex(roots[k]))) || HoldsDecodedRoot(roots, roots[k])
  {
    if Agrees(roots) {
      forall k | 0 <= k < |roots| && !ReportsTraversal(Show(Lex(roots[k]))) ensures HoldsDecodedRoot(roots, roots[k]) {
        AgreeingRootsAreHeld(roots, k);
      }
    }
    if forall k :: 0 <= k < |roots| ==> ReportsTraversal(Show(Lex(roots[k]))) || HoldsDecodedRoot(roots, roots[k]) {
      forall path | IsInsideAny(path, roots) && !ReportsTraversal(path) ensures !ReportsOutside(path, roots) {
        var k :| 0 <= k < |roots| && IsInside(path, roots[k]);
        QuietPathQuietRoot(roots[k], path);
        HeldRootsAgree(roots, path, k);
      }
    }
  }

  /** For a single root: exactly when decoding leaves its names alone, or reports traversal in it. */
  lemma {:induction false} SingleRootAgreesExactly(root: string)
    ensures Agrees([root]) <==> ReportsTraversal(Show(Lex(root))) || DecodeFixed(root)
  {
    AgreementExactly([root]);
    assert [root][0] == root;
    var names, decoded := Lex(root).names, Mapped(Thrice, Lex(root).names);
    assert |decoded| == |names| && forall k :: 0 <= k < |names| ==> decoded[k] == Thrice(names[k]);
    assert HoldsDecodedRoot([root], root) <==> names == decoded;
  }

  lemma {:induction false} EscapedLetter()
    ensures Thrice("%61") == "a"
  {
    AsciiEncodes("%61");
    assert Encode("%61") == [0x25, 0x36, 0x31];
    AsciiEncodes("a");
    assert Encode("a") == [0x61];
    assert IsEscape([0x25, 0x36, 0x31], 0);
    assert Unescape([0x25, 0x36, 0x31], 3) == [];
    assert Unescape([0x25, 0x36, 0x31], 0) == [0x61] + [];
    DecodeUndoesEncode("a");
    PercentFreeIsFixed("a");
    assert PercentDecode("%61") == "a";
    NoPercentNoEscape(Encode("a"), 0);
    assert PercentDecode("a") == "a";
  }

  lemma {:induction false} OneNameRoot(name: string)
    requires IsName(name) && name != ".."
    ensures var root := "/" + name;
            Lex(root) == Lexical(true, [name]) && Show(Lex(root)) == root && Parts(root) == ["", name]
  {
    var p := Lexical(true, [name]);
    assert Show(p) == "/" + name;
    ShownReadsBack(p);
    PartsOfShown(p);
  }

  lemma {:induction false} NoParentInName(name: string)
    requires FreeOf(IsSlash, name)
    ensures !HasParentInside("/" + name) && !StartsWith("/" + name, "..")
  {
    var s := "/" + name;
    assert s[0] == '/' && (|s| >= 2 ==> s[..2][0] == s[0]);
    forall k | 0 <= k <= |s| ensures !StartsWith(s[k..], "/../") {
      if k + 4 <= |s| { assert s[k..][..4][3] == s[k + 3] == name[k + 2]; }
    }
  }

  lemma {:induction false} RenamedRootDisagrees(name: string, plain: string)
    requires IsName(name) && name != ".." && Thrice(name) == plain && name != plain
    requires IsName(plain) && plain != ".." && '\0' !in plain
    ensures var root := "/" + name; IsInside(root, root) && !ReportsTraversal(root) && ReportsOutside(root, [root])
  {
    var root := "/" + name;
    OneNameRoot(name);
    OneNameRoot(plain);
    NoiseIsCalm("");
    assert Calm(name);
    CalmIsUnrevealed(root);
    UnsuspiciousDecodes(root);
    assert Mapped(Thrice, [name]) == [plain];
    NoParentInName(plain);
    assert Lex(root).names[0] == name;
    ChangedRootDisagrees(root);
  }

  /** Not every root is safe: an escaped letter in it is enough. */
  lemma {:induction false} SomeRootDisagrees()
    ensures exists root :: IsInside(root, root) && !ReportsTraversal(root) && ReportsOutside(root, [root])
  {
    EscapedLetter();
    RenamedRootDisagrees("%61", "a");
  }
}
