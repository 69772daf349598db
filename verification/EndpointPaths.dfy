/** The endpoint's paths as text: which are refused, and what lies under a root. */
module EndpointPaths {
  import opened Text
  import opened Paths
  import Endpoint
  import Utf8

  // ---- components as text ----

  /** The component stands at `b`: after a slash or the start, and up to a slash or the end. */
  predicate StandsAt(s: string, i: nat, b: nat, part: string) {
    && i <= b && b + |part| <= |s| && s[b..b + |part|] == part
    && (b == i || s[b - 1] == '/') && (b + |part| == |s| || s[b + |part|] == '/')
  }

  ghost predicate Stands(s: string, i: nat, part: string) {
    exists b: nat :: StandsAt(s, i, b, part)
  }

  lemma {:induction false} PartStands(s: string, i: nat, part: string)
    requires i <= |s| && part in SplitFrom(Endpoint.IsForwardSlash, s, i)
    ensures Stands(s, i, part)
    decreases |s| - i
  {
    var j := NextSeparator(Endpoint.IsForwardSlash, s, i);
    if part == s[i..j] {
      assert StandsAt(s, i, i, part);
    } else {
      assert j < |s|;
      PartStands(s, j + 1, part);
      var b: nat :| StandsAt(s, j + 1, b, part);
      assert StandsAt(s, i, b, part);
    }
  }

  lemma {:induction false} StandingIsPart(s: string, i: nat, b: nat, part: string)
    requires i <= |s| && FreeOf(Endpoint.IsForwardSlash, part) && StandsAt(s, i, b, part)
    ensures part in SplitFrom(Endpoint.IsForwardSlash, s, i)
    decreases |s| - i
  {
    var j := NextSeparator(Endpoint.IsForwardSlash, s, i);
    FirstOrLater(s, i, j, b, part);
    if part == s[i..j] {
      assert s[i..j] == SplitFrom(Endpoint.IsForwardSlash, s, i)[0];
    } else {
      StandingIsPart(s, j + 1, b, part);
    }
  }

  /** The components of a text are exactly what stands between its slashes. */
  lemma {:induction false} PartsStand(s: string, i: nat, part: string)
    requires i <= |s| && FreeOf(Endpoint.IsForwardSlash, part)
    ensures part in SplitFrom(Endpoint.IsForwardSlash, s, i) <==> Stands(s, i, part)
  {
    if part in SplitFrom(Endpoint.IsForwardSlash, s, i) {
      PartStands(s, i, part);
    }
    if b: nat :| StandsAt(s, i, b, part) {
      StandingIsPart(s, i, b, part);
    }
  }

  lemma {:induction false} FirstOrLater(s: string, i: nat, j: nat, b: nat, part: string)
    requires i <= j <= |s| && j == NextSeparator(Endpoint.IsForwardSlash, s, i)
    requires FreeOf(Endpoint.IsForwardSlash, part) && StandsAt(s, i, b, part)
    ensures part == s[i..j] || (j < |s| && StandsAt(s, j + 1, b, part))
  {
    var e := b + |part|;
    forall k | b <= k < e ensures s[k] != '/' {
      assert s[b..e][k - b] == part[k - b];
    }
    if b == i {
      assert e == j;
    } else {
      assert b - 1 >= j;
    }
  }

  // ---- refused paths ----

  /** The text has a parent reference between slashes, or at its end. */
  ghost predicate HasParent(path: string) {
    exists b :: 0 < b && b + 2 <= |path| && path[b - 1] == '/' && path[b] == '.' && path[b + 1] == '.'
                && (b + 2 == |path| || path[b + 2] == '/')
  }

  lemma {:induction false} NamesAreParts(parts: seq<string>, name: string)
    requires name != "" && name != "."
    ensures name in Endpoint.Names(parts) <==> name in parts
  {
    if parts != [] {
      NamesAreParts(parts[1..], name);
      assert name in parts <==> name == parts[0] || name in parts[1..];
    }
  }

  lemma {:induction false} ParentStands(path: string)
    requires path != "" && path[0] == '/'
    ensures Stands(path, 0, "..") <==> HasParent(path)
  {
    if Stands(path, 0, "..") {
      var b: nat :| StandsAt(path, 0, b, "..");
      assert path[b..b + 2][0] == '.' && path[b..b + 2][1] == '.';
      assert b > 0;
    }
    if HasParent(path) {
      var b :| 0 < b && b + 2 <= |path| && path[b - 1] == '/' && path[b] == '.' && path[b + 1] == '.'
               && (b + 2 == |path| || path[b + 2] == '/');
      assert path[b..b + 2] == "..";
      assert StandsAt(path, 0, b, "..");
    }
  }

  /** Exactly which paths are well formed, in terms of their text. */
  lemma {:induction false} WellFormedExactly(path: string)
    ensures Endpoint.WellFormed(path) <==>
            && path != "" && path[0] == '/' && '\0' !in path && |Utf8.Encode(path)| <= 16_384
            && !HasParent(path)
  {
    if path != "" && path[0] == '/' {
      var parts := Split(Endpoint.IsForwardSlash, path);
      NamesAreParts(parts, "..");
      PartsStand(path, 0, "..");
      ParentStands(path);
    }
  }

  // ---- under a root ----

  lemma {:induction false} NamesConcat(a: seq<string>, b: seq<string>)
    ensures Endpoint.Names(a + b) == Endpoint.Names(a) + Endpoint.Names(b)
  {
    if a == [] {
      assert a + b == b;
    } else {
      NamesConcat(a[1..], b);
      assert (a + b)[1..] == a[1..] + b && (a + b)[0] == a[0];
      Associative(if a[0] == "" || a[0] == "." then [] else [a[0]], Endpoint.Names(a[1..]), Endpoint.Names(b));
    }
  }

  /** Whatever is appended to a root behind a slash lies under it. */
  lemma {:induction false} BelowIsUnder(root: string, rest: string)
    ensures Endpoint.NamesOf(root + "/" + rest) == Endpoint.NamesOf(root) + Endpoint.NamesOf(rest)
    ensures Endpoint.IsUnder(root + "/" + rest, root) && Endpoint.IsUnder(root, root)
  {
    SplitConcat(Endpoint.IsForwardSlash, root, '/', rest);
    NamesConcat(Split(Endpoint.IsForwardSlash, root), Split(Endpoint.IsForwardSlash, rest));
  }

  lemma {:induction false} NextAgrees(s: string, i: nat)
    requires i <= |s| && '\\' !in s
    ensures NextSeparator(Endpoint.IsForwardSlash, s, i) == NextSeparator(IsSlash, s, i)
  {
    SeparatorFound(IsSlash, s, i, NextSeparator(Endpoint.IsForwardSlash, s, i));
  }

  lemma {:induction false} SplitsAgree(s: string, i: nat)
    requires i <= |s| && '\\' !in s
    ensures SplitFrom(Endpoint.IsForwardSlash, s, i) == SplitFrom(IsSlash, s, i)
    decreases |s| - i
  {
    NextAgrees(s, i);
    var j := NextSeparator(IsSlash, s, i);
    if j < |s| {
      SplitsAgree(s, j + 1);
    }
  }

  /** Without parent references the stack only collects names. */
  lemma {:induction false} StackCollects(parts: seq<string>, n: nat)
    requires n <= |parts| && ".." !in parts
    ensures StackOf(true, parts, n) == Endpoint.Names(parts[..n])
  {
    if n > 0 {
      StackCollects(parts, n - 1);
      assert parts[..n] == parts[..n - 1] + [parts[n - 1]];
      NamesConcat(parts[..n - 1], [parts[n - 1]]);
      assert [parts[n - 1]][1..] == [];
      assert parts[n - 1] in parts;
    }
  }

  lemma {:induction false} LexOfWellFormed(path: string)
    requires Endpoint.WellFormed(path) && '\\' !in path
    ensures Lex(path) == Lexical(true, Endpoint.NamesOf(path))
  {
    SplitsAgree(path, 0);
    var parts := Parts(path);
    NamesAreParts(parts, "..");
    StackCollects(parts, |parts|);
    assert parts[..|parts|] == parts;
  }

  /** For well-formed paths without a backslash, being under a root is lexical containment in it. */
  lemma {:induction false} UnderIsInside(path: string, root: string)
    requires Endpoint.WellFormed(path) && Endpoint.WellFormed(root) && '\\' !in path && '\\' !in root
    ensures Endpoint.IsUnder(path, root) <==> IsInside(path, root)
  {
    LexOfWellFormed(path);
    LexOfWellFormed(root);
    InsideExactly(path, root);
  }

  /** Being under some root means being under one of them, wherever it is listed. */
  lemma {:induction false} UnderAnyExactly(path: string, roots: seq<string>)
    ensures Endpoint.UnderAny(path, roots) <==> exists root :: root in roots && Endpoint.IsUnder(path, root)
  {
    if root :| root in roots && Endpoint.IsUnder(path, root) {
      var k :| 0 <= k < |roots| && roots[k] == root;
    }
    if Endpoint.UnderAny(path, roots) {
      var k :| 0 <= k < |roots| && Endpoint.IsUnder(path, roots[k]);
      assert roots[k] in roots;
    }
  }
}
