/** Lexical paths: normalization by a stack of components, and containment in a root. */
module Paths {
  import opened Text

  /** Both slashes separate. */
  predicate IsSlash(c: char) { c == '/' || c == '\\' }

  function Parts(s: string): (parts: seq<string>)
    ensures parts != []
  {
    Split(IsSlash, s)
  }

  predicate Absolute(s: string) { s != "" && IsSlash(s[0]) }

  /** A path without noise: where it starts and the names that follow. */
  datatype Lexical = Lexical(absolute: bool, names: seq<string>)

  /** One component against the stack. A parent reference that escapes a relative path is kept. */
  function Resolve(absolute: bool, stack: seq<string>, c: string): seq<string> {
    if c == "" || c == "." then stack
    else if c == ".." then
      if stack != [] && stack[|stack| - 1] != ".." then stack[..|stack| - 1]
      else if absolute then stack else stack + [".."]
    else stack + [c]
  }

  function StackOf(absolute: bool, parts: seq<string>, n: nat): seq<string>
    requires n <= |parts|
  {
    if n == 0 then [] else Resolve(absolute, StackOf(absolute, parts, n - 1), parts[n - 1])
  }

  function Lex(s: string): Lexical {
    Lexical(Absolute(s), StackOf(Absolute(s), Parts(s), |Parts(s)|))
  }

  function JoinNames(names: seq<string>): string {
    if names == [] then "" else Join(names, '/')
  }

  function Show(p: Lexical): string {
    if p.absolute then "/" + JoinNames(p.names)
    else if JoinNames(p.names) == "" then "."
    else JoinNames(p.names)
  }

  method Normalize(path: string) returns (r: string)
    ensures r == Show(Lex(path))
  {
    var absolute := path != "" && (path[0] == '/' || path[0] == '\\');
    var parts := Split(IsSlash, path);
    var stack: seq<string> := [];
    for i := 0 to |parts|
      invariant stack == StackOf(absolute, parts, i)
    {
      var c := parts[i];
      if c == "" || c == "." {
      } else if c == ".." {
        if stack != [] && stack[|stack| - 1] != ".." {
          stack := stack[..|stack| - 1];
        } else if !absolute {
          stack := stack + [".."];
        }
      } else {
        stack := stack + [c];
      }
    }
    var joined := JoinNames(stack);
    if absolute {
      return "/" + joined;
    }
    return if joined == "" then "." else joined;
  }

  // ---- normal form ----

  predicate IsName(c: string) { c != "" && c != "." && FreeOf(IsSlash, c) }

  /** Only names, and parent references only in front of a relative path. */
  predicate IsNormal(p: Lexical) {
    && (forall k :: 0 <= k < |p.names| ==> IsName(p.names[k]))
    && (forall k :: 0 <= k < |p.names| && p.names[k] == ".." ==>
          !p.absolute && forall j :: 0 <= j < k ==> p.names[j] == "..")
  }

  lemma {:induction false} StackIsNormal(absolute: bool, parts: seq<string>, n: nat)
    requires n <= |parts| && forall k :: 0 <= k < |parts| ==> FreeOf(IsSlash, parts[k])
    ensures IsNormal(Lexical(absolute, StackOf(absolute, parts, n)))
  {
    if n > 0 {
      StackIsNormal(absolute, parts, n - 1);
      assert FreeOf(IsSlash, "..");
    }
  }

  /** The result of normalizing is in normal form. */
  lemma {:induction false} LexIsNormal(s: string)
    ensures IsNormal(Lex(s))
  {
    PartsAreFree(IsSlash, s, 0);
    StackIsNormal(Absolute(s), Parts(s), |Parts(s)|);
  }

  lemma {:induction false} PartsOfJoin(names: seq<string>)
    requires names != [] && forall k :: 0 <= k < |names| ==> FreeOf(IsSlash, names[k])
    ensures Parts(Join(names, '/')) == names
  {
    if |names| == 1 {
      SplitOne(IsSlash, names[0]);
    } else {
      PartsOfJoin(names[1..]);
      SplitStep(IsSlash, names[0], '/', Join(names[1..], '/'));
      assert names == [names[0]] + names[1..];
    }
  }

  lemma {:induction false} PartsOfRooted(s: string)
    ensures Parts("/" + s) == [""] + Parts(s)
  {
    SplitStep(IsSlash, "", '/', s);
    assert "" + ['/'] + s == "/" + s;
  }

  lemma {:induction false} JoinIsNonempty(names: seq<string>)
    requires names != [] && names[0] != ""
    ensures Join(names, '/') != "" && Join(names, '/')[0] == names[0][0]
  {
  }

  /** The components of a shown path. */
  lemma {:induction false} PartsOfShown(p: Lexical)
    requires IsNormal(p)
    ensures Parts(Show(p)) == if p.absolute then [""] + (if p.names == [] then [""] else p.names)
                              else if p.names == [] then ["."] else p.names
    ensures Absolute(Show(p)) == p.absolute
  {
    SplitOne(IsSlash, "");
    SplitOne(IsSlash, ".");
    if p.names != [] {
      PartsOfJoin(p.names);
      JoinIsNonempty(p.names);
    }
    if p.absolute {
      PartsOfRooted(JoinNames(p.names));
    }
  }

  lemma {:induction false} NormalStack(p: Lexical, parts: seq<string>, d: nat, n: nat)
    requires IsNormal(p) && d <= |parts| && n <= |p.names| == |parts| - d
    requires forall k :: 0 <= k < d ==> parts[k] == "" || parts[k] == "."
    requires forall k :: 0 <= k < |p.names| ==> parts[k + d] == p.names[k]
    ensures StackOf(p.absolute, parts, d + n) == p.names[..n]
    decreases d + n
  {
    if n > 0 {
      NormalStack(p, parts, d, n - 1);
      assert p.names[..n] == p.names[..n - 1] + [p.names[n - 1]];
    } else if d > 0 {
      NoiseIsNothing(p.absolute, parts, d);
    }
  }

  lemma {:induction false} NoiseIsNothing(absolute: bool, parts: seq<string>, d: nat)
    requires d <= |parts| && forall k :: 0 <= k < d ==> parts[k] == "" || parts[k] == "."
    ensures StackOf(absolute, parts, d) == []
  {
    if d > 0 {
      NoiseIsNothing(absolute, parts, d - 1);
    }
  }

  /** Reading a shown normal path gives it back. */
  lemma {:induction false} ShownReadsBack(p: Lexical)
    requires IsNormal(p)
    ensures Lex(Show(p)) == p
  {
    PartsOfShown(p);
    var parts := Parts(Show(p));
    if p.names == [] {
      NoiseIsNothing(p.absolute, parts, |parts|);
    } else {
      NormalStack(p, parts, if p.absolute then 1 else 0, |p.names|);
    }
  }

  /** Normalizing twice changes nothing. */
  lemma {:induction false} NormalizeIsIdempotent(s: string)
    ensures Show(Lex(Show(Lex(s)))) == Show(Lex(s))
  {
    LexIsNormal(s);
    ShownReadsBack(Lex(s));
  }

  // ---- meaning ----

  /** From a directory through one component; the parent of the root is the root. */
  function Enter(dir: seq<string>, c: string): seq<string> {
    if c == "" || c == "." then dir
    else if c == ".." then if dir == [] then [] else dir[..|dir| - 1]
    else dir + [c]
  }

  function Walk(from: seq<string>, parts: seq<string>, n: nat): seq<string>
    requires n <= |parts|
  {
    if n == 0 then from else Enter(Walk(from, parts, n - 1), parts[n - 1])
  }

  /** The directory a path leads to, starting at `start`. */
  function Reach(start: seq<string>, s: string): seq<string> {
    Walk(if Absolute(s) then [] else start, Parts(s), |Parts(s)|)
  }

  lemma {:induction false} WalkOfPrefix(from: seq<string>, parts: seq<string>, more: seq<string>, n: nat)
    requires n <= |parts| && parts <= more
    ensures Walk(from, parts, n) == Walk(from, more, n)
  {
    if n > 0 {
      WalkOfPrefix(from, parts, more, n - 1);
    }
  }

  /** No noise in the stack, and no parent reference behind a root. */
  predicate Settled(absolute: bool, stack: seq<string>) {
    "" !in stack && "." !in stack && (absolute ==> ".." !in stack)
  }

  lemma {:induction false} ResolveLeads(absolute: bool, from: seq<string>, stack: seq<string>, c: string)
    requires Settled(absolute, stack) && (absolute ==> from == [])
    ensures var more := Resolve(absolute, stack, c); Walk(from, more, |more|) == Enter(Walk(from, stack, |stack|), c)
  {
    var more := Resolve(absolute, stack, c);
    if |more| > |stack| {
      WalkOfPrefix(from, stack, more, |stack|);
    } else if |more| < |stack| {
      WalkOfPrefix(from, more, stack, |more|);
      assert stack[|more|] in stack;
    }
  }

  /** The stack leads where the components led. */
  lemma {:induction false} StackLeadsThere(absolute: bool, from: seq<string>, parts: seq<string>, n: nat)
    requires n <= |parts| && (absolute ==> from == [])
    ensures var stack := StackOf(absolute, parts, n); Walk(from, stack, |stack|) == Walk(from, parts, n)
    ensures Settled(absolute, StackOf(absolute, parts, n))
  {
    if n > 0 {
      StackLeadsThere(absolute, from, parts, n - 1);
      ResolveLeads(absolute, from, StackOf(absolute, parts, n - 1), parts[n - 1]);
    }
  }

  lemma {:induction false} NoiseLeadsNowhere(from: seq<string>, parts: seq<string>, d: nat)
    requires d <= |parts| && forall k :: 0 <= k < d ==> parts[k] == "" || parts[k] == "."
    ensures Walk(from, parts, d) == from
  {
    if d > 0 {
      NoiseLeadsNowhere(from, parts, d - 1);
    }
  }

  lemma {:induction false} WalkSkips(from: seq<string>, names: seq<string>, parts: seq<string>, d: nat, n: nat)
    requires d <= |parts| && n <= |names| == |parts| - d
    requires forall k :: 0 <= k < d ==> parts[k] == "" || parts[k] == "."
    requires forall k :: 0 <= k < |names| ==> parts[k + d] == names[k]
    ensures Walk(from, parts, d + n) == Walk(from, names, n)
  {
    if n > 0 {
      WalkSkips(from, names, parts, d, n - 1);
    } else {
      NoiseLeadsNowhere(from, parts, d);
    }
  }

  lemma {:induction false} PartsLead(from: seq<string>, absolute: bool, names: seq<string>, parts: seq<string>)
    requires parts == if absolute then [""] + (if names == [] then [""] else names)
                      else if names == [] then ["."] else names
    ensures Walk(from, parts, |parts|) == Walk(from, names, |names|)
  {
    if names == [] {
      NoiseLeadsNowhere(from, parts, |parts|);
    } else {
      WalkSkips(from, names, parts, if absolute then 1 else 0, |names|);
    }
  }

  lemma {:induction false} ShownLeads(start: seq<string>, p: Lexical)
    requires IsNormal(p)
    ensures Reach(start, Show(p)) == Walk(if p.absolute then [] else start, p.names, |p.names|)
  {
    PartsOfShown(p);
    PartsLead(if p.absolute then [] else start, p.absolute, p.names, Parts(Show(p)));
  }

  /** From every start directory, a path and its normalization lead to the same place. */
  lemma {:induction false} NormalizeKeepsMeaning(start: seq<string>, s: string)
    ensures Reach(start, Show(Lex(s))) == Reach(start, s)
  {
    LexIsNormal(s);
    ShownLeads(start, Lex(s));
    StackLeadsThere(Absolute(s), if Absolute(s) then [] else start, Parts(s), |Parts(s)|);
  }

  lemma {:induction false} NamesLeadToThemselves(names: seq<string>, n: nat)
    requires n <= |names| && forall k :: 0 <= k < |names| ==> IsName(names[k]) && names[k] != ".."
    ensures Walk([], names, n) == names[..n]
  {
    if n > 0 {
      NamesLeadToThemselves(names, n - 1);
      assert names[..n] == names[..n - 1] + [names[n - 1]];
    }
  }

  /** The names of an absolute path are the directory it leads to. */
  lemma {:induction false} AbsoluteNamesAreThePlace(start: seq<string>, s: string)
    requires Absolute(s)
    ensures Reach(start, s) == Lex(s).names
  {
    var names := Lex(s).names;
    LexIsNormal(s);
    StackLeadsThere(true, [], Parts(s), |Parts(s)|);
    NamesLeadToThemselves(names, |names|);
    assert names[..|names|] == names;
  }

  // ---- containment ----

  predicate StartsWith(s: string, prefix: string) {
    |prefix| <= |s| && s[..|prefix|] == prefix
  }

  function TrimEnd(s: string): string {
    if s != "" && s[|s| - 1] == '/' then TrimEnd(s[..|s| - 1]) else s
  }

  /** Equal to the root, or beyond it behind a separator. */
  predicate IsInside(path: string, root: string) {
    var n, r := Show(Lex(path)), TrimEnd(Show(Lex(root)));
    n == r || StartsWith(n, r + "/")
  }

  predicate IsInsideAny(path: string, roots: seq<string>) {
    exists k :: 0 <= k < |roots| && IsInside(path, roots[k])
  }

  /** The root's names begin the path's. The relative root `.` holds only itself. */
  predicate Holds(root: Lexical, p: Lexical) {
    && root.absolute == p.absolute
    && if !root.absolute && root.names == [] then p.names == [] else root.names <= p.names
  }

  lemma {:induction false} JoinConcat(a: seq<string>, b: seq<string>)
    requires a != [] && b != []
    ensures Join(a + b, '/') == Join(a, '/') + "/" + Join(b, '/')
  {
    if |a| == 1 {
      assert (a + b)[1..] == b;
    } else {
      JoinConcat(a[1..], b);
      assert (a + b)[1..] == a[1..] + b;
      Regroup(a[0], Join(a[1..], '/'), Join(b, '/'));
    }
  }

  lemma {:induction false} Regroup(a: string, b: string, c: string)
    ensures a + "/" + (b + "/" + c) == (a + "/" + b) + "/" + c
  {
  }

  lemma {:induction false} JoinEndsInName(names: seq<string>)
    requires names != [] && forall k :: 0 <= k < |names| ==> IsName(names[k])
    ensures var s := Join(names, '/'); s != "" && s[|s| - 1] != '/'
  {
    if |names| > 1 {
      JoinEndsInName(names[1..]);
    }
  }

  /** Only the root directory itself loses its slash. */
  lemma {:induction false} TrimmedRoot(p: Lexical)
    requires IsNormal(p)
    ensures TrimEnd(Show(p)) == if p.absolute && p.names == [] then "" else Show(p)
  {
    if p.names != [] {
      JoinEndsInName(p.names);
    }
  }

  lemma {:induction false} PrefixParts(s: string, r: string)
    requires StartsWith(s, r + "/")
    ensures Parts(r) < Parts(s)
  {
    var rest := s[|r| + 1..];
    assert s == r + "/" + rest;
    SplitConcat(IsSlash, r, '/', rest);
  }

  lemma {:induction false} LongerShows(root: Lexical, p: Lexical)
    requires IsNormal(root) && IsNormal(p) && root.absolute == p.absolute && root.names != [] && root.names < p.names
    ensures StartsWith(Show(p), Show(root) + "/")
  {
    var tail := p.names[|root.names|..];
    assert p.names == root.names + tail;
    JoinConcat(root.names, tail);
    JoinIsNonempty(root.names);
    var front := Show(root) + "/";
    assert Show(p) == front + Join(tail, '/');
    assert Show(p)[..|front|] == front;
  }

  lemma {:induction false} HeldIsInside(root: Lexical, p: Lexical)
    requires IsNormal(root) && IsNormal(p) && Holds(root, p)
    ensures var n, r := Show(p), TrimEnd(Show(root)); n == r || StartsWith(n, r + "/")
  {
    TrimmedRoot(root);
    if root.names != [] && root.names < p.names {
      LongerShows(root, p);
    } else if root.absolute && root.names == [] {
      assert Show(p)[..1] == "/" == "" + "/";
    } else {
      assert root.names == p.names;
    }
  }

  lemma {:induction false} InsideIsHeld(root: Lexical, p: Lexical)
    requires IsNormal(root) && IsNormal(p)
    requires var n, r := Show(p), TrimEnd(Show(root)); n == r || StartsWith(n, r + "/")
    ensures Holds(root, p)
  {
    TrimmedRoot(root);
    PartsOfShown(p);
    PartsOfShown(root);
    if root.absolute && root.names == [] {
      assert Show(p)[0] == '/';
    } else if Show(p) == Show(root) {
      ShownReadsBack(p);
      ShownReadsBack(root);
    } else {
      PrefixParts(Show(p), Show(root));
      assert Parts(Show(p))[0] == Parts(Show(root))[0];
      PrefixNames(root, p);
    }
  }

  lemma {:induction false} PrefixNames(root: Lexical, p: Lexical)
    requires IsNormal(root) && IsNormal(p) && !(root.absolute && root.names == [])
    requires Parts(Show(root)) < Parts(Show(p))
    ensures Holds(root, p)
  {
    PartsOfShown(p);
    PartsOfShown(root);
    var a, b := Parts(Show(root)), Parts(Show(p));
    assert a[0] == b[0];
    if root.absolute {
      assert p.absolute;
      assert root.names == a[1..] && p.names != [] && p.names == b[1..];
    } else {
      assert !p.absolute;
    }
  }

  /** A path is judged inside a root exactly when the root's names begin its own. */
  lemma {:induction false} InsideExactly(path: string, root: string)
    ensures IsInside(path, root) <==> Holds(Lex(root), Lex(path))
  {
    LexIsNormal(path);
    LexIsNormal(root);
    if Holds(Lex(root), Lex(path)) {
      HeldIsInside(Lex(root), Lex(path));
    }
    if IsInside(path, root) {
      InsideIsHeld(Lex(root), Lex(path));
    }
  }

  /**
   For absolute roots: a path is inside one of them exactly when it is absolute and the place
   some root leads to lies on the way to the place it leads to.
   */
  lemma {:induction false} InsideAbsoluteRoots(path: string, roots: seq<string>, start: seq<string>)
    requires forall k :: 0 <= k < |roots| ==> Absolute(roots[k])
    ensures IsInsideAny(path, roots) <==>
            Absolute(path) && exists k :: 0 <= k < |roots| && Reach(start, roots[k]) <= Reach(start, path)
  {
    forall k | 0 <= k < |roots|
      ensures IsInside(path, roots[k]) <==> Absolute(path) && Reach(start, roots[k]) <= Reach(start, path)
    {
      InsideExactly(path, roots[k]);
      AbsoluteNamesAreThePlace(start, roots[k]);
      if Absolute(path) {
        AbsoluteNamesAreThePlace(start, path);
      }
    }
  }
}
