/** Splitting text at separator characters. */
module Text {
  /** The part of `s` from `i` up to the next separator, and that separator's place. */
  function NextSeparator(separates: char -> bool, s: string, i: nat): (j: nat)
    requires i <= |s|
    ensures i <= j <= |s|
    ensures forall k :: i <= k < j ==> !separates(s[k])
    ensures j < |s| ==> separates(s[j])
    decreases |s| - i
  {
    if i == |s| || separates(s[i]) then i else NextSeparator(separates, s, i + 1)
  }

  /** The parts of `s` from `i` on; one more than there are separators. */
  function SplitFrom(separates: char -> bool, s: string, i: nat): (parts: seq<string>)
    requires i <= |s|
    ensures parts != []
    decreases |s| - i
  {
    var j := NextSeparator(separates, s, i);
    if j == |s| then [s[i..]] else [s[i..j]] + SplitFrom(separates, s, j + 1)
  }

  function Split(separates: char -> bool, s: string): (parts: seq<string>) {
    SplitFrom(separates, s, 0)
  }

  predicate FreeOf(separates: char -> bool, s: string) {
    forall k :: 0 <= k < |s| ==> !separates(s[k])
  }

  function Join(parts: seq<string>, separator: char): string
    requires parts != []
  {
    if |parts| == 1 then parts[0] else parts[0] + [separator] + Join(parts[1..], separator)
  }

  /** Every part is free of separators. */
  lemma {:induction false} PartsAreFree(separates: char -> bool, s: string, i: nat)
    requires i <= |s|
    ensures forall k :: 0 <= k < |SplitFrom(separates, s, i)| ==> FreeOf(separates, SplitFrom(separates, s, i)[k])
    decreases |s| - i
  {
    var j := NextSeparator(separates, s, i);
    if j < |s| {
      PartsAreFree(separates, s, j + 1);
    }
  }

  /** Joining the parts with the only separator gives the text back. */
  lemma {:induction false} JoinUndoesSplit(separates: char -> bool, separator: char, s: string, i: nat)
    requires i <= |s| && forall c :: separates(c) <==> c == separator
    ensures Join(SplitFrom(separates, s, i), separator) == s[i..]
    decreases |s| - i
  {
    var j := NextSeparator(separates, s, i);
    if j < |s| {
      JoinUndoesSplit(separates, separator, s, j + 1);
      assert s[i..] == s[i..j] + [separator] + s[j + 1..];
    }
  }

  lemma {:induction false} SeparatorFound(separates: char -> bool, s: string, i: nat, j: nat)
    requires i <= j <= |s| && (forall k :: i <= k < j ==> !separates(s[k])) && (j < |s| ==> separates(s[j]))
    ensures NextSeparator(separates, s, i) == j
    decreases j - i
  {
    if i < j {
      SeparatorFound(separates, s, i + 1, j);
    }
  }

  lemma {:induction false} NextIsLocal(separates: char -> bool, t: string, d: nat, i: nat, k: nat)
    requires i + d == k <= |t|
    ensures NextSeparator(separates, t[d..], i) + d == NextSeparator(separates, t, k)
    decreases |t| - i
  {
    if k < |t| && !separates(t[k]) {
      NextIsLocal(separates, t, d, i + 1, k + 1);
    }
  }

  predicate SplitsAlike(separates: char -> bool, s: string, i: nat, t: string, k: nat)
    requires i <= |s| && k <= |t|
  {
    SplitFrom(separates, s, i) == SplitFrom(separates, t, k)
  }

  /** Texts with the same part at hand and the same parts after it. */
  lemma {:induction false} SplitAlike(separates: char -> bool, s: string, i: nat, j: nat, t: string, k: nat, l: nat)
    requires i <= |s| && k <= |t| && j == NextSeparator(separates, s, i) && l == NextSeparator(separates, t, k)
    requires s[i..j] == t[k..l] && (j < |s| <==> l < |t|)
    requires j < |s| ==> SplitsAlike(separates, s, j + 1, t, l + 1)
    ensures SplitsAlike(separates, s, i, t, k)
  {
    if j == |s| {
      assert s[i..j] == s[i..] && t[k..l] == t[k..];
    }
  }

  lemma {:induction false} SliceOfRest(t: string, d: nat, i: nat, j: nat)
    requires i <= j && j + d <= |t|
    ensures t[d..][i..j] == t[i + d..j + d]
  {
  }

  /** What follows position `d` splits the same whatever stands before it. */
  lemma {:induction false} SplitIsLocal(separates: char -> bool, t: string, d: nat, i: nat, k: nat)
    requires i + d == k <= |t|
    ensures SplitsAlike(separates, t[d..], i, t, k)
    decreases |t| - i
  {
    var s := t[d..];
    var j, l := NextSeparator(separates, s, i), NextSeparator(separates, t, k);
    NextIsLocal(separates, t, d, i, k);
    SliceOfRest(t, d, i, j);
    if j < |s| {
      SplitIsLocal(separates, t, d, j + 1, l + 1);
    }
    SplitAlike(separates, s, i, j, t, k, l);
  }

  /** A free part, a separator and more text split into that part and the parts of the rest. */
  lemma {:induction false} SplitStep(separates: char -> bool, part: string, separator: char, rest: string)
    requires FreeOf(separates, part) && separates(separator)
    ensures Split(separates, part + [separator] + rest) == [part] + Split(separates, rest)
  {
    var s := part + [separator] + rest;
    SeparatorFound(separates, s, 0, |part|);
    assert s[|part| + 1..] == rest;
    SplitIsLocal(separates, s, |part| + 1, 0, |part| + 1);
    assert s[0..|part|] == part;
  }

  lemma {:induction false} SplitOne(separates: char -> bool, part: string)
    requires FreeOf(separates, part)
    ensures Split(separates, part) == [part]
  {
    SeparatorFound(separates, part, 0, |part|);
  }

  lemma {:induction false} Associative<T>(a: seq<T>, b: seq<T>, c: seq<T>)
    ensures a + (b + c) == (a + b) + c
  {
  }

  /** A separator cuts the parts in two. */
  lemma {:induction false} SplitCut(separates: char -> bool, x: string, s: string, i: nat)
    requires i <= |x| < |s| && separates(s[|x|]) && forall k :: 0 <= k < |x| ==> x[k] == s[k]
    ensures SplitFrom(separates, s, i) == SplitFrom(separates, x, i) + SplitFrom(separates, s, |x| + 1)
    decreases |x| - i
  {
    var j := NextSeparator(separates, x, i);
    SeparatorFound(separates, s, i, j);
    assert s[i..j] == x[i..j];
    if j < |x| {
      SplitCut(separates, x, s, j + 1);
      Associative([x[i..j]], SplitFrom(separates, x, j + 1), SplitFrom(separates, s, |x| + 1));
    } else {
      assert x[i..j] == x[i..];
    }
  }

  lemma {:induction false} SplitAt(separates: char -> bool, x: string, rest: string, s: string)
    requires |s| == |x| + 1 + |rest| && separates(s[|x|])
    requires (forall k :: 0 <= k < |x| ==> x[k] == s[k]) && forall k :: 0 <= k < |rest| ==> rest[k] == s[k + (|x| + 1)]
    ensures Split(separates, s) == Split(separates, x) + Split(separates, rest)
  {
    SplitCut(separates, x, s, 0);
    assert s[|x| + 1..] == rest;
    SplitIsLocal(separates, s, |x| + 1, 0, |x| + 1);
  }

  lemma {:induction false} SplitConcat(separates: char -> bool, x: string, separator: char, rest: string)
    requires separates(separator)
    ensures Split(separates, x + [separator] + rest) == Split(separates, x) + Split(separates, rest)
  {
    SplitAt(separates, x, rest, x + [separator] + rest);
  }
}
