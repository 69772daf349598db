/**
 Sorting by a lexicographic rank.

 Two parts of the system sort strings: canonical JSON sorts object keys by UTF-16 code
 units, and an approval request sorts its role list. Both orders are lexicographic orders
 on a sequence of numbers read off the element, so sorting is defined once, by rank.
 */
module Ordering {
  datatype Comparison = Less | Equal | Greater

  /** Lexicographic order on number sequences; a proper prefix comes first. */
  predicate LexLe(a: seq<int>, b: seq<int>) {
    || a == []
    || (b != [] && (a[0] < b[0] || (a[0] == b[0] && LexLe(a[1..], b[1..]))))
  }

  /** At `k` the two part for the first time: `a` ends there and `b` does not, or has the smaller number. */
  ghost predicate PartsAt(a: seq<int>, b: seq<int>, k: nat) {
    && k <= |a| && k < |b| && (forall i :: 0 <= i < k ==> a[i] == b[i])
    && (k == |a| || a[k] < b[k])
  }

  ghost predicate Precedes(a: seq<int>, b: seq<int>) {
    exists k: nat :: PartsAt(a, b, k)
  }

  /** Two different sequences precede one another one way only. */
  lemma {:induction false} PrecedesOneWay(a: seq<int>, b: seq<int>)
    requires Precedes(a, b)
    ensures a != b && !Precedes(b, a)
  {
    var k: nat :| PartsAt(a, b, k);
    forall m: nat ensures !PartsAt(b, a, m) {
    }
  }

  /** The recursive order is the one that looks for the first difference. */
  lemma {:induction false} LexExactly(a: seq<int>, b: seq<int>)
    ensures LexLe(a, b) <==> a == b || Precedes(a, b)
  {
    if a == [] {
      assert b != [] ==> PartsAt(a, b, 0);
    } else if b != [] && a[0] == b[0] {
      LexExactly(a[1..], b[1..]);
      assert a == b <==> a[1..] == b[1..] by {
        assert a == [a[0]] + a[1..] && b == [b[0]] + b[1..];
      }
      if Precedes(a[1..], b[1..]) {
        var k: nat :| PartsAt(a[1..], b[1..], k);
        forall i | 0 <= i < k + 1 ensures a[i] == b[i] {
          if i > 0 { assert a[1..][i - 1] == b[1..][i - 1]; }
        }
        assert PartsAt(a, b, k + 1);
      }
      if Precedes(a, b) {
        var k: nat :| PartsAt(a, b, k);
        assert k > 0;
        assert PartsAt(a[1..], b[1..], k - 1);
      }
    } else if b != [] && a[0] < b[0] {
      assert PartsAt(a, b, 0);
    }
  }

  lemma {:induction false} LexTotal(a: seq<int>, b: seq<int>)
    ensures LexLe(a, b) || LexLe(b, a)
  {
    if a != [] && b != [] {
      LexTotal(a[1..], b[1..]);
    }
  }

  lemma {:induction false} LexAntisymmetric(a: seq<int>, b: seq<int>)
    requires LexLe(a, b) && LexLe(b, a)
    ensures a == b
  {
    if a != [] && b != [] {
      LexAntisymmetric(a[1..], b[1..]);
      assert a == [a[0]] + a[1..] && b == [b[0]] + b[1..];
    }
  }

  lemma {:induction false} LexTransitive(a: seq<int>, b: seq<int>, c: seq<int>)
    requires LexLe(a, b) && LexLe(b, c)
    ensures LexLe(a, c)
  {
    if a != [] && a[0] == b[0] == c[0] {
      LexTransitive(a[1..], b[1..], c[1..]);
    }
  }

  /** Whether every earlier element ranks no higher than every later one. */
  ghost predicate Ordered<T>(rank: T -> seq<int>, xs: seq<T>) {
    forall i, j :: 0 <= i < j < |xs| ==> LexLe(rank(xs[i]), rank(xs[j]))
  }

  /** Whether elements of the list are told apart by their rank. */
  ghost predicate Separates<T(!new)>(rank: T -> seq<int>, xs: seq<T>) {
    forall x, y :: x in xs && y in xs && rank(x) == rank(y) ==> x == y
  }

  function Insert<T>(rank: T -> seq<int>, x: T, xs: seq<T>): (r: seq<T>) {
    if xs == [] || LexLe(rank(x), rank(xs[0])) then [x] + xs
    else [xs[0]] + Insert(rank, x, xs[1..])
  }

  function SortBy<T>(rank: T -> seq<int>, xs: seq<T>): (r: seq<T>) {
    if xs == [] then [] else Insert(rank, xs[0], SortBy(rank, xs[1..]))
  }

  lemma {:induction false} InsertAdds<T>(rank: T -> seq<int>, x: T, xs: seq<T>)
    ensures multiset(Insert(rank, x, xs)) == multiset(xs) + multiset{x}
  {
    if xs != [] && !LexLe(rank(x), rank(xs[0])) {
      InsertAdds(rank, x, xs[1..]);
      assert xs == [xs[0]] + xs[1..];
    }
  }

  lemma {:induction false} InsertIsOrdered<T>(rank: T -> seq<int>, x: T, xs: seq<T>)
    requires Ordered(rank, xs)
    ensures Ordered(rank, Insert(rank, x, xs))
  {
    if xs == [] {
    } else if LexLe(rank(x), rank(xs[0])) {
      forall j | 0 < j < |xs| ensures LexLe(rank(x), rank(xs[j])) {
        LexTransitive(rank(x), rank(xs[0]), rank(xs[j]));
      }
    } else {
      InsertIsOrdered(rank, x, xs[1..]);
      InsertAdds(rank, x, xs[1..]);
      LexTotal(rank(x), rank(xs[0]));
      var tail := Insert(rank, x, xs[1..]);
      forall j | 0 <= j < |tail| ensures LexLe(rank(xs[0]), rank(tail[j])) {
        assert tail[j] in multiset(tail);
        assert tail[j] == x || tail[j] in xs[1..];
      }
    }
  }

  /** `SortBy` yields an ordered rearrangement of its input. */
  lemma {:induction false} SortByOrders<T>(rank: T -> seq<int>, xs: seq<T>)
    ensures Ordered(rank, SortBy(rank, xs))
    ensures multiset(SortBy(rank, xs)) == multiset(xs)
  {
    if xs != [] {
      SortByOrders(rank, xs[1..]);
      InsertIsOrdered(rank, xs[0], SortBy(rank, xs[1..]));
      InsertAdds(rank, xs[0], SortBy(rank, xs[1..]));
      assert xs == [xs[0]] + xs[1..];
    }
  }

  lemma {:induction false} SameMultisetSameMembers<T>(xs: seq<T>, ys: seq<T>, x: T)
    requires multiset(xs) == multiset(ys)
    ensures x in xs <==> x in ys
  {
    assert x in xs <==> x in multiset(xs);
  }

  lemma {:induction false} HeadsAgree<T(!new)>(rank: T -> seq<int>, xs: seq<T>, ys: seq<T>)
    requires Ordered(rank, xs) && Ordered(rank, ys) && Separates(rank, xs)
    requires multiset(xs) == multiset(ys) && xs != [] && ys != []
    ensures xs[0] == ys[0]
  {
    SameMultisetSameMembers(xs, ys, xs[0]);
    SameMultisetSameMembers(xs, ys, ys[0]);
    LeastFirst(rank, xs, ys[0]);
    LeastFirst(rank, ys, xs[0]);
    LexAntisymmetric(rank(xs[0]), rank(ys[0]));
  }

  lemma {:induction false} TailMultiset<T>(xs: seq<T>)
    requires xs != []
    ensures multiset(xs[1..]) == multiset(xs) - multiset{xs[0]}
  {
    assert xs == [xs[0]] + xs[1..];
  }

  /** An ordered list whose elements differ in rank is determined by what it holds. */
  lemma {:induction false} OrderedIsUnique<T(!new)>(rank: T -> seq<int>, xs: seq<T>, ys: seq<T>)
    requires Ordered(rank, xs) && Ordered(rank, ys)
    requires Separates(rank, xs)
    requires multiset(xs) == multiset(ys)
    ensures xs == ys
  {
    assert |xs| == |multiset(xs)| == |multiset(ys)| == |ys|;
    if xs != [] {
      HeadsAgree(rank, xs, ys);
      TailMultiset(xs);
      TailMultiset(ys);
      OrderedIsUnique(rank, xs[1..], ys[1..]);
    }
  }

  lemma {:induction false} LeastFirst<T>(rank: T -> seq<int>, xs: seq<T>, x: T)
    requires Ordered(rank, xs) && x in xs
    ensures LexLe(rank(xs[0]), rank(x))
  {
    var j :| 0 <= j < |xs| && xs[j] == x;
    LexReflexive(rank(x));
  }

  lemma {:induction false} LexReflexive(a: seq<int>)
    ensures LexLe(a, a)
  {
    if a != [] {
      LexReflexive(a[1..]);
    }
  }

  ghost predicate NoRepeats<T>(xs: seq<T>) {
    forall i, j :: 0 <= i < j < |xs| ==> xs[i] != xs[j]
  }

  lemma {:induction false} NoRepeatsCounts<T>(xs: seq<T>, x: T)
    requires NoRepeats(xs)
    ensures multiset(xs)[x] == if x in xs then 1 else 0
  {
    if xs != [] {
      NoRepeatsCounts(xs[1..], x);
      assert xs == [xs[0]] + xs[1..];
    }
  }

  lemma {:induction false} CountsGiveNoRepeats<T>(xs: seq<T>)
    requires forall x :: x in xs ==> multiset(xs)[x] == 1
    ensures NoRepeats(xs)
  {
    forall i, j | 0 <= i < j < |xs| ensures xs[i] != xs[j] {
      var a, b := xs[..j], xs[j..];
      assert xs == a + b;
      assert xs[i] in a && xs[j] in b && xs[i] in multiset(a) && xs[j] in multiset(b);
      assert multiset(xs)[xs[j]] == multiset(a)[xs[j]] + multiset(b)[xs[j]];
    }
  }

  /** Lists without repeats, of one length and with the elements of one among the other's. */
  lemma {:induction false} SameMembersSameMultiset<T>(xs: seq<T>, ys: seq<T>)
    requires NoRepeats(xs) && |xs| == |ys|
    requires forall x :: x in xs ==> x in ys
    ensures multiset(xs) == multiset(ys)
  {
    forall x ensures multiset(xs)[x] <= multiset(ys)[x] {
      NoRepeatsCounts(xs, x);
      assert x in ys ==> x in multiset(ys);
    }
    assert multiset(xs) <= multiset(ys);
    var missing := multiset(ys) - multiset(xs);
    assert multiset(ys) == multiset(xs) + missing;
    assert |missing| == 0;
  }
}
