/** Combining the images of a list's elements by a commutative operation. */
module Folds {
  ghost predicate Unital<R>(op: (R, R) -> R, unit: R, x: R) { op(unit, x) == x && op(x, unit) == x }

  ghost predicate Commutes<R>(op: (R, R) -> R, x: R, y: R) { op(x, y) == op(y, x) }

  ghost predicate Associates<R>(op: (R, R) -> R, x: R, y: R, z: R) { op(x, op(y, z)) == op(op(x, y), z) }

  ghost predicate Lawful<R(!new)>(op: (R, R) -> R, unit: R) {
    && (forall x :: Unital(op, unit, x)) && (forall x, y :: Commutes(op, x, y))
    && (forall x, y, z :: Associates(op, x, y, z))
  }

  function Fold<T, R>(op: (R, R) -> R, unit: R, f: T -> R, xs: seq<T>): (r: R) {
    if xs == [] then unit else op(f(xs[0]), Fold(op, unit, f, xs[1..]))
  }

  lemma {:induction false} FoldConcat<T, R(!new)>(op: (R, R) -> R, unit: R, f: T -> R, a: seq<T>, b: seq<T>)
    requires Lawful(op, unit)
    ensures Fold(op, unit, f, a + b) == op(Fold(op, unit, f, a), Fold(op, unit, f, b))
  {
    if a == [] {
      assert a + b == b;
      assert Unital(op, unit, Fold(op, unit, f, b));
    } else {
      FoldConcat(op, unit, f, a[1..], b);
      assert (a + b)[1..] == a[1..] + b;
      assert Associates(op, f(a[0]), Fold(op, unit, f, a[1..]), Fold(op, unit, f, b));
    }
  }

  lemma {:induction false} FoldOne<T, R(!new)>(op: (R, R) -> R, unit: R, f: T -> R, x: T)
    requires Lawful(op, unit)
    ensures Fold(op, unit, f, [x]) == f(x)
  {
    assert Unital(op, unit, f(x));
    assert [x][1..] == [];
  }

  /** Any element may be taken out first. */
  lemma {:induction false} FoldFactor<T, R(!new)>(op: (R, R) -> R, unit: R, f: T -> R, a: seq<T>, x: T, b: seq<T>)
    requires Lawful(op, unit)
    ensures Fold(op, unit, f, a + [x] + b) == op(f(x), Fold(op, unit, f, a + b))
  {
    var fa, fb := Fold(op, unit, f, a), Fold(op, unit, f, b);
    FoldConcat(op, unit, f, a + [x], b);
    FoldConcat(op, unit, f, a, [x]);
    FoldOne(op, unit, f, x);
    FoldConcat(op, unit, f, a, b);
    assert Commutes(op, fa, f(x)) && Associates(op, f(x), fa, fb);
  }

  lemma {:induction false} Cancel<T>(a: multiset<T>, b: multiset<T>, c: multiset<T>)
    requires a + b == a + c
    ensures b == c
  {
    assert b == (a + b) - a && c == (a + c) - a;
  }

  lemma {:induction false} TakeOut<T>(xs: seq<T>, ys: seq<T>) returns (k: nat)
    requires xs != [] && multiset(xs) == multiset(ys)
    ensures k < |ys| && ys[k] == xs[0] && multiset(xs[1..]) == multiset(ys[..k] + ys[k + 1..])
  {
    assert xs[0] in multiset(ys);
    k :| 0 <= k < |ys| && ys[k] == xs[0];
    assert ys == ys[..k] + [ys[k]] + ys[k + 1..];
    assert xs == [xs[0]] + xs[1..];
    Cancel(multiset{xs[0]}, multiset(xs[1..]), multiset(ys[..k] + ys[k + 1..]));
  }

  /** The result does not depend on the order of the elements. */
  lemma {:induction false} FoldIgnoresOrder<T, R(!new)>(op: (R, R) -> R, unit: R, f: T -> R, xs: seq<T>, ys: seq<T>)
    requires Lawful(op, unit) && multiset(xs) == multiset(ys)
    ensures Fold(op, unit, f, xs) == Fold(op, unit, f, ys)
    decreases |xs|
  {
    if xs == [] {
      assert |multiset(ys)| == 0;
    } else {
      var k := TakeOut(xs, ys);
      FoldIgnoresOrder(op, unit, f, xs[1..], ys[..k] + ys[k + 1..]);
      FoldFactor(op, unit, f, ys[..k], ys[k], ys[k + 1..]);
      assert ys == ys[..k] + [ys[k]] + ys[k + 1..];
    }
  }
}
