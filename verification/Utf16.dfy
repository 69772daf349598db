/**
 UTF-16 code units of a string, and the order they induce.

 A character is a Unicode scalar value, so no character is itself a surrogate: that is what
 makes the code-unit sequence of a string determine the string.
 */
module Utf16 {
  import opened Ordering

  /** One unit, or a high and a low surrogate with ten bits of the character each. */
  function CharUnits(c: char): (units: seq<int>)
    ensures |units| == 1 ==> c as int == units[0] < 0x1_0000
    ensures |units| == 2 ==> 0xD800 <= units[0] < 0xDC00 <= units[1] < 0xE000
    ensures |units| == 2 ==> c as int == 0x1_0000 + (units[0] - 0xD800) * 0x400 + (units[1] - 0xDC00)
    ensures 1 <= |units| <= 2
  {
    var n := c as int;
    if n < 0x1_0000 then [n]
    else [0xD800 + (n - 0x1_0000) / 0x400, 0xDC00 + (n - 0x1_0000) % 0x400]
  }

  function Units(s: string): (units: seq<int>) {
    if s == [] then [] else CharUnits(s[0]) + Units(s[1..])
  }

  /** Two non-empty unit sequences that agree begin with the same character. */
  lemma {:induction false} FirstCharDetermined(c: char, d: char, cs: seq<int>, ds: seq<int>)
    requires CharUnits(c) + cs == CharUnits(d) + ds
    ensures c == d && cs == ds
  {
    var us, vs := CharUnits(c), CharUnits(d);
    assert (us + cs)[0] == us[0] && (vs + ds)[0] == vs[0];
    assert us[0] == vs[0];
    assert |us| == |vs|;
    if |us| == 2 {
      assert (us + cs)[1] == us[1] && (vs + ds)[1] == vs[1];
      assert us[1] == vs[1];
      var m, n := c as int - 0x1_0000, d as int - 0x1_0000;
      assert m == 0x400 * (m / 0x400) + m % 0x400;
      assert n == 0x400 * (n / 0x400) + n % 0x400;
      assert c as int == d as int;
    }
    assert cs == (us + cs)[|us|..] && ds == (vs + ds)[|vs|..];
  }

  /** The encoding is injective, supplementary-plane characters included. */
  lemma {:induction false} UnitsInjective(s: string, t: string)
    requires Units(s) == Units(t)
    ensures s == t
  {
    if s != [] && t != [] {
      FirstCharDetermined(s[0], t[0], Units(s[1..]), Units(t[1..]));
      UnitsInjective(s[1..], t[1..]);
      assert s == [s[0]] + s[1..] && t == [t[0]] + t[1..];
    }
  }

  /** The order RFC 8785, section 3.2.3, sorts property names by. */
  predicate Utf16Le(s: string, t: string) {
    LexLe(Units(s), Units(t))
  }

  /** `Utf16Le` is a total order: two strings each below the other are one string. */
  lemma {:induction false} Utf16LeIsTotalOrder(s: string, t: string, u: string)
    ensures Utf16Le(s, t) || Utf16Le(t, s)
    ensures Utf16Le(s, t) && Utf16Le(t, s) ==> s == t
    ensures Utf16Le(s, t) && Utf16Le(t, u) ==> Utf16Le(s, u)
  {
    LexTotal(Units(s), Units(t));
    if Utf16Le(s, t) && Utf16Le(t, s) {
      LexAntisymmetric(Units(s), Units(t));
      UnitsInjective(s, t);
    }
    if Utf16Le(s, t) && Utf16Le(t, u) {
      LexTransitive(Units(s), Units(t), Units(u));
    }
  }

  lemma {:induction false} Ascends(a: seq<int>, b: seq<int>, k: nat)
    requires PartsAt(a, b, k)
    ensures Precedes(a, b) && !Precedes(b, a) && a != b
  {
    PrecedesOneWay(a, b);
  }

  /** Walk both unit sequences until they differ or one ends. */
  method Utf16Cmp(a: string, b: string) returns (order: Comparison)
    ensures order == Equal <==> a == b
    ensures order == Less <==> Precedes(Units(a), Units(b))
    ensures order == Greater <==> Precedes(Units(b), Units(a))
    ensures order == Greater <==> !Utf16Le(a, b)
  {
    var ai, bi := Units(a), Units(b);
    var i := 0;
    LexExactly(ai, bi);
    while true
      invariant i <= |ai| && i <= |bi| && forall k :: 0 <= k < i ==> ai[k] == bi[k]
      decreases |ai| - i
    {
      if i == |ai| && i == |bi| {
        assert ai == bi;
        UnitsInjective(a, b);
        return Equal;
      } else if i == |ai| {
        Ascends(ai, bi, i);
        return Less;
      } else if i == |bi| {
        Ascends(bi, ai, i);
        return Greater;
      } else if ai[i] < bi[i] {
        Ascends(ai, bi, i);
        return Less;
      } else if bi[i] < ai[i] {
        Ascends(bi, ai, i);
        return Greater;
      }
      i := i + 1;
    }
  }
}
