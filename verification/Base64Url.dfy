/** Codecs that work on fixed-size groups, the last one possibly shorter. */
module Chunking {
  import opened Json

  function Apply<A, B>(f: seq<A> -> seq<B>, n: nat, xs: seq<A>): seq<B>
    requires n > 0
  {
    if xs == [] then []
    else if |xs| <= n then f(xs)
    else f(xs[..n]) + Apply(f, n, xs[n..])
  }

  function Prepend<A>(head: Option<seq<A>>, tail: Option<seq<A>>): Option<seq<A>> {
    if head.None? || tail.None? then None else Some(head.value + tail.value)
  }

  function Undo<A, B>(g: seq<B> -> Option<seq<A>>, m: nat, ys: seq<B>): Option<seq<A>>
    requires m > 0
  {
    if ys == [] then Some([])
    else if |ys| <= m then g(ys)
    else Prepend(g(ys[..m]), Undo(g, m, ys[m..]))
  }

  ghost predicate ReadsBack<A, B>(f: seq<A> -> seq<B>, n: nat, g: seq<B> -> Option<seq<A>>, m: nat, c: seq<A>) {
    0 < |c| <= n ==> 0 < |f(c)| <= m && (|c| == n <==> |f(c)| == m) && g(f(c)) == Some(c)
  }

  ghost predicate WritesBack<A, B>(f: seq<A> -> seq<B>, n: nat, g: seq<B> -> Option<seq<A>>, m: nat, d: seq<B>) {
    0 < |d| <= m && g(d).Some? ==> 0 < |g(d).value| <= n && (|g(d).value| == n <==> |d| == m) && f(g(d).value) == d
  }

  /** One group: `g` reads exactly what `f` writes, and full groups match full groups. */
  ghost predicate Inverts<A(!new), B(!new)>(f: seq<A> -> seq<B>, n: nat, g: seq<B> -> Option<seq<A>>, m: nat) {
    && (forall c: seq<A> :: ReadsBack(f, n, g, m, c))
    && (forall d: seq<B> :: WritesBack(f, n, g, m, d))
  }

  lemma {:induction false} ApplyIsNonempty<A(!new), B(!new)>(f: seq<A> -> seq<B>, n: nat, g: seq<B> -> Option<seq<A>>,
                                                             m: nat, xs: seq<A>)
    requires n > 0 && m > 0 && Inverts(f, n, g, m) && xs != []
    ensures Apply(f, n, xs) != []
  {
    assert ReadsBack(f, n, g, m, if |xs| <= n then xs else xs[..n]);
  }

  lemma {:induction false} UndoApplies<A(!new), B(!new)>(f: seq<A> -> seq<B>, n: nat, g: seq<B> -> Option<seq<A>>,
                                                         m: nat, xs: seq<A>)
    requires n > 0 && m > 0 && Inverts(f, n, g, m)
    ensures Undo(g, m, Apply(f, n, xs)) == Some(xs)
  {
    if xs != [] && |xs| <= n {
      assert ReadsBack(f, n, g, m, xs);
    } else if |xs| > n {
      var c, rest := xs[..n], xs[n..];
      assert ReadsBack(f, n, g, m, c);
      UndoApplies(f, n, g, m, rest);
      ApplyIsNonempty(f, n, g, m, rest);
      assert xs == c + rest;
    }
  }

  lemma {:induction false} UndoIsNonempty<A(!new), B(!new)>(f: seq<A> -> seq<B>, n: nat, g: seq<B> -> Option<seq<A>>,
                                                            m: nat, ys: seq<B>)
    requires n > 0 && m > 0 && Inverts(f, n, g, m) && ys != [] && Undo(g, m, ys).Some?
    ensures Undo(g, m, ys).value != []
  {
    assert WritesBack(f, n, g, m, if |ys| <= m then ys else ys[..m]);
  }

  lemma {:induction false} ApplyUndoes<A(!new), B(!new)>(f: seq<A> -> seq<B>, n: nat, g: seq<B> -> Option<seq<A>>,
                                                         m: nat, ys: seq<B>)
    requires n > 0 && m > 0 && Inverts(f, n, g, m) && Undo(g, m, ys).Some?
    ensures Apply(f, n, Undo(g, m, ys).value) == ys
  {
    if ys != [] && |ys| <= m {
      assert WritesBack(f, n, g, m, ys);
    } else if |ys| > m {
      var d, rest := ys[..m], ys[m..];
      assert WritesBack(f, n, g, m, d);
      ApplyUndoes(f, n, g, m, rest);
      UndoIsNonempty(f, n, g, m, rest);
      assert ys == d + rest;
    }
  }
}

/** base64url without padding (section 5 of RFC 4648), decoding canonical text only. */
module Base64Url {
  import opened Json
  import opened Chunking
  import Utf8

  type Byte = Utf8.Byte

  function Letter(n: int): (c: char)
    requires 0 <= n < 64
  {
    if n < 26 then 'A' + n as char
    else if n < 52 then 'a' + (n - 26) as char
    else if n < 62 then '0' + (n - 52) as char
    else if n == 62 then '-' else '_'
  }

  /** A letter's value, or -1. */
  function Value(c: char): (n: int)
    ensures -1 <= n < 64
  {
    if 'A' <= c <= 'Z' then c as int - 'A' as int
    else if 'a' <= c <= 'z' then c as int - 'a' as int + 26
    else if '0' <= c <= '9' then c as int - '0' as int + 52
    else if c == '-' then 62
    else if c == '_' then 63
    else -1
  }

  /** Four letters for three bytes; three or two for a shorter last group. */
  function EncodeGroup(bs: seq<Byte>): string {
    if |bs| == 1 then [Letter(bs[0] / 4), Letter(bs[0] % 4 * 16)]
    else if |bs| == 2 then [Letter(bs[0] / 4), Letter(bs[0] % 4 * 16 + bs[1] / 16), Letter(bs[1] % 16 * 4)]
    else if |bs| == 3 then [Letter(bs[0] / 4), Letter(bs[0] % 4 * 16 + bs[1] / 16),
                            Letter(bs[1] % 16 * 4 + bs[2] / 64), Letter(bs[2] % 64)]
    else ""
  }

  function Unpack2(a: int, b: int): Option<seq<Byte>>
    requires a < 64 && b < 64
  {
    if a < 0 || b < 0 || b % 16 != 0 then None else Some([a * 4 + b / 16])
  }

  function Unpack3(a: int, b: int, c: int): Option<seq<Byte>>
    requires a < 64 && b < 64 && c < 64
  {
    if a < 0 || b < 0 || c < 0 || c % 4 != 0 then None else Some([a * 4 + b / 16, b % 16 * 16 + c / 4])
  }

  function Unpack4(a: int, b: int, c: int, d: int): Option<seq<Byte>>
    requires a < 64 && b < 64 && c < 64 && d < 64
  {
    if a < 0 || b < 0 || c < 0 || d < 0 then None
    else Some([a * 4 + b / 16, b % 16 * 16 + c / 4, c % 4 * 64 + d])
  }

  /** Unknown letters, a single trailing letter and nonzero leftover bits are all refused. */
  function DecodeGroup(s: string): Option<seq<Byte>> {
    if |s| == 2 then Unpack2(Value(s[0]), Value(s[1]))
    else if |s| == 3 then Unpack3(Value(s[0]), Value(s[1]), Value(s[2]))
    else if |s| == 4 then Unpack4(Value(s[0]), Value(s[1]), Value(s[2]), Value(s[3]))
    else None
  }

  function Encode(bs: seq<Byte>): string {
    Apply(EncodeGroup, 3, bs)
  }

  function Decode(s: string): Option<seq<Byte>> {
    Undo(DecodeGroup, 4, s)
  }

  /** The alphabet of section 5 of RFC 4648, in order: capitals, small letters, digits, minus and underscore. */
  lemma {:induction false} LettersInOrder(c: char)
    ensures 'A' <= c <= 'Z' ==> Letter(c as int - 65) == c
    ensures 'a' <= c <= 'z' ==> Letter(c as int - 97 + 26) == c
    ensures '0' <= c <= '9' ==> Letter(c as int - 48 + 52) == c
    ensures Letter(62) == '-' && Letter(63) == '_'
  {
  }

  /** A group of bytes and its letters are one number, in base 256 and in base 64, padded with zero bits. */
  lemma {:induction false} GroupIsNumber(bs: seq<Byte>)
    requires 1 <= |bs| <= 3
    ensures var e := EncodeGroup(bs);
            && |e| == |bs| + 1
            && (|bs| == 1 ==> Value(e[0]) * 64 + Value(e[1]) == bs[0] as int * 16)
            && (|bs| == 2 ==> Value(e[0]) * 4096 + Value(e[1]) * 64 + Value(e[2])
                              == bs[0] as int * 1024 + bs[1] as int * 4)
            && (|bs| == 3 ==> Value(e[0]) * 262144 + Value(e[1]) * 4096 + Value(e[2]) * 64 + Value(e[3])
                              == bs[0] as int * 65536 + bs[1] as int * 256 + bs[2])
  {
    LettersReadBack(bs[0] / 4);
    if |bs| == 1 {
      LettersReadBack(bs[0] % 4 * 16);
    } else if |bs| == 2 {
      LettersReadBack(bs[0] % 4 * 16 + bs[1] / 16);
      LettersReadBack(bs[1] % 16 * 4);
    } else {
      LettersReadBack(bs[0] % 4 * 16 + bs[1] / 16);
      LettersReadBack(bs[1] % 16 * 4 + bs[2] / 64);
      LettersReadBack(bs[2] % 64);
    }
  }

  lemma {:induction false} LettersReadBack(n: int)
    requires 0 <= n < 64
    ensures Value(Letter(n)) == n
  {
  }

  lemma {:induction false} Unpacks(x: Byte, y: Byte, z: Byte)
    ensures Unpack2(x / 4, x % 4 * 16) == Some([x])
    ensures Unpack3(x / 4, x % 4 * 16 + y / 16, y % 16 * 4) == Some([x, y])
    ensures Unpack4(x / 4, x % 4 * 16 + y / 16, y % 16 * 4 + z / 64, z % 64) == Some([x, y, z])
  {
  }

  lemma {:induction false} GroupReadsBack(c: seq<Byte>)
    ensures ReadsBack(EncodeGroup, 3, DecodeGroup, 4, c)
  {
    if 0 < |c| <= 3 {
      var x, y, z := c[0], if |c| > 1 then c[1] else 0, if |c| > 2 then c[2] else 0;
      LettersReadBack(x / 4);
      LettersReadBack(x % 4 * 16);
      LettersReadBack(x % 4 * 16 + y / 16);
      LettersReadBack(y % 16 * 4);
      LettersReadBack(y % 16 * 4 + z / 64);
      LettersReadBack(z % 64);
      Unpacks(x, y, z);
      assert c == if |c| == 1 then [x] else if |c| == 2 then [x, y] else [x, y, z];
    }
  }

  lemma {:induction false} LetterOf(c: char)
    ensures Value(c) >= 0 ==> Letter(Value(c)) == c
  {
  }

  /** The bits of four letters, in the bytes they are packed into. */
  lemma {:induction false} Bits(a: int, b: int, c: int, d: int)
    requires 0 <= a < 64 && 0 <= b < 64 && 0 <= c < 64 && 0 <= d < 64
    ensures (a * 4 + b / 16) / 4 == a && (a * 4 + b / 16) % 4 == b / 16
    ensures (b % 16 * 16 + c / 4) / 16 == b % 16 && (b % 16 * 16 + c / 4) % 16 == c / 4
    ensures (c % 4 * 64 + d) / 64 == c % 4 && (c % 4 * 64 + d) % 64 == d
    ensures b / 16 * 16 + b % 16 == b && c / 4 * 4 + c % 4 == c
  {
  }

  lemma {:induction false} Packs2(a: int, b: int)
    requires 0 <= a < 64 && 0 <= b < 64 && b % 16 == 0
    ensures EncodeGroup(Unpack2(a, b).value) == [Letter(a), Letter(b)]
  {
    Bits(a, b, 0, 0);
  }

  lemma {:induction false} Packs3(a: int, b: int, c: int)
    requires 0 <= a < 64 && 0 <= b < 64 && 0 <= c < 64 && c % 4 == 0
    ensures EncodeGroup(Unpack3(a, b, c).value) == [Letter(a), Letter(b), Letter(c)]
  {
    Bits(a, b, c, 0);
  }

  lemma {:induction false} Packs4(a: int, b: int, c: int, d: int)
    requires 0 <= a < 64 && 0 <= b < 64 && 0 <= c < 64 && 0 <= d < 64
    ensures EncodeGroup(Unpack4(a, b, c, d).value) == [Letter(a), Letter(b), Letter(c), Letter(d)]
  {
    Bits(a, b, c, d);
  }

  lemma {:induction false} GroupWritesBack(s: string)
    ensures WritesBack(EncodeGroup, 3, DecodeGroup, 4, s)
  {
    if 0 < |s| <= 4 && DecodeGroup(s).Some? {
      LetterOf(s[0]);
      LetterOf(s[1]);
      if |s| == 2 {
        Packs2(Value(s[0]), Value(s[1]));
      } else {
        LetterOf(s[2]);
        if |s| == 3 {
          Packs3(Value(s[0]), Value(s[1]), Value(s[2]));
        } else {
          LetterOf(s[3]);
          Packs4(Value(s[0]), Value(s[1]), Value(s[2]), Value(s[3]));
        }
      }
    }
  }

  lemma {:induction false} GroupsInvert()
    ensures Inverts(EncodeGroup, 3, DecodeGroup, 4)
  {
    forall c ensures ReadsBack(EncodeGroup, 3, DecodeGroup, 4, c) {
      GroupReadsBack(c);
    }
    forall s ensures WritesBack(EncodeGroup, 3, DecodeGroup, 4, s) {
      GroupWritesBack(s);
    }
  }

  /** A text decodes to some bytes exactly when it is their encoding. */
  lemma {:induction false} DecodesExactly(s: string, bs: seq<Byte>)
    ensures Decode(s) == Some(bs) <==> s == Encode(bs)
  {
    GroupsInvert();
    UndoApplies(EncodeGroup, 3, DecodeGroup, 4, bs);
    if Decode(s) == Some(bs) {
      ApplyUndoes(EncodeGroup, 3, DecodeGroup, 4, s);
    }
  }

  predicate Plain(s: string) {
    forall k :: 0 <= k < |s| ==> s[k] != '.' && s[k] < 128 as char
  }

  lemma {:induction false} GroupIsPlain(c: seq<Byte>)
    ensures Plain(EncodeGroup(c))
  {
  }

  /** Encoded text is ASCII and holds no full stop. */
  lemma {:induction false} EncodingIsPlain(bs: seq<Byte>)
    ensures Plain(Encode(bs))
  {
    if |bs| > 3 {
      GroupIsPlain(bs[..3]);
      EncodingIsPlain(bs[3..]);
    } else {
      GroupIsPlain(bs);
    }
  }
}
