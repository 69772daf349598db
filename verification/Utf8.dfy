/** UTF-8, and the lossy decoding that replaces ill-formed bytes. */
module Utf8 {
  import opened Text

  type Byte = b: int | 0 <= b < 256

  const REPLACEMENT: char := 0xFFFD as char

  function EncodeChar(c: char): (bs: seq<Byte>)
    ensures 0 < |bs| <= 4
  {
    var n := c as int;
    if n < 0x80 then [n]
    else if n < 0x800 then [0xC0 + n / 64, 0x80 + n % 64]
    else if n < 0x10000 then [0xE0 + n / 4096, 0x80 + n / 64 % 64, 0x80 + n % 64]
    else [0xF0 + n / 262144, 0x80 + n / 4096 % 64, 0x80 + n / 64 % 64, 0x80 + n % 64]
  }

  function Encode(s: string): (bs: seq<Byte>) {
    if s == "" then [] else EncodeChar(s[0]) + Encode(s[1..])
  }

  predicate Continues(b: Byte) { 0x80 <= b < 0xC0 }

  /** The second bytes that may follow the first byte of three. */
  predicate SecondOfThree(b0: Byte, b1: Byte) {
    Continues(b1) && (b0 == 0xE0 ==> b1 >= 0xA0) && (b0 == 0xED ==> b1 < 0xA0)
  }

  predicate SecondOfFour(b0: Byte, b1: Byte) {
    Continues(b1) && (b0 == 0xF0 ==> b1 >= 0x90) && (b0 == 0xF4 ==> b1 < 0x90)
  }

  /** The character that four bytes begin with, and how many of them it takes up. */
  function Read(b0: Byte, b1: Byte, b2: Byte, b3: Byte): (r: (char, nat))
    ensures 1 <= r.1 <= 4 && (r.0 < 0x80 as char <==> b0 < 0x80)
    ensures (r.1 > 1 ==> Continues(b1)) && (r.1 > 2 ==> Continues(b2)) && (r.1 > 3 ==> Continues(b3))
  {
    if b0 < 0x80 then (b0 as char, 1)
    else if 0xC2 <= b0 <= 0xDF then
      if !Continues(b1) then (REPLACEMENT, 1) else (((b0 - 0xC0) * 64 + (b1 - 0x80)) as char, 2)
    else if 0xE0 <= b0 <= 0xEF then
      if !SecondOfThree(b0, b1) then (REPLACEMENT, 1)
      else if !Continues(b2) then (REPLACEMENT, 2)
      else (((b0 - 0xE0) * 4096 + (b1 - 0x80) * 64 + (b2 - 0x80)) as char, 3)
    else if 0xF0 <= b0 <= 0xF4 then
      if !SecondOfFour(b0, b1) then (REPLACEMENT, 1)
      else if !Continues(b2) then (REPLACEMENT, 2)
      else if !Continues(b3) then (REPLACEMENT, 3)
      else (((b0 - 0xF0) * 262144 + (b1 - 0x80) * 4096 + (b2 - 0x80) * 64 + (b3 - 0x80)) as char, 4)
    else (REPLACEMENT, 1)
  }

  function At(bs: seq<Byte>, i: nat): Byte {
    if i < |bs| then bs[i] else 0
  }

  type Reader = (Byte, Byte, Byte, Byte) -> (char, nat)

  function ReadAt(read: Reader, bs: seq<Byte>, i: nat): (char, nat) {
    read(At(bs, i), At(bs, i + 1), At(bs, i + 2), At(bs, i + 3))
  }

  /** Where the next character begins, never past the end. */
  function After(i: nat, width: nat, length: nat): (j: nat)
    requires i < length
    ensures i < j <= length
  {
    if 1 <= width <= length - i then i + width else i + 1
  }

  function DecodeFrom(read: Reader, bs: seq<Byte>, i: nat): (s: string)
    requires i <= |bs|
    decreases |bs| - i
  {
    if i == |bs| then "" else [ReadAt(read, bs, i).0] + DecodeFrom(read, bs, After(i, ReadAt(read, bs, i).1, |bs|))
  }

  /** Decode, a replacement character standing for each ill-formed stretch. */
  function Decode(bs: seq<Byte>): string { DecodeFrom(Read, bs, 0) }

  // ---- decoding is local ----

  /** Reading before position `|a|` sees no difference between the end of `a` and an ASCII byte. */
  ghost predicate StopsAt(read: Reader, a: seq<Byte>, b: seq<Byte>, i: nat) {
    i < |a| < |b| && b[|a|] < 0x80 && (forall k :: i <= k < |a| ==> a[k] == b[k]) ==>
      ReadAt(read, a, i) == ReadAt(read, b, i) && 1 <= ReadAt(read, a, i).1 <= |a| - i
  }

  lemma {:induction false} ReadIgnores1(b0: Byte, b1: Byte, b2: Byte, b3: Byte, c1: Byte, c2: Byte, c3: Byte)
    requires !Continues(b1) && !Continues(c1)
    ensures Read(b0, b1, b2, b3) == Read(b0, c1, c2, c3)
  {
  }

  lemma {:induction false} ReadIgnores2(b0: Byte, b1: Byte, b2: Byte, b3: Byte, c2: Byte, c3: Byte)
    requires !Continues(b2) && !Continues(c2)
    ensures Read(b0, b1, b2, b3) == Read(b0, b1, c2, c3)
  {
  }

  lemma {:induction false} ReadIgnores3(b0: Byte, b1: Byte, b2: Byte, b3: Byte, c3: Byte)
    requires !Continues(b3) && !Continues(c3)
    ensures Read(b0, b1, b2, b3) == Read(b0, b1, b2, c3)
  {
  }

  lemma {:induction false} ReadStops(a: seq<Byte>, b: seq<Byte>, i: nat)
    ensures StopsAt(Read, a, b, i)
  {
    if i < |a| < |b| && b[|a|] < 0x80 && (forall k :: i <= k < |a| ==> a[k] == b[k]) {
      if i + 1 == |a| {
        ReadIgnores1(a[i], At(a, i + 1), At(a, i + 2), At(a, i + 3), At(b, i + 1), At(b, i + 2), At(b, i + 3));
      } else if i + 2 == |a| {
        ReadIgnores2(a[i], a[i + 1], At(a, i + 2), At(a, i + 3), At(b, i + 2), At(b, i + 3));
      } else if i + 3 == |a| {
        ReadIgnores3(a[i], a[i + 1], a[i + 2], At(a, i + 3), At(b, i + 3));
      }
    }
  }

  lemma {:induction false} DecodeStep(read: Reader, bs: seq<Byte>, i: nat)
    requires i < |bs|
    ensures DecodeFrom(read, bs, i)
            == [ReadAt(read, bs, i).0] + DecodeFrom(read, bs, After(i, ReadAt(read, bs, i).1, |bs|))
  {
  }

  /** What follows position `d` decodes the same whatever stands before it. */
  lemma {:induction false} DecodeIsLocal(read: Reader, a: seq<Byte>, b: seq<Byte>, i: nat, d: nat)
    requires i <= |a| && |b| == |a| + d && forall k :: i <= k < |a| ==> a[k] == b[k + d]
    ensures DecodeFrom(read, a, i) == DecodeFrom(read, b, i + d)
    decreases |a| - i
  {
    if i < |a| {
      var r := ReadAt(read, a, i);
      var j := After(i, r.1, |a|);
      assert r == ReadAt(read, b, i + d) && After(i + d, r.1, |b|) == j + d;
      DecodeIsLocal(read, a, b, j, d);
      DecodeStep(read, a, i);
      DecodeStep(read, b, i + d);
    }
  }

  lemma {:induction false} CutStep(read: Reader, a: seq<Byte>, x: seq<Byte>, i: nat)
    requires StopsAt(read, a, x, i)
    requires i < |a| < |x| && x[|a|] < 0x80 && forall k :: i <= k < |a| ==> a[k] == x[k]
    ensures var r := ReadAt(read, a, i);
            && 1 <= r.1 <= |a| - i && DecodeFrom(read, a, i) == [r.0] + DecodeFrom(read, a, i + r.1)
            && DecodeFrom(read, x, i) == [r.0] + DecodeFrom(read, x, i + r.1)
  {
    DecodeStep(read, a, i);
    DecodeStep(read, x, i);
  }

  lemma {:induction false} CutFrom(read: Reader, a: seq<Byte>, x: seq<Byte>, i: nat)
    requires forall j: nat :: StopsAt(read, a, x, j)
    requires i <= |a| < |x| && x[|a|] < 0x80 && forall k :: 0 <= k < |a| ==> a[k] == x[k]
    ensures DecodeFrom(read, x, i) == DecodeFrom(read, a, i) + DecodeFrom(read, x, |a|)
    decreases |a| - i
  {
    if i < |a| {
      CutStep(read, a, x, i);
      var r := ReadAt(read, a, i);
      CutFrom(read, a, x, i + r.1);
      Associative([r.0], DecodeFrom(read, a, i + r.1), DecodeFrom(read, x, |a|));
    }
  }

  /** An ASCII byte cuts the text: what is before it and after it decode on their own. */
  lemma {:induction false} DecodeCut(a: seq<Byte>, b: Byte, c: seq<Byte>)
    requires b < 0x80
    ensures Decode(a + [b] + c) == Decode(a) + [b as char] + Decode(c)
  {
    var x := a + [b] + c;
    forall j: nat ensures StopsAt(Read, a, x, j) { ReadStops(a, x, j); }
    CutFrom(Read, a, x, 0);
    DecodeIsLocal(Read, c, x, 0, |a| + 1);
  }

  // ---- encoding and decoding ----

  lemma {:induction false} EncodeConcat(s: string, t: string)
    ensures Encode(s + t) == Encode(s) + Encode(t)
  {
    if s == "" {
      assert s + t == t;
    } else {
      EncodeConcat(s[1..], t);
      assert (s + t)[1..] == s[1..] + t;
      Associative(EncodeChar(s[0]), Encode(s[1..]), Encode(t));
    }
  }

  lemma {:induction false} ThreeReadBack(n: int, b3: Byte)
    requires 0x800 <= n < 0xD800 || 0xE000 <= n < 0x10000
    ensures Read(0xE0 + n / 4096, 0x80 + n / 64 % 64, 0x80 + n % 64, b3) == (n as char, 3)
  {
    assert n / 4096 * 4096 + n / 64 % 64 * 64 + n % 64 == n;
  }

  lemma {:induction false} FourReadBack(n: int)
    requires 0x10000 <= n < 0x110000
    ensures Read(0xF0 + n / 262144, 0x80 + n / 4096 % 64, 0x80 + n / 64 % 64, 0x80 + n % 64) == (n as char, 4)
  {
    assert n / 262144 * 262144 + n / 4096 % 64 * 4096 + n / 64 % 64 * 64 + n % 64 == n;
  }

  lemma {:induction false} CharReadsBack(c: char, b1: Byte, b2: Byte, b3: Byte)
    ensures var e := EncodeChar(c);
            Read(e[0], if |e| > 1 then e[1] else b1, if |e| > 2 then e[2] else b2, if |e| > 3 then e[3] else b3)
            == (c, |e|)
  {
    var n := c as int;
    if n >= 0x10000 {
      FourReadBack(n);
    } else if n >= 0x800 {
      ThreeReadBack(n, b3);
    }
  }

  lemma {:induction false} FirstReadsBack(c: char, rest: seq<Byte>)
    ensures ReadAt(Read, EncodeChar(c) + rest, 0) == (c, |EncodeChar(c)|)
  {
    var bs := EncodeChar(c) + rest;
    CharReadsBack(c, At(bs, 1), At(bs, 2), At(bs, 3));
  }

  lemma {:induction false} DecodeFirst(e: seq<Byte>, rest: seq<Byte>, c: char)
    requires e != [] && ReadAt(Read, e + rest, 0) == (c, |e|)
    ensures Decode(e + rest) == [c] + Decode(rest)
  {
    DecodeIsLocal(Read, rest, e + rest, 0, |e|);
  }

  /** Decoding undoes encoding. */
  lemma {:induction false} DecodeUndoesEncode(s: string)
    ensures Decode(Encode(s)) == s
  {
    if s != "" {
      FirstReadsBack(s[0], Encode(s[1..]));
      DecodeFirst(EncodeChar(s[0]), Encode(s[1..]), s[0]);
      DecodeUndoesEncode(s[1..]);
    }
  }

  /** ASCII text is its own encoding. */
  lemma {:induction false} AsciiEncodes(s: string)
    requires forall k :: 0 <= k < |s| ==> s[k] < 0x80 as char
    ensures |Encode(s)| == |s| && forall k :: 0 <= k < |s| ==> Encode(s)[k] == s[k] as int
  {
    if s != "" {
      AsciiEncodes(s[1..]);
    }
  }
}
