/**
 Content hashes: their constant-time comparison, and the `<algorithm>:<hex>` form they are
 stored and signed in. The hash function itself is foreign; callers take it as a parameter.
 */
module ContentHashes {
  import opened Json

  datatype HashAlgorithm = Sha256

  datatype ContentHash = ContentHash(algorithm: HashAlgorithm, hex: string)

  const DIGEST_LENGTH := 64

  predicate IsLowerHex(c: char) { '0' <= c <= '9' || 'a' <= c <= 'f' }

  predicate AllLowerHex(s: string) { forall i :: 0 <= i < |s| ==> IsLowerHex(s[i]) }

  /** What every constructor of a hash guarantees. */
  predicate WellFormed(h: ContentHash) { |h.hex| == DIGEST_LENGTH && AllLowerHex(h.hex) }

  /** The ASCII code of a digest character. */
  function Byte(c: char): bv8
    requires IsLowerHex(c)
  {
    match c
    case '0' => 0x30 case '1' => 0x31 case '2' => 0x32 case '3' => 0x33
    case '4' => 0x34 case '5' => 0x35 case '6' => 0x36 case '7' => 0x37
    case '8' => 0x38 case '9' => 0x39 case 'a' => 0x61 case 'b' => 0x62
    case 'c' => 0x63 case 'd' => 0x64 case 'e' => 0x65 case _ => 0x66
  }

  /** Compare without stopping at the first difference; the answer is plain equality. */
  method CtEq(a: ContentHash, b: ContentHash) returns (same: bool)
    requires AllLowerHex(a.hex) && AllLowerHex(b.hex)
    ensures same <==> a == b
  {
    if a.algorithm != b.algorithm || |a.hex| != |b.hex| {
      return false;
    }
    var diff: bv8 := 0;
    for i := 0 to |a.hex|
      invariant diff == 0 <==> a.hex[..i] == b.hex[..i]
    {
      var x, y := Byte(a.hex[i]), Byte(b.hex[i]);
      assert a.hex[..i + 1] == a.hex[..i] + [a.hex[i]] && b.hex[..i + 1] == b.hex[..i] + [b.hex[i]];
      diff := diff | (x ^ y);
    }
    assert a.hex[..|a.hex|] == a.hex && b.hex[..|b.hex|] == b.hex;
    return diff == 0;
  }

  function Label(a: HashAlgorithm): string { match a case Sha256 => "sha256" }

  /** The string form, `sha256:` and the digest. */
  function Text(h: ContentHash): (s: string) { Label(h.algorithm) + ":" + h.hex }

  lemma {:induction false} TextInjective(g: ContentHash, h: ContentHash)
    requires Text(g) == Text(h)
    ensures g == h
  {
    assert g.hex == Text(g)[7..] && h.hex == Text(h)[7..];
  }

  function IndexOf(s: string, c: char): (i: nat)
    ensures i <= |s| && c !in s[..i] && (i < |s| ==> s[i] == c)
  {
    if s == "" || s[0] == c then 0 else 1 + IndexOf(s[1..], c)
  }

  /** Read the string form; anything but 64 lowercase hex digits behind a known label is refused. */
  function Parse(s: string): (r: Option<ContentHash>) {
    var i := IndexOf(s, ':');
    if i == |s| then None
    else
      var prefix, hex := s[..i], s[i + 1..];
      if prefix != Label(Sha256) || |hex| != DIGEST_LENGTH || !AllLowerHex(hex) then None
      else Some(ContentHash(Sha256, hex))
  }

  const HEX_DIGITS := "0123456789abcdef"

  lemma {:induction false} LowerHexDigits(c: char)
    ensures IsLowerHex(c) <==> c in HEX_DIGITS
  {
    if c in HEX_DIGITS {
      var k :| 0 <= k < 16 && HEX_DIGITS[k] == c;
    }
    if '0' <= c <= '9' {
      assert HEX_DIGITS[c as int - 48] == c;
    } else if 'a' <= c <= 'f' {
      assert HEX_DIGITS[c as int - 87] == c;
    }
  }

  /** Parsing succeeds exactly on `sha256:` and 64 lowercase hexadecimal digits, and gives them back. */
  lemma {:induction false} ParseInvertsText(s: string, h: ContentHash)
    ensures Parse(s) == Some(h) <==>
            && |h.hex| == 64 && (forall i :: 0 <= i < 64 ==> h.hex[i] in HEX_DIGITS)
            && h.algorithm.Sha256? && s == "sha256:" + h.hex
  {
    forall i | 0 <= i < |h.hex| ensures IsLowerHex(h.hex[i]) <==> h.hex[i] in HEX_DIGITS { LowerHexDigits(h.hex[i]); }
    ParseIsText(s, h);
  }

  lemma {:induction false} ParseIsText(s: string, h: ContentHash)
    ensures Parse(s) == Some(h) <==> WellFormed(h) && s == Text(h)
  {
    var i := IndexOf(s, ':');
    if Parse(s) == Some(h) {
      assert s == s[..i] + ":" + s[i + 1..];
    }
    if WellFormed(h) && s == Text(h) {
      assert s[..6] == "sha256" && s[6] == ':' && s[7..] == h.hex;
      assert h == ContentHash(Sha256, h.hex);
      assert i <= 6;
    }
  }
}
