/** The capability token: four parts joined by full stops, three of them base64url. */
module Tokens {
  import opened Json
  import opened Text
  import opened Base64Url
  import Utf8

  const PREFIX := "vcap1"
  const ALGORITHM := "Ed25519"
  const MAX_TOKEN_BYTES := 8 * 1024

  datatype TokenHeader = TokenHeader(alg: string, kid: string)

  /** How a header is written as bytes and read from them. */
  datatype HeaderCodec = HeaderCodec(write: TokenHeader -> seq<Byte>, read: seq<Byte> -> Option<TokenHeader>)

  datatype ParsedToken = ParsedToken(header: TokenHeader, claimsJson: seq<Byte>, signature: seq<Byte>,
                                     signedPayload: string)

  predicate IsStop(c: char) { c == '.' }

  function SigningInput(header: string, claims: string): string {
    header + "." + claims
  }

  function EncodeToken(hc: HeaderCodec, header: TokenHeader, claimsJson: seq<Byte>, signature: seq<Byte>): string {
    PREFIX + "." + (Encode(hc.write(header)) + "." + (Encode(claimsJson) + "." + Encode(signature)))
  }

  /** Split and decode; nothing is verified here. */
  function Parse(hc: HeaderCodec, token: string): (r: Option<ParsedToken>) {
    if |Utf8.Encode(token)| > MAX_TOKEN_BYTES then None
    else
      var parts := Split(IsStop, token);
      if |parts| != 4 || parts[0] != PREFIX then None
      else
        var headerBytes := Decode(parts[1]);
        if headerBytes.None? then None
        else
          var header, claims, signature := hc.read(headerBytes.value), Decode(parts[2]), Decode(parts[3]);
          if header.None? || claims.None? || signature.None? then None
          else Some(ParsedToken(header.value, claims.value, signature.value, SigningInput(parts[1], parts[2])))
  }

  lemma {:induction false} FourParts(p: string, a: string, b: string, c: string)
    requires FreeOf(IsStop, p) && FreeOf(IsStop, a) && FreeOf(IsStop, b) && FreeOf(IsStop, c)
    ensures Split(IsStop, p + "." + (a + "." + (b + "." + c))) == [p, a, b, c]
  {
    SplitStep(IsStop, p, '.', a + "." + (b + "." + c));
    SplitStep(IsStop, a, '.', b + "." + c);
    SplitStep(IsStop, b, '.', c);
    SplitOne(IsStop, c);
  }

  /** A token as text, from the bytes of its parts. */
  function Spelled(headerBytes: seq<Byte>, claimsJson: seq<Byte>, signature: seq<Byte>): string {
    PREFIX + "." + (Encode(headerBytes) + "." + (Encode(claimsJson) + "." + Encode(signature)))
  }

  lemma {:induction false} SpelledParts(headerBytes: seq<Byte>, claimsJson: seq<Byte>, signature: seq<Byte>)
    ensures var token := Spelled(headerBytes, claimsJson, signature);
            && Split(IsStop, token) == [PREFIX, Encode(headerBytes), Encode(claimsJson), Encode(signature)]
            && |Utf8.Encode(token)| == |token|
  {
    EncodingIsPlain(headerBytes);
    EncodingIsPlain(claimsJson);
    EncodingIsPlain(signature);
    FourParts(PREFIX, Encode(headerBytes), Encode(claimsJson), Encode(signature));
    Utf8.AsciiEncodes(Spelled(headerBytes, claimsJson, signature));
  }

  /** Parsing undoes encoding and recovers exactly the signed bytes, up to the length limit. */
  lemma {:induction false} ParseUndoesEncode(hc: HeaderCodec, header: TokenHeader, claimsJson: seq<Byte>,
                                             signature: seq<Byte>)
    requires hc.read(hc.write(header)) == Some(header)
    ensures var token := EncodeToken(hc, header, claimsJson, signature);
            Parse(hc, token) == if |token| <= MAX_TOKEN_BYTES
                                then Some(ParsedToken(header, claimsJson, signature,
                                                      SigningInput(Encode(hc.write(header)), Encode(claimsJson))))
                                else None
  {
    SpelledParts(hc.write(header), claimsJson, signature);
    DecodesExactly(Encode(hc.write(header)), hc.write(header));
    DecodesExactly(Encode(claimsJson), claimsJson);
    DecodesExactly(Encode(signature), signature);
  }

  lemma {:induction false} JoinFour(parts: seq<string>)
    requires |parts| == 4
    ensures Join(parts, '.') == parts[0] + "." + (parts[1] + "." + (parts[2] + "." + parts[3]))
  {
    assert parts[1..][1..] == parts[2..] && parts[2..][1..] == parts[3..];
    assert Join(parts[3..], '.') == parts[3];
    assert Join(parts[2..], '.') == parts[2] + "." + parts[3];
  }

  /**
   A token that parses is the only text with these parts: the bytes that were signed are the
   encodings of the very header and claims bytes handed on.
   */
  lemma {:induction false} ParsedIsExact(hc: HeaderCodec, token: string) returns (headerBytes: seq<Byte>)
    requires Parse(hc, token).Some?
    ensures var p := Parse(hc, token).value;
            && hc.read(headerBytes) == Some(p.header)
            && p.signedPayload == SigningInput(Encode(headerBytes), Encode(p.claimsJson))
            && token == Spelled(headerBytes, p.claimsJson, p.signature)
  {
    var parts := Split(IsStop, token);
    var p := Parse(hc, token).value;
    headerBytes := Decode(parts[1]).value;
    DecodesExactly(parts[1], headerBytes);
    DecodesExactly(parts[2], p.claimsJson);
    DecodesExactly(parts[3], p.signature);
    JoinUndoesSplit(IsStop, '.', token, 0);
    JoinFour(parts);
    assert token[0..] == token;
  }

  /** The token is made of these bytes, and is not too long. */
  ghost predicate Spells(token: string, headerBytes: seq<Byte>, claimsJson: seq<Byte>, signature: seq<Byte>) {
    token == Spelled(headerBytes, claimsJson, signature) && |token| <= 8_192
  }

  lemma {:induction false} SpelledParses(hc: HeaderCodec, token: string, headerBytes: seq<Byte>, claimsJson: seq<Byte>,
                                         signature: seq<Byte>)
    requires Spells(token, headerBytes, claimsJson, signature) && hc.read(headerBytes).Some?
    ensures Parse(hc, token) == Some(ParsedToken(hc.read(headerBytes).value, claimsJson, signature,
                                                 SigningInput(Encode(headerBytes), Encode(claimsJson))))
  {
    SpelledParts(headerBytes, claimsJson, signature);
    DecodesExactly(Encode(headerBytes), headerBytes);
    DecodesExactly(Encode(claimsJson), claimsJson);
    DecodesExactly(Encode(signature), signature);
  }

  lemma {:induction false} ParsedIsSpelled(hc: HeaderCodec, token: string) returns (headerBytes: seq<Byte>)
    requires Parse(hc, token).Some?
    ensures var p := Parse(hc, token).value;
            && Spells(token, headerBytes, p.claimsJson, p.signature) && hc.read(headerBytes) == Some(p.header)
            && p.signedPayload == SigningInput(Encode(headerBytes), Encode(p.claimsJson))
  {
    headerBytes := ParsedIsExact(hc, token);
    SpelledParts(headerBytes, Parse(hc, token).value.claimsJson, Parse(hc, token).value.signature);
  }

  /** The signed bytes determine the header and the claims: no two readings of one signature. */
  lemma {:induction false} PayloadPinsClaims(hc: HeaderCodec, s: string, t: string)
    requires Parse(hc, s).Some? && Parse(hc, t).Some?
    requires Parse(hc, s).value.signedPayload == Parse(hc, t).value.signedPayload
    ensures Parse(hc, s).value.header == Parse(hc, t).value.header
    ensures Parse(hc, s).value.claimsJson == Parse(hc, t).value.claimsJson
  {
    var hs := ParsedIsExact(hc, s);
    var ht := ParsedIsExact(hc, t);
    TwoParts(hs, Parse(hc, s).value.claimsJson);
    TwoParts(ht, Parse(hc, t).value.claimsJson);
  }

  lemma {:induction false} TwoParts(a: seq<Byte>, b: seq<Byte>)
    ensures var parts := Split(IsStop, SigningInput(Encode(a), Encode(b)));
            |parts| == 2 && Decode(parts[0]) == Some(a) && Decode(parts[1]) == Some(b)
  {
    EncodingIsPlain(a);
    EncodingIsPlain(b);
    SplitStep(IsStop, Encode(a), '.', Encode(b));
    SplitOne(IsStop, Encode(b));
    DecodesExactly(Encode(a), a);
    DecodesExactly(Encode(b), b);
  }
}
