/**
 A JSON reader in the sense of RFC 8259: whitespace, every escape including surrogate
 pairs, and numbers split into integers and doubles the way serde_json splits them. It knows
 nothing of canonical form; reading canonical text back with it is what shows that the text
 loses nothing.
 */
module JsonReader {
  import opened Json

  datatype Read<+T> = Fail | Ok(value: T, rest: string)

  predicate IsSpace(c: char) { c == ' ' || c == '\t' || c == '\n' || c == '\r' }

  function SkipSpace(s: string): (r: string)
    ensures |r| <= |s|
  {
    if s != [] && IsSpace(s[0]) then SkipSpace(s[1..]) else s
  }

  // ---- numbers ----

  predicate IsDigit(c: char) { '0' <= c <= '9' }

  predicate IsNumberChar(c: char) {
    IsDigit(c) || c == '-' || c == '+' || c == '.' || c == 'e' || c == 'E'
  }

  /** How many leading digits the text has. */
  function DigitSpan(s: string): (n: nat)
    ensures n <= |s|
  {
    if s != [] && IsDigit(s[0]) then 1 + DigitSpan(s[1..]) else 0
  }

  /** How many leading characters could belong to a number token. */
  function NumberSpan(s: string): (n: nat)
    ensures n <= |s|
  {
    if s != [] && IsNumberChar(s[0]) then 1 + NumberSpan(s[1..]) else 0
  }

  predicate IsExponent(s: string) {
    || s == ""
    || (&& (s[0] == 'e' || s[0] == 'E')
        && var t := if |s| > 1 && (s[1] == '+' || s[1] == '-') then s[2..] else s[1..];
           |t| > 0 && DigitSpan(t) == |t|)
  }

  predicate IsFractionAndExponent(s: string) {
    if s != "" && s[0] == '.' then
      var n := DigitSpan(s[1..]);
      n > 0 && IsExponent(s[1 + n..])
    else IsExponent(s)
  }

  predicate IsUnsignedNumber(s: string) {
    var n := DigitSpan(s);
    n > 0 && (n == 1 || s[0] != '0') && IsFractionAndExponent(s[n..])
  }

  /** The number production of RFC 8259, section 6. */
  predicate IsNumberToken(s: string) {
    if s != "" && s[0] == '-' then IsUnsignedNumber(s[1..]) else IsUnsignedNumber(s)
  }

  predicate IsIntegerToken(s: string) {
    if s != "" && s[0] == '-' then DigitSpan(s[1..]) == |s| - 1 else DigitSpan(s) == |s|
  }

  function DigitsValue(s: string): (n: nat)
    requires DigitSpan(s) == |s|
  {
    if s == "" then 0 else
      DigitSpanOfPrefix(s, |s| - 1);
      DigitsValue(s[..|s| - 1]) * 10 + (s[|s| - 1] as int - '0' as int)
  }

  lemma {:induction false} DigitSpanOfPrefix(s: string, k: nat)
    requires DigitSpan(s) == |s| && k <= |s|
    ensures DigitSpan(s[..k]) == k
    ensures k < |s| ==> IsDigit(s[k])
  {
    if s != [] && k > 0 {
      DigitSpanOfPrefix(s[1..], k - 1);
      assert s[..k][1..] == s[1..][..k - 1];
    }
  }

  /** Integers in range stay integers; everything else, and minus zero, is a double. */
  function NumberOfToken(fc: FloatCodec, s: string): (r: Option<Number>) {
    if !IsNumberToken(s) then None
    else if IsIntegerToken(s) && s[0] != '-' && DigitsValue(s) < U64_LIMIT then
      Some(PosInt(DigitsValue(s)))
    else if IsIntegerToken(s) && s[0] == '-' && 0 < DigitsValue(s[1..]) <= -I64_MIN then
      var magnitude: int := DigitsValue(s[1..]);
      Some(NegInt(-magnitude))
    else match fc.read(s)
      case Some(d) => Some(Float(d))
      case None => None
  }

  // ---- strings ----

  predicate IsHex(c: char) { '0' <= c <= '9' || 'a' <= c <= 'f' || 'A' <= c <= 'F' }

  function HexValue(c: char): (n: nat)
    requires IsHex(c)
    ensures n < 16
  {
    if c <= '9' then c as int - '0' as int
    else if c <= 'F' then c as int - 'A' as int + 10
    else c as int - 'a' as int + 10
  }

  /** The value of four hexadecimal digits at the front of the text. */
  function Hex4(s: string): (r: Option<nat>)
    ensures r.Some? ==> |s| >= 4 && r.value < 0x1_0000
  {
    if |s| >= 4 && IsHex(s[0]) && IsHex(s[1]) && IsHex(s[2]) && IsHex(s[3]) then
      Some(((HexValue(s[0]) * 16 + HexValue(s[1])) * 16 + HexValue(s[2])) * 16 + HexValue(s[3]))
    else None
  }

  /** Read what follows `\u`: one code unit, or a surrogate pair spelled as two escapes. */
  function ReadUnicode(s: string): (r: Read<char>)
    ensures r.Ok? ==> |r.rest| < |s|
  {
    match Hex4(s)
    case None => Fail
    case Some(high) =>
      if high < 0xD800 || 0xE000 <= high then Ok(high as char, s[4..])
      else if high < 0xDC00 && |s| >= 6 && s[4] == '\\' && s[5] == 'u' then
        match Hex4(s[6..])
        case Some(low) =>
          if 0xDC00 <= low < 0xE000 then
            Ok((0x1_0000 + (high - 0xD800) * 0x400 + (low - 0xDC00)) as char, s[10..])
          else Fail
        case None => Fail
      else Fail
  }

  /** Read one escape, given the text behind the backslash. */
  function ReadEscape(s: string): (r: Read<char>)
    ensures r.Ok? ==> |r.rest| < |s|
  {
    if s == "" then Fail
    else if s[0] == '"' || s[0] == '\\' || s[0] == '/' then Ok(s[0], s[1..])
    else if s[0] == 'b' then Ok(0x08 as char, s[1..])
    else if s[0] == 't' then Ok(0x09 as char, s[1..])
    else if s[0] == 'n' then Ok(0x0a as char, s[1..])
    else if s[0] == 'f' then Ok(0x0c as char, s[1..])
    else if s[0] == 'r' then Ok(0x0d as char, s[1..])
    else if s[0] == 'u' then ReadUnicode(s[1..])
    else Fail
  }

  /** Read a string, given the text behind its opening quote. */
  function ReadString(s: string): (r: Read<string>)
    ensures r.Ok? ==> |r.rest| < |s|
    decreases |s|
  {
    if s == "" then Fail
    else if s[0] == '"' then Ok("", s[1..])
    else if s[0] == '\\' then
      match ReadEscape(s[1..])
      case Fail => Fail
      case Ok(c, rest) =>
        (match ReadString(rest)
         case Fail => Fail
         case Ok(t, more) => Ok([c] + t, more))
    else if s[0] as int < 0x20 then Fail
    else
      match ReadString(s[1..])
      case Fail => Fail
      case Ok(t, more) => Ok([s[0]] + t, more)
  }

  // ---- values ----

  function Get(es: seq<Entry>, k: string): (r: Option<Value>) {
    if es == [] then None
    else if es[0].key == k then Some(es[0].value)
    else Get(es[1..], k)
  }

  function Without(es: seq<Entry>, k: string): (r: seq<Entry>) {
    if es == [] then []
    else if es[0].key == k then Without(es[1..], k)
    else [es[0]] + Without(es[1..], k)
  }

  /** Put a member in front of the members read after it: a later duplicate replaces its value. */
  function Prepend(e: Entry, es: seq<Entry>): (r: seq<Entry>) {
    match Get(es, e.key)
    case None => [e] + es
    case Some(v) => [Entry(e.key, v)] + Without(es, e.key)
  }

  function ReadLiteral(s: string, literal: string, v: Value): (r: Read<Value>)
    requires literal != ""
    ensures r.Ok? ==> |r.rest| < |s|
  {
    if literal <= s then Ok(v, s[|literal|..]) else Fail
  }

  function ReadNumber(fc: FloatCodec, s: string): (r: Read<Value>)
    ensures r.Ok? ==> |r.rest| < |s|
  {
    var n := NumberSpan(s);
    if n == 0 then Fail
    else match NumberOfToken(fc, s[..n])
      case None => Fail
      case Some(num) => Ok(Num(num), s[n..])
  }

  function ReadValue(fc: FloatCodec, s: string): (r: Read<Value>)
    ensures r.Ok? ==> |r.rest| < |s|
    decreases |s|, 0
  {
    var t := SkipSpace(s);
    if t == "" then Fail
    else if t[0] == 'n' then ReadLiteral(t, "null", Null)
    else if t[0] == 't' then ReadLiteral(t, "true", Bool(true))
    else if t[0] == 'f' then ReadLiteral(t, "false", Bool(false))
    else if t[0] == '"' then
      match ReadString(t[1..])
      case Fail => Fail
      case Ok(str, rest) => Ok(Str(str), rest)
    else if t[0] == '[' then ReadArray(fc, t[1..])
    else if t[0] == '{' then ReadObject(fc, t[1..])
    else ReadNumber(fc, t)
  }

  function ReadArray(fc: FloatCodec, s: string): (r: Read<Value>)
    ensures r.Ok? ==> |r.rest| < |s|
    decreases |s|, 2
  {
    var t := SkipSpace(s);
    if t != "" && t[0] == ']' then Ok(Arr([]), t[1..])
    else match ReadItems(fc, s)
      case Fail => Fail
      case Ok(items, rest) => Ok(Arr(items), rest)
  }

  /** Read one or more items up to the closing bracket. */
  function ReadItems(fc: FloatCodec, s: string): (r: Read<seq<Value>>)
    ensures r.Ok? ==> |r.rest| < |s|
    decreases |s|, 1
  {
    match ReadValue(fc, s)
    case Fail => Fail
    case Ok(v, rest) =>
      var t := SkipSpace(rest);
      if t == "" then Fail
      else if t[0] == ']' then Ok([v], t[1..])
      else if t[0] == ',' then
        (match ReadItems(fc, t[1..])
         case Fail => Fail
         case Ok(vs, more) => Ok([v] + vs, more))
      else Fail
  }

  function ReadObject(fc: FloatCodec, s: string): (r: Read<Value>)
    ensures r.Ok? ==> |r.rest| < |s|
    decreases |s|, 2
  {
    var t := SkipSpace(s);
    if t != "" && t[0] == '}' then Ok(Obj([]), t[1..])
    else match ReadEntries(fc, s)
      case Fail => Fail
      case Ok(es, rest) => Ok(Obj(es), rest)
  }

  function ReadEntry(fc: FloatCodec, s: string): (r: Read<Entry>)
    ensures r.Ok? ==> |r.rest| < |s|
    decreases |s|, 0
  {
    var t := SkipSpace(s);
    if t == "" || t[0] != '"' then Fail
    else match ReadString(t[1..])
      case Fail => Fail
      case Ok(k, rest) =>
        var u := SkipSpace(rest);
        if u == "" || u[0] != ':' then Fail
        else match ReadValue(fc, u[1..])
          case Fail => Fail
          case Ok(v, more) => Ok(Entry(k, v), more)
  }

  /** Read one or more members up to the closing brace. */
  function ReadEntries(fc: FloatCodec, s: string): (r: Read<seq<Entry>>)
    ensures r.Ok? ==> |r.rest| < |s|
    decreases |s|, 1
  {
    match ReadEntry(fc, s)
    case Fail => Fail
    case Ok(e, rest) =>
      var t := SkipSpace(rest);
      if t == "" then Fail
      else if t[0] == '}' then Ok([e], t[1..])
      else if t[0] == ',' then
        (match ReadEntries(fc, t[1..])
         case Fail => Fail
         case Ok(es, more) => Ok(Prepend(e, es), more))
      else Fail
  }

  /** Read a whole document: one value and nothing but whitespace behind it. */
  function Parse(fc: FloatCodec, s: string): (r: Option<Value>) {
    match ReadValue(fc, s)
    case Fail => None
    case Ok(v, rest) => if SkipSpace(rest) == "" then Some(v) else None
  }
}
