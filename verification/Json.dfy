/**
 JSON values, and the reference definition of VIGIL Canonical JSON (VCJ/1): put a value in
 normal form, then print it as it stands.

 An object is the list of its members in the order its map enumerates them. `Valid` says
 that no key occurs twice, which the map guarantees.

 A double is its exact value; formatting and reading doubles is foreign code, given as a
 `FloatCodec`.
 */
module Json {
  import opened Ordering
  import opened Utf16

  datatype Option<+T> = None | Some(value: T)

  datatype Double = NonFinite | Finite(value: real, negativeZero: bool)

  datatype Number = PosInt(u: nat) | NegInt(i: int) | Float(d: Double)

  datatype Entry = Entry(key: string, value: Value)

  datatype Value =
    | Null
    | Bool(b: bool)
    | Num(n: Number)
    | Str(s: string)
    | Arr(items: seq<Value>)
    | Obj(entries: seq<Entry>)

  /** How the platform prints a double, and how its JSON reader reads a number token back. */
  datatype FloatCodec = FloatCodec(format: Double -> string, read: string -> Option<Double>)

  const MAX_CANONICAL_MAGNITUDE: real := 10_000_000_000_000_000.0
  const MAX_EXACT_INTEGER: real := 9_007_199_254_740_992.0
  const U64_LIMIT: int := 0x1_0000_0000_0000_0000
  const I64_MIN: int := -0x8000_0000_0000_0000

  // ---- objects as member lists ----

  function Keys(es: seq<Entry>): (ks: seq<string>)
    ensures |ks| == |es|
    ensures forall i :: 0 <= i < |es| ==> ks[i] == es[i].key
  {
    seq(|es|, i requires 0 <= i < |es| => es[i].key)
  }

  predicate DistinctKeys(es: seq<Entry>) {
    forall i, j :: 0 <= i < j < |es| ==> es[i].key != es[j].key
  }

  predicate Valid(v: Value) {
    match v
    case Num(PosInt(u)) => u < U64_LIMIT
    case Num(NegInt(i)) => I64_MIN <= i < 0
    case Arr(items) => forall x :: x in items ==> Valid(x)
    case Obj(es) => DistinctKeys(es) && forall e :: e in es ==> Valid(e.value)
    case _ => true
  }

  // ---- numbers ----

  function Abs(x: real): real { if x < 0.0 then -x else x }

  /** Whether a double prints without a fractional part. */
  predicate PrintsAsInteger(d: Double) {
    d.Finite? && d.value == d.value.Floor as real && Abs(d.value) < MAX_EXACT_INTEGER
  }

  function NormalNumber(n: Number): (r: Number) {
    if n.Float? && PrintsAsInteger(n.d) then
      var i := n.d.value.Floor;
      if 0 <= i then PosInt(i) else NegInt(i)
    else n
  }

  predicate HasExponent(s: string) { 'e' in s || 'E' in s }

  /** The doubles VCJ/1 accepts: bounded, and either integral or safe to print and re-read. */
  predicate RenderableNumber(fc: FloatCodec, n: Number) {
    match n
    case Float(d) =>
      && d.Finite?
      && Abs(d.value) < MAX_CANONICAL_MAGNITUDE
      && (PrintsAsInteger(d) || (!HasExponent(fc.format(d)) && fc.read(fc.format(d)) == Some(d)))
    case _ => true
  }

  function Digit(n: nat): char
    requires n < 10
  {
    (n + '0' as int) as char
  }

  function Decimal(n: nat): (s: string)
    ensures s != []
  {
    if n < 10 then [Digit(n)] else Decimal(n / 10) + [Digit(n % 10)]
  }

  function PrintInteger(i: int): (s: string) {
    if 0 <= i then Decimal(i) else "-" + Decimal(-i)
  }

  function PrintNumber(fc: FloatCodec, n: Number): (s: string) {
    match n
    case PosInt(u) => PrintInteger(u)
    case NegInt(i) => PrintInteger(i)
    case Float(d) => fc.format(d)
  }

  // ---- strings ----

  function HexDigit(n: nat): char
    requires n < 16
  {
    if n < 10 then Digit(n) else (n - 10 + 'a' as int) as char
  }

  function EscapeChar(c: char): (s: string) {
    if c == '"' then "\\\""
    else if c == '\\' then "\\\\"
    else if c == 0x08 as char then "\\b"
    else if c == 0x09 as char then "\\t"
    else if c == 0x0a as char then "\\n"
    else if c == 0x0c as char then "\\f"
    else if c == 0x0d as char then "\\r"
    else if c as int < 0x20 then "\\u00" + [HexDigit(c as int / 16), HexDigit(c as int % 16)]
    else [c]
  }

  function Escape(s: string): (r: string) {
    if s == [] then [] else EscapeChar(s[0]) + Escape(s[1..])
  }

  function PrintString(s: string): (r: string) {
    "\"" + Escape(s) + "\""
  }

  // ---- normal form ----

  function EntryRank(e: Entry): seq<int> { Units(e.key) }

  /** Integral doubles become integers and object members are sorted, at every depth. */
  function Normal(v: Value): (r: Value)
    decreases v
  {
    match v
    case Num(n) => Num(NormalNumber(n))
    case Arr(items) => Arr(NormalItems(items))
    case Obj(es) => Obj(SortBy(EntryRank, NormalEntries(es)))
    case _ => v
  }

  function NormalItems(items: seq<Value>): (r: seq<Value>)
    ensures |r| == |items|
    ensures forall i :: 0 <= i < |items| ==> r[i] == Normal(items[i])
    decreases items
  {
    seq(|items|, (i: nat) requires i < |items| => Normal(items[i]))
  }

  function NormalEntries(es: seq<Entry>): (r: seq<Entry>)
    ensures |r| == |es|
    ensures forall i :: 0 <= i < |es| ==> r[i] == Entry(es[i].key, Normal(es[i].value))
    decreases es
  {
    seq(|es|, (i: nat) requires i < |es| => Entry(es[i].key, Normal(es[i].value)))
  }

  /** Whether every number in the value has a canonical rendering. */
  predicate Renderable(fc: FloatCodec, v: Value) {
    match v
    case Num(n) => RenderableNumber(fc, n)
    case Arr(items) => forall x :: x in items ==> Renderable(fc, x)
    case Obj(es) => forall e :: e in es ==> Renderable(fc, e.value)
    case _ => true
  }

  // ---- printing a value as it stands ----

  function Print(fc: FloatCodec, v: Value): (s: string)
    decreases v
  {
    match v
    case Null => "null"
    case Bool(b) => if b then "true" else "false"
    case Num(n) => PrintNumber(fc, n)
    case Str(s) => PrintString(s)
    case Arr(items) => "[" + PrintItems(fc, items) + "]"
    case Obj(es) => "{" + PrintEntries(fc, es) + "}"
  }

  function PrintItems(fc: FloatCodec, items: seq<Value>): (s: string)
    decreases items
  {
    if items == [] then ""
    else Print(fc, items[0]) + PrintMoreItems(fc, items[1..])
  }

  /** What follows the first item: each further item behind a comma. */
  function PrintMoreItems(fc: FloatCodec, items: seq<Value>): (s: string)
    decreases items
  {
    if items == [] then ""
    else "," + (Print(fc, items[0]) + PrintMoreItems(fc, items[1..]))
  }

  function PrintEntry(fc: FloatCodec, e: Entry): (s: string)
    decreases e
  {
    PrintString(e.key) + (":" + Print(fc, e.value))
  }

  function PrintEntries(fc: FloatCodec, es: seq<Entry>): (s: string)
    decreases es
  {
    if es == [] then ""
    else PrintEntry(fc, es[0]) + PrintMoreEntries(fc, es[1..])
  }

  function PrintMoreEntries(fc: FloatCodec, es: seq<Entry>): (s: string)
    decreases es
  {
    if es == [] then ""
    else "," + (PrintEntry(fc, es[0]) + PrintMoreEntries(fc, es[1..]))
  }

  /** The canonical text of a value. */
  function Canonical(fc: FloatCodec, v: Value): (s: string) {
    Print(fc, Normal(v))
  }

  // ---- when two values are the same ----

  /** Numbers are the same when they are, or when one is an integral double of the other's value. */
  predicate SameNumber(m: Number, n: Number) {
    m == n || (IsWhole(m) && IsWhole(n) && WholeValue(m) == WholeValue(n))
  }

  predicate IsWhole(n: Number) { n.PosInt? || n.NegInt? || PrintsAsInteger(n.d) }

  function WholeValue(n: Number): int
    requires IsWhole(n)
  {
    match n
    case PosInt(u) => u
    case NegInt(i) => i
    case Float(d) => d.value.Floor
  }

  /** Equal up to integral doubles and the order of object members, at every depth. */
  ghost predicate Same(v: Value, w: Value)
    decreases v
  {
    match (v, w)
    case (Num(m), Num(n)) => SameNumber(m, n)
    case (Arr(xs), Arr(ys)) =>
      |xs| == |ys| && forall i :: 0 <= i < |xs| ==> Same(xs[i], ys[i])
    case (Obj(es), Obj(fs)) => SameMembers(es, fs)
    case _ => v == w
  }

  /** As many members, and for each one a member with its key and the same value. */
  ghost predicate SameMembers(es: seq<Entry>, fs: seq<Entry>)
    decreases es
  {
    |es| == |fs| && forall i :: 0 <= i < |es| ==> HasSame(es[i], fs)
  }

  ghost predicate HasSame(e: Entry, fs: seq<Entry>)
    decreases e
  {
    exists j :: 0 <= j < |fs| && e.key == fs[j].key && Same(e.value, fs[j].value)
  }
}
