/**
 Decoded JSON values as the merger sees them, their canonical text, and the
 number-to-text normalisation behind `deepEqual`.
 */
module Json {
  import opened Base
  import opened Strings

  /** `Num` keeps the number's text (`json.Number`). */
  datatype Json =
    | Null
    | Bool(b: bool)
    | Num(text: string)
    | Str(s: string)
    | Arr(items: seq<Json>)
    | Obj(fields: map<string, Json>)

  // ------------------------------------------------------------ numbers

  predicate IsDigit(c: char) { '0' <= c <= '9' }

  /** Characters that may occur in a number. */
  predicate IsNumberChar(c: char) {
    IsDigit(c) || c == '.' || c == 'e' || c == 'E' || c == '+' || c == '-'
  }

  function DigitRun(s: string): (n: nat)
    ensures n <= |s|
  {
    if s == "" || !IsDigit(s[0]) then 0 else 1 + DigitRun(s[1..])
  }

  /** Length of the integer part, section 6 of RFC 8259: `-? (0 | [1-9][0-9]*)`. */
  function IntegerLength(s: string): (n: Option<nat>)
    ensures n.Some? ==> 0 < n.value <= |s|
  {
    var sign := if s != "" && s[0] == '-' then 1 else 0;
    if |s| == sign || !IsDigit(s[sign]) then None
    else if s[sign] == '0' then Some(sign + 1)
    else Some(sign + DigitRun(s[sign..]))
  }

  /** Length of an optional fraction: `("." [0-9]+)?`. */
  function FractionLength(s: string): (n: Option<nat>)
    ensures n.Some? ==> n.value <= |s|
  {
    if s == "" || s[0] != '.' then Some(0)
    else
      var d := DigitRun(s[1..]);
      if d == 0 then None else Some(1 + d)
  }

  /** Length of an optional exponent: `([eE] [+-]? [0-9]+)?`. */
  function ExponentLength(s: string): (n: Option<nat>)
    ensures n.Some? ==> n.value <= |s|
  {
    if s == "" || (s[0] != 'e' && s[0] != 'E') then Some(0)
    else
      var sign := if |s| > 1 && (s[1] == '+' || s[1] == '-') then 1 else 0;
      var d := DigitRun(s[1 + sign..]);
      if d == 0 then None else Some(1 + sign + d)
  }

  /** How many characters a scanner takes for a number at the front of `s`. */
  function NumberLength(s: string): (n: Option<nat>)
    ensures n.Some? ==> 0 < n.value <= |s|
  {
    match IntegerLength(s)
    case None => None
    case Some(i) =>
      match FractionLength(s[i..])
      case None => None
      case Some(f) =>
        match ExponentLength(s[i + f..])
        case None => None
        case Some(e) => Some(i + f + e)
  }

  /** The whole text is one number. */
  predicate IsNumber(t: string) {
    NumberLength(t) == Some(|t|)
  }

  // ------------------------------------------------------------ string literals

  function HexDigit(d: nat): char
    requires d < 16
  {
    if d < 10 then (48 + d) as char else (87 + d) as char
  }

  /** How `json.Marshal` writes one character inside a string literal. */
  function EscapeChar(c: char): string {
    var n := c as int;
    if c == '\"' then "\\\""
    else if c == '\\' then "\\\\"
    else if n == 8 then "\\b"
    else if n == 12 then "\\f"
    else if n == 10 then "\\n"
    else if n == 13 then "\\r"
    else if n == 9 then "\\t"
    else if n < 32 || c == '<' || c == '>' || c == '&' then "\\u00" + [HexDigit(n / 16), HexDigit(n % 16)]
    else if n == 0x2028 then "\\u2028"
    else if n == 0x2029 then "\\u2029"
    else [c]
  }

  function Escape(s: string): string {
    if s == "" then "" else EscapeChar(s[0]) + Escape(s[1..])
  }

  function Quote(s: string): string {
    "\"" + Escape(s) + "\""
  }

  // ------------------------------------------------------------ canonical text

  function Comma(i: nat): string {
    if i > 0 then "," else ""
  }

  /** The keys of an object in the order they are printed. */
  function Keys(v: Json): (r: seq<string>)
    requires v.Obj?
    ensures forall k :: k in r <==> k in v.fields
  {
    SortedMembers(v.fields.Keys);
    Sorted(v.fields.Keys)
  }

  /** Every number can be marshalled: its text is a number, or empty (printed as `0`). */
  predicate Printable(v: Json) {
    match v
    case Num(t) => t == "" || IsNumber(t)
    case Arr(items) => forall i :: 0 <= i < |items| ==> Printable(items[i])
    case Obj(fields) => forall k :: k in fields ==> Printable(fields[k])
    case _ => true
  }

  /** Every number's text is a number, as a decoder leaves it. */
  predicate Decoded(v: Json) {
    match v
    case Num(t) => IsNumber(t)
    case Arr(items) => forall i :: 0 <= i < |items| ==> Decoded(items[i])
    case Obj(fields) => forall k :: k in fields ==> Decoded(fields[k])
    case _ => true
  }

  /** The canonical text: keys sorted at every depth, no white space. */
  function Canon(v: Json): string
    decreases v
  {
    match v
    case Null => "null"
    case Bool(b) => if b then "true" else "false"
    case Num(t) => if t == "" then "0" else t
    case Str(s) => Quote(s)
    case Arr(_) => "[" + Elements(v, 0) + "]"
    case Obj(_) => "{" + Members(v, 0) + "}"
  }

  /** The array text from element `i` on. */
  function Elements(v: Json, i: nat): string
    requires v.Arr? && i <= |v.items|
    decreases v, |v.items| - i, 1
  {
    if i == |v.items| then "" else Comma(i) + Element(v, i)
  }

  /** The same without a leading comma. */
  function Element(v: Json, i: nat): string
    requires v.Arr? && i < |v.items|
    decreases v, |v.items| - i, 0
  {
    Canon(v.items[i]) + Elements(v, i + 1)
  }

  /** The object text from the `i`-th key on. */
  function Members(v: Json, i: nat): string
    requires v.Obj? && i <= |Keys(v)|
    decreases v, |Keys(v)| - i, 1
  {
    if i == |Keys(v)| then "" else Comma(i) + Member(v, i)
  }

  /** The same without a leading comma. */
  function Member(v: Json, i: nat): string
    requires v.Obj? && i < |Keys(v)|
    decreases v, |Keys(v)| - i, 0
  {
    var k := Keys(v)[i];
    assert k in Keys(v);
    Quote(k) + (":" + (Canon(v.fields[k]) + Members(v, i + 1)))
  }

  // ------------------------------------------------------------ comparison form

  /** Every number replaced by its text as a string. */
  function Norm(v: Json): Json {
    match v
    case Num(t) => Str(t)
    case Arr(items) => Arr(seq(|items|, i requires 0 <= i < |items| => Norm(items[i])))
    case Obj(fields) => Obj(map k | k in fields :: Norm(fields[k]))
    case _ => v
  }

  lemma {:induction false} NormDecoded(v: Json)
    ensures Decoded(Norm(v))
  {
    match v
    case Arr(items) =>
      forall i | 0 <= i < |items| ensures Decoded(Norm(items[i])) { NormDecoded(items[i]); }
    case Obj(fields) =>
      forall k | k in fields ensures Decoded(Norm(fields[k])) { NormDecoded(fields[k]); }
    case _ =>
  }
}
