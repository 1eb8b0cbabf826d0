/**
 A reader for JSON text, sections 2 to 7 of RFC 8259. It knows nothing of the
 printer: it accepts any member order, white space and every escape outside
 the surrogate range. Module RoundTrip proves that it takes back what the
 printer wrote.
 */
module Reader {
  import opened Base
  import opened Json
  import opened Strings

  predicate IsWs(c: char) { c == ' ' || c == '\t' || c == '\n' || c == '\r' }

  function SkipWs(s: string): (r: string)
    ensures |r| <= |s|
  {
    if s != "" && IsWs(s[0]) then SkipWs(s[1..]) else s
  }

  // ------------------------------------------------------------ strings

  function HexValue(c: char): (v: Option<nat>)
    ensures v.Some? ==> v.value < 16
  {
    if '0' <= c <= '9' then Some(c as int - 48)
    else if 'a' <= c <= 'f' then Some(c as int - 87)
    else if 'A' <= c <= 'F' then Some(c as int - 55)
    else None
  }

  /** The character named by four hex digits at the front of `s`. */
  function ReadHex4(s: string): Option<char> {
    if |s| < 4 then None
    else
      match (HexValue(s[0]), HexValue(s[1]), HexValue(s[2]), HexValue(s[3]))
      case (Some(a), Some(b), Some(c), Some(d)) =>
        var n := a * 4096 + b * 256 + c * 16 + d;
        if 0xD800 <= n < 0xE000 then None else Some(n as char)
      case _ => None
  }

  /** One possibly escaped character: the character and how much text it takes. */
  function ReadChar(s: string): (r: Option<(char, nat)>)
    requires s != ""
    ensures r.Some? ==> 0 < r.value.1 <= |s|
  {
    if s[0] == '\"' || s[0] as int < 32 then None
    else if s[0] != '\\' then Some((s[0], 1))
    else if |s| == 1 then None
    else
      match s[1]
      case '\"' => Some(('\"', 2))
      case '\\' => Some(('\\', 2))
      case '/' => Some(('/', 2))
      case 'b' => Some((8 as char, 2))
      case 'f' => Some((12 as char, 2))
      case 'n' => Some(('\n', 2))
      case 'r' => Some(('\r', 2))
      case 't' => Some(('\t', 2))
      case 'u' =>
        (match ReadHex4(s[2..])
         case Some(c) => Some((c, 6))
         case None => None)
      case _ => None
  }

  /** The characters up to the closing quote, and what follows it. */
  function ReadChars(s: string): (r: Option<(string, string)>)
    ensures r.Some? ==> |r.value.1| < |s|
    decreases |s|
  {
    if s == "" then None
    else if s[0] == '\"' then Some(("", s[1..]))
    else
      match ReadChar(s)
      case None => None
      case Some((c, n)) =>
        match ReadChars(s[n..])
        case None => None
        case Some((t, rest)) => Some(([c] + t, rest))
  }

  // ------------------------------------------------------------ values

  type Parsed<T> = Option<(T, string)>

  function ReadValue(text: string): (r: Parsed<Json>)
    ensures r.Some? ==> |r.value.1| < |text|
    decreases |text|, 1
  {
    var s := SkipWs(text);
    if s == "" then None
    else if s[0] == '\"' then ReadString(s)
    else if s[0] == '[' then ReadArray(s)
    else if s[0] == '{' then ReadObject(s)
    else if s[0] == 'n' || s[0] == 't' || s[0] == 'f' then ReadLiteral(s)
    else ReadNumber(s)
  }

  function ReadLiteral(s: string): (r: Parsed<Json>)
    ensures r.Some? ==> |r.value.1| < |s|
  {
    if HasPrefix(s, "null") then Some((Null, s[4..]))
    else if HasPrefix(s, "true") then Some((Bool(true), s[4..]))
    else if HasPrefix(s, "false") then Some((Bool(false), s[5..]))
    else None
  }

  function ReadNumber(s: string): (r: Parsed<Json>)
    ensures r.Some? ==> |r.value.1| < |s|
  {
    match NumberLength(s)
    case None => None
    case Some(n) => Some((Num(s[..n]), s[n..]))
  }

  function ReadString(s: string): (r: Parsed<Json>)
    requires s != ""
    ensures r.Some? ==> |r.value.1| < |s|
  {
    match ReadChars(s[1..])
    case None => None
    case Some((t, rest)) => Some((Str(t), rest))
  }

  function ReadArray(s: string): (r: Parsed<Json>)
    requires s != ""
    ensures r.Some? ==> |r.value.1| < |s|
    decreases |s|, 0
  {
    var inner := SkipWs(s[1..]);
    if inner != "" && inner[0] == ']' then Some((Arr([]), inner[1..]))
    else
      match ReadItems(s[1..])
      case None => None
      case Some((items, rest)) => Some((Arr(items), rest))
  }

  function ReadObject(s: string): (r: Parsed<Json>)
    requires s != ""
    ensures r.Some? ==> |r.value.1| < |s|
    decreases |s|, 0
  {
    var inner := SkipWs(s[1..]);
    if inner != "" && inner[0] == '}' then Some((Obj(map[]), inner[1..]))
    else
      match ReadFields(s[1..], map[])
      case None => None
      case Some((fields, rest)) => Some((Obj(fields), rest))
  }

  function ReadItems(s: string): (r: Parsed<seq<Json>>)
    ensures r.Some? ==> |r.value.1| < |s|
    decreases |s|, 2
  {
    match ReadValue(s)
    case None => None
    case Some((v, after)) =>
      var t := SkipWs(after);
      if t == "" then None
      else if t[0] == ']' then Some(([v], t[1..]))
      else if t[0] == ',' then
        match ReadItems(t[1..])
        case None => None
        case Some((more, rest)) => Some(([v] + more, rest))
      else None
  }

  /** Members read into `acc`; a repeated key keeps its last value. */
  function ReadFields(text: string, acc: map<string, Json>): (r: Parsed<map<string, Json>>)
    ensures r.Some? ==> |r.value.1| < |text|
    decreases |text|, 2
  {
    var s := SkipWs(text);
    if s == "" || s[0] != '\"' then None
    else
      match ReadChars(s[1..])
      case None => None
      case Some((k, afterKey)) =>
        var c := SkipWs(afterKey);
        if c == "" || c[0] != ':' then None
        else
          match ReadValue(c[1..])
          case None => None
          case Some((v, afterValue)) =>
            var t := SkipWs(afterValue);
            if t == "" then None
            else if t[0] == '}' then Some((acc[k := v], t[1..]))
            else if t[0] == ',' then ReadFields(t[1..], acc[k := v])
            else None
  }
}
