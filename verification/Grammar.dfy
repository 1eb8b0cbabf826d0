/**
 JSON as RFC 8259 writes it: a text is the writing of a syntax tree, with any
 white space and any spelling of each character. The reader takes exactly
 these texts, to what the tree means; the printer writes the tree without
 white space, with sorted keys and one spelling for each character.
 */
module Grammar {
  import opened Base
  import opened Json
  import opened Reader
  import opened RoundTrip
  import opened Strings

  ghost predicate Blank(s: string) { forall i :: 0 <= i < |s| ==> s[i] in " \t\n\r" }

  lemma {:induction false} SkipPad(pad: string, s: string)
    requires Blank(pad) && (s == "" || !Blank(s[..1]))
    ensures SkipWs(pad + s) == s
  {
    if pad == "" {
      assert pad + s == s;
      if s != "" { assert s[..1][0] == s[0]; }
    } else {
      assert (pad + s)[1..] == pad[1..] + s;
      SkipPad(pad[1..], s);
    }
  }

  lemma {:induction false} Skipped(s: string) returns (pad: string)
    ensures Blank(pad) && s == pad + SkipWs(s)
  {
    pad := "";
    if s != "" && IsWs(s[0]) {
      var more := Skipped(s[1..]);
      pad := [s[0]] + more;
    }
  }

  // ------------------------------------------------------------ numbers

  ghost predicate Digits(s: string) { forall i :: 0 <= i < |s| ==> '0' <= s[i] <= '9' }

  ghost predicate Whole(sign: string, whole: string) {
    sign in {"", "-"} && whole != "" && Digits(whole) && (whole[0] == '0' ==> |whole| == 1)
  }

  ghost predicate Fraction(s: string) { s == "" || (|s| > 1 && s[0] == '.' && Digits(s[1..])) }

  ghost predicate Exponent(s: string) {
    || s == ""
    || (|s| > 1 && s[0] in "eE" && Digits(s[1..]))
    || (|s| > 2 && s[0] in "eE" && s[1] in "+-" && Digits(s[2..]))
  }

  /** `-? (0 | [1-9][0-9]*) ("." [0-9]+)? ([eE] [+-]? [0-9]+)?` */
  ghost predicate IsNumberText(t: string) {
    exists sign, whole, fraction, exponent ::
      Whole(sign, whole) && Fraction(fraction) && Exponent(exponent) && t == sign + (whole + (fraction + exponent))
  }

  /** What follows a number and is no part of one. */
  ghost predicate Ends(rest: string) { rest == "" || rest[0] !in "0123456789.eE+-" }

  lemma {:induction false} RunMeaning(s: string)
    ensures Digits(s[..DigitRun(s)])
    ensures DigitRun(s) < |s| ==> !('0' <= s[DigitRun(s)] <= '9')
  {
    if s != "" && IsDigit(s[0]) {
      RunMeaning(s[1..]);
      assert s[..DigitRun(s)] == [s[0]] + s[1..][..DigitRun(s[1..])];
    }
  }

  lemma {:induction false} RunOf(d: string, rest: string)
    requires Digits(d) && (rest == "" || !('0' <= rest[0] <= '9'))
    ensures DigitRun(d + rest) == |d|
  {
    if d == "" {
      assert d + rest == rest;
    } else {
      assert (d + rest)[1..] == d[1..] + rest;
      RunOf(d[1..], rest);
    }
  }

  lemma IntegerMeaning(s: string) returns (sign: string, whole: string)
    requires IntegerLength(s).Some?
    ensures s[..IntegerLength(s).value] == sign + whole && Whole(sign, whole)
  {
    var m := if s[0] == '-' then 1 else 0;
    sign, whole := s[..m], s[m..IntegerLength(s).value];
    var run := DigitRun(s[m..]);
    RunMeaning(s[m..]);
    assert s[m..][0] == s[m] == whole[0];
    assert s[m..][..run] == s[m..m + run];
    assert s[..m] == if m == 1 then "-" else "";
  }

  lemma FractionMeaning(s: string)
    requires FractionLength(s).Some?
    ensures Fraction(s[..FractionLength(s).value])
  {
    if s != "" && s[0] == '.' {
      RunMeaning(s[1..]);
      assert s[..FractionLength(s).value][1..] == s[1..][..DigitRun(s[1..])];
    }
  }

  lemma ExponentMeaning(s: string)
    requires ExponentLength(s).Some?
    ensures Exponent(s[..ExponentLength(s).value])
  {
    if s != "" && (s[0] == 'e' || s[0] == 'E') {
      var sign := if |s| > 1 && (s[1] == '+' || s[1] == '-') then 1 else 0;
      RunMeaning(s[1 + sign..]);
      assert s[..ExponentLength(s).value][1 + sign..] == s[1 + sign..][..DigitRun(s[1 + sign..])];
    }
  }

  /** What the scanner takes is a number. */
  lemma NumberTaken(s: string)
    requires NumberLength(s).Some?
    ensures IsNumberText(s[..NumberLength(s).value])
  {
    hide IntegerLength, FractionLength, ExponentLength, Whole, Fraction, Exponent;
    var i := IntegerLength(s).value;
    var f := FractionLength(s[i..]).value;
    var e := ExponentLength(s[i + f..]).value;
    var sign, whole := IntegerMeaning(s);
    FractionMeaning(s[i..]);
    ExponentMeaning(s[i + f..]);
    Pieces(s, i, f, e);
    assert s[..i + f + e] == sign + whole + (s[i..][..f] + s[i + f..][..e]) == sign + (whole + (s[i..][..f] + s[i + f..][..e]));
  }

  lemma Pieces(s: string, i: nat, f: nat, e: nat)
    requires i + f + e <= |s|
    ensures s[..i + f + e] == s[..i] + (s[i..][..f] + s[i + f..][..e])
  {
  }

  lemma IntegerOf(sign: string, whole: string, rest: string)
    requires Whole(sign, whole) && (rest == "" || !('0' <= rest[0] <= '9'))
    ensures IntegerLength(sign + (whole + rest)) == Some(|sign| + |whole|)
  {
    var s := sign + (whole + rest);
    assert s[|sign|] == whole[0] && s[|sign|..] == whole + rest;
    RunOf(whole, rest);
  }

  lemma FractionOf(fraction: string, rest: string)
    requires Fraction(fraction) && (rest == "" || (!('0' <= rest[0] <= '9') && rest[0] != '.'))
    ensures FractionLength(fraction + rest) == Some(|fraction|)
  {
    var s := fraction + rest;
    if fraction == "" {
      assert s == rest;
    } else {
      assert s[1..] == fraction[1..] + rest;
      RunOf(fraction[1..], rest);
    }
  }

  lemma ExponentOf(exponent: string, rest: string)
    requires Exponent(exponent) && Ends(rest)
    ensures ExponentLength(exponent + rest) == Some(|exponent|)
  {
    var s := exponent + rest;
    if exponent == "" {
      assert s == rest;
    } else {
      assert s[0] == exponent[0] && s[1] == exponent[1];
      var sign := if exponent[1] in "+-" then 1 else 0;
      assert s[1 + sign..] == exponent[1 + sign..] + rest;
      RunOf(exponent[1 + sign..], rest);
    }
  }

  /** A number is taken up to its end. */
  lemma NumberRead(t: string, rest: string)
    requires IsNumberText(t) && Ends(rest)
    ensures NumberLength(t + rest) == Some(|t|)
  {
    hide IntegerLength, FractionLength, ExponentLength, NumberLength, Whole, Fraction, Exponent, Ends;
    var sign, whole, fraction, exponent :|
      Whole(sign, whole) && Fraction(fraction) && Exponent(exponent) && t == sign + (whole + (fraction + exponent));
    PartsRead(sign, whole, fraction, exponent, rest);
  }

  lemma PartsRead(sign: string, whole: string, fraction: string, exponent: string, rest: string)
    requires Whole(sign, whole) && Fraction(fraction) && Exponent(exponent) && Ends(rest)
    ensures NumberLength(sign + (whole + (fraction + exponent)) + rest) == Some(|sign| + |whole| + |fraction| + |exponent|)
  {
    hide IntegerLength, FractionLength, ExponentLength, NumberLength, Whole, Fraction, Exponent, Ends;
    Starts(fraction, exponent, rest);
    IntegerOf(sign, whole, fraction + (exponent + rest));
    FractionOf(fraction, exponent + rest);
    ExponentOf(exponent, rest);
    Drops(sign, whole, fraction, exponent, rest);
    LengthOf(sign + (whole + (fraction + exponent)) + rest, |sign| + |whole|, |fraction|, |exponent|);
  }

  lemma LengthOf(s: string, i: nat, f: nat, e: nat)
    requires i + f + e <= |s|
    requires IntegerLength(s) == Some(i) && FractionLength(s[i..]) == Some(f) && ExponentLength(s[i + f..]) == Some(e)
    ensures NumberLength(s) == Some(i + f + e)
  {
    hide IntegerLength, FractionLength, ExponentLength;
  }

  lemma Drops(a: string, b: string, c: string, d: string, rest: string)
    ensures var s := a + (b + (c + d)) + rest;
            s == a + (b + (c + (d + rest))) && s[|a| + |b|..] == c + (d + rest) && s[|a| + |b| + |c|..] == d + rest
  {
  }

  lemma Starts(fraction: string, exponent: string, rest: string)
    requires Fraction(fraction) && Exponent(exponent) && Ends(rest)
    ensures var more := fraction + (exponent + rest); more == "" || !('0' <= more[0] <= '9')
    ensures var more := exponent + rest; more == "" || (!('0' <= more[0] <= '9') && more[0] != '.')
  {
    if rest != "" { NoDigit(rest[0]); }
    assert fraction == "" ==> fraction + (exponent + rest) == exponent + rest;
    assert exponent == "" ==> exponent + rest == rest;
  }

  lemma NoDigit(c: char)
    ensures c !in "0123456789.eE+-" ==> !('0' <= c <= '9') && c != '.'
  {
    var all := "0123456789.eE+-";
    if '0' <= c <= '9' { assert all[c as int - '0' as int] == c; }
    assert all[10] == '.';
  }

  lemma NumberMeaning(t: string)
    ensures IsNumber(t) <==> IsNumberText(t)
  {
    hide NumberLength, IsNumberText;
    assert t[..|t|] == t && t + "" == t;
    if IsNumber(t) { NumberTaken(t); }
    if IsNumberText(t) { NumberRead(t, ""); }
  }

  // ------------------------------------------------------------ strings

  datatype Letter = Letter(c: char, form: string)

  ghost predicate HexOf(h: char, n: int) {
    ('0' <= h <= '9' && n == h as int - '0' as int)
    || ('a' <= h <= 'f' && n == h as int - 'a' as int + 10)
    || ('A' <= h <= 'F' && n == h as int - 'A' as int + 10)
  }

  ghost predicate Hexed(c: char, h: string) {
    |h| == 4 && exists p, q, r, s ::
      HexOf(h[0], p) && HexOf(h[1], q) && HexOf(h[2], r) && HexOf(h[3], s) && c as int == 4096 * p + 256 * q + 16 * r + s
  }

  /** The spellings of a character, section 7 of RFC 8259. */
  ghost predicate Spells(form: string, c: char) {
    || (form == [c] && c as int >= 0x20 && c != '\"' && c != '\\')
    || (form == "\\\"" && c == '\"')
    || (form == "\\\\" && c == '\\')
    || (form == "\\/" && c == '/')
    || (form == "\\b" && c as int == 8)
    || (form == "\\f" && c as int == 12)
    || (form == "\\n" && c as int == 10)
    || (form == "\\r" && c as int == 13)
    || (form == "\\t" && c as int == 9)
    || (|form| == 6 && form[..2] == "\\u" && Hexed(c, form[2..]))
  }

  lemma HexMeaning(h: char, n: int)
    ensures HexOf(h, n) <==> n >= 0 && HexValue(h) == Some(n)
  {
  }

  lemma Hex4Meaning(s: string, c: char)
    ensures ReadHex4(s) == Some(c) <==> |s| >= 4 && Hexed(c, s[..4])
  {
    if |s| >= 4 {
      hide HexOf, HexValue;
      var h := s[..4];
      assert h[0] == s[0] && h[1] == s[1] && h[2] == s[2] && h[3] == s[3];
      forall d, n ensures HexOf(d, n) <==> n >= 0 && HexValue(d) == Some(n) { HexMeaning(d, n); }
      if HexValue(s[0]).Some? && HexValue(s[1]).Some? && HexValue(s[2]).Some? && HexValue(s[3]).Some? {
        var p, q, r, t := HexValue(s[0]).value, HexValue(s[1]).value, HexValue(s[2]).value, HexValue(s[3]).value;
        assert HexOf(h[0], p) && HexOf(h[1], q) && HexOf(h[2], r) && HexOf(h[3], t);
      }
    }
  }

  /** One character is read exactly from one of its spellings. */
  lemma CharMeaning(s: string, c: char, n: nat)
    requires s != ""
    ensures ReadChar(s) == Some((c, n)) <==> 0 < n <= |s| && Spells(s[..n], c)
  {
    hide ReadHex4, Hexed;
    if |s| >= 6 && s[0] == '\\' && s[1] == 'u' {
      Hex4Meaning(s[2..], c);
      assert s[..6][2..] == s[2..][..4];
      assert s[..6][..2] == "\\u";
    } else if |s| >= 2 && s[0] == '\\' && s[1] == 'u' {
      Hex4Meaning(s[2..], c);
    }
  }

  ghost predicate Spelled(ls: seq<Letter>) { forall i :: 0 <= i < |ls| ==> Spells(ls[i].form, ls[i].c) }

  function Spelling(ls: seq<Letter>): string {
    if ls == [] then "" else ls[0].form + Spelling(ls[1..])
  }

  function Letters(ls: seq<Letter>): string {
    if ls == [] then "" else [ls[0].c] + Letters(ls[1..])
  }

  lemma {:induction false} SpellingRead(ls: seq<Letter>, rest: string)
    requires Spelled(ls)
    ensures ReadChars(Spelling(ls) + "\"" + rest) == Some((Letters(ls), rest))
  {
    var s := Spelling(ls) + "\"" + rest;
    if ls == [] {
      assert s[1..] == rest;
    } else {
      hide Spells, ReadChar;
      var form, tail := ls[0].form, Spelling(ls[1..]) + "\"" + rest;
      assert s == form + tail;
      SpellsFirst(form, ls[0].c);
      assert s[..|form|] == form && s[|form|..] == tail;
      CharMeaning(s, ls[0].c, |form|);
      SpellingRead(ls[1..], rest);
    }
  }

  lemma SpellsFirst(form: string, c: char)
    requires Spells(form, c)
    ensures form != "" && form[0] != '\"'
  {
    if |form| == 6 { assert form[0] == form[..2][0]; }
  }

  lemma {:induction false} SpellingTaken(s: string) returns (ls: seq<Letter>)
    requires ReadChars(s).Some?
    ensures Spelled(ls) && Letters(ls) == ReadChars(s).value.0 && s == Spelling(ls) + "\"" + ReadChars(s).value.1
    decreases |s|
  {
    ls := [];
    if s[0] != '\"' {
      hide Spells, ReadChar;
      var (c, n) := ReadChar(s).value;
      CharMeaning(s, c, n);
      var more := SpellingTaken(s[n..]);
      ls := [Letter(c, s[..n])] + more;
      OneLetter(s, n, c, more, ReadChars(s[n..]).value.1);
    }
  }

  lemma OneLetter(s: string, n: nat, c: char, more: seq<Letter>, rest: string)
    requires n <= |s| && s[n..] == Spelling(more) + "\"" + rest && Spelled(more) && Spells(s[..n], c)
    ensures var ls := [Letter(c, s[..n])] + more;
            Spelled(ls) && Letters(ls) == [c] + Letters(more) && s == Spelling(ls) + "\"" + rest
  {
    hide Spells;
    var ls := [Letter(c, s[..n])] + more;
    assert ls[1..] == more;
    assert s == s[..n] + s[n..];
  }

  // ------------------------------------------------------------ values

  datatype Syntax =
    | Word(value: Json)
    | Number(text: string)
    | Text(letters: seq<Letter>)
    | NoItems(blank: string)
    | List(items: ItemList)
    | NoMembers(blank: string)
    | Table(members: MemberList)

  datatype ItemList = ItemList(before: string, value: Syntax, after: string, more: Option<ItemList>)

  datatype MemberList = MemberList(before: string, key: seq<Letter>, colon: string, gap: string, value: Syntax, after: string, more: Option<MemberList>)

  ghost predicate Proper(x: Syntax) {
    match x
    case Word(v) => v.Null? || v.Bool?
    case Number(t) => IsNumberText(t)
    case Text(ls) => Spelled(ls)
    case NoItems(b) => Blank(b)
    case List(l) => ProperItems(l)
    case NoMembers(b) => Blank(b)
    case Table(m) => ProperMembers(m)
  }

  ghost predicate ProperItems(l: ItemList) {
    Blank(l.before) && Proper(l.value) && Blank(l.after) && (l.more.Some? ==> ProperItems(l.more.value))
  }

  ghost predicate ProperMembers(m: MemberList) {
    && Blank(m.before) && Spelled(m.key) && Blank(m.colon) && Blank(m.gap) && Proper(m.value) && Blank(m.after)
    && (m.more.Some? ==> ProperMembers(m.more.value))
  }

  function Written(x: Syntax): string {
    match x
    case Word(v) => if v == Null then "null" else if v == Bool(true) then "true" else "false"
    case Number(t) => t
    case Text(ls) => "\"" + (Spelling(ls) + "\"")
    case NoItems(b) => "[" + (b + "]")
    case List(l) => "[" + (WrittenItems(l) + "]")
    case NoMembers(b) => "{" + (b + "}")
    case Table(m) => "{" + (WrittenMembers(m) + "}")
  }

  function WrittenItems(l: ItemList): string {
    l.before + (Written(l.value) + (l.after + if l.more.None? then "" else "," + WrittenItems(l.more.value)))
  }

  function WrittenMembers(m: MemberList): string {
    m.before + ("\"" + (Spelling(m.key) + ("\"" + (m.colon + (":" + (m.gap + (Written(m.value) + (m.after
      + if m.more.None? then "" else "," + WrittenMembers(m.more.value)))))))))
  }

  function Meaning(x: Syntax): Json {
    match x
    case Word(v) => v
    case Number(t) => Num(t)
    case Text(ls) => Str(Letters(ls))
    case NoItems(_) => Arr([])
    case List(l) => Arr(ItemsMeaning(l))
    case NoMembers(_) => Obj(map[])
    case Table(m) => Obj(MembersMeaning(m))
  }

  function ItemsMeaning(l: ItemList): seq<Json> {
    [Meaning(l.value)] + if l.more.None? then [] else ItemsMeaning(l.more.value)
  }

  /** Of members with one key the last counts. */
  function MembersMeaning(m: MemberList): map<string, Json> {
    map[Letters(m.key) := Meaning(m.value)] + if m.more.None? then map[] else MembersMeaning(m.more.value)
  }

  lemma WrittenFirst(x: Syntax)
    requires Proper(x)
    ensures Written(x) != "" && !Blank(Written(x)[..1]) && Written(x)[0] !in "]},:"
  {
    match x
    case Number(t) => NumberTextFirst(t);
    case _ => assert Written(x)[..1] == [Written(x)[0]];
  }

  lemma NumberTextFirst(t: string)
    requires IsNumberText(t)
    ensures t != "" && !Blank(t[..1]) && (t[0] == '-' || '0' <= t[0] <= '9')
  {
    var sign, whole, fraction, exponent :|
      Whole(sign, whole) && Fraction(fraction) && Exponent(exponent) && t == sign + (whole + (fraction + exponent));
    assert t[0] == if sign == "" then whole[0] else '-';
    assert t[..1] == [t[0]];
  }

  // ------------------------------------------------------------ every proper text is read

  /** The writing of a tree is read to what the tree means, and what follows is left. */
  lemma {:induction false} WrittenRead(x: Syntax, pad: string, rest: string)
    requires Proper(x) && Blank(pad) && (x.Number? ==> Ends(rest))
    ensures ReadValue(pad + (Written(x) + rest)) == Some((Meaning(x), rest))
    decreases x, 1
  {
    hide Written, Meaning, Proper, ReadString, ReadArray, ReadObject, ReadLiteral, ReadNumber, Blank;
    var s := Written(x) + rest;
    WrittenFirst(x);
    assert s[..1] == Written(x)[..1];
    SkipPad(pad, s);
    assert SkipWs(pad + s) == s;
    match x
    case Word(v) => WordRead(x, rest);
    case Number(t) => NumberValueRead(x, rest);
    case Text(ls) => TextRead(x, rest);
    case NoItems(b) => NoItemsRead(x, rest);
    case List(l) => ListRead(x, rest);
    case NoMembers(b) => NoMembersRead(x, rest);
    case Table(m) => TableRead(x, rest);
  }

  lemma WordRead(x: Syntax, rest: string)
    requires x.Word? && Proper(x)
    ensures Written(x) != "" && Written(x)[0] in "ntf" && ReadLiteral(Written(x) + rest) == Some((Meaning(x), rest))
  {
    var s := Written(x) + rest;
    assert s[|Written(x)|..] == rest && s[..|Written(x)|] == Written(x);
    assert x.value.Null? ==> s[..4][0] == 'n';
  }

  lemma NumberValueRead(x: Syntax, rest: string)
    requires x.Number? && Proper(x) && Ends(rest)
    ensures Written(x) != "" && Written(x)[0] !in "\"[{ntf" && ReadNumber(Written(x) + rest) == Some((Meaning(x), rest))
  {
    hide NumberLength, IsNumberText, Ends;
    var t := x.text;
    NumberRead(t, rest);
    NumberTextFirst(t);
    assert (t + rest)[..|t|] == t && (t + rest)[|t|..] == rest;
  }

  lemma TextRead(x: Syntax, rest: string)
    requires x.Text? && Proper(x)
    ensures Written(x) != "" && Written(x)[0] == '\"' && ReadString(Written(x) + rest) == Some((Meaning(x), rest))
  {
    hide ReadChars, Spelling, Letters;
    SpellingRead(x.letters, rest);
    assert (Written(x) + rest)[1..] == Spelling(x.letters) + "\"" + rest;
  }

  lemma NoItemsRead(x: Syntax, rest: string)
    requires x.NoItems? && Proper(x)
    ensures Written(x) != "" && Written(x)[0] == '[' && ReadArray(Written(x) + rest) == Some((Meaning(x), rest))
  {
    hide ReadItems, Blank;
    Visible(']', rest);
    SkipPad(x.blank, "]" + rest);
    assert (Written(x) + rest)[1..] == x.blank + ("]" + rest);
    assert ("]" + rest)[1..] == rest;
  }

  lemma NoMembersRead(x: Syntax, rest: string)
    requires x.NoMembers? && Proper(x)
    ensures Written(x) != "" && Written(x)[0] == '{' && ReadObject(Written(x) + rest) == Some((Meaning(x), rest))
  {
    hide ReadFields, Blank;
    Visible('}', rest);
    SkipPad(x.blank, "}" + rest);
    assert (Written(x) + rest)[1..] == x.blank + ("}" + rest);
    assert ("}" + rest)[1..] == rest;
  }

  lemma Visible(c: char, rest: string)
    requires c !in " \t\n\r"
    ensures !Blank(([c] + rest)[..1])
  {
    assert ([c] + rest)[..1][0] == c;
  }

  lemma {:induction false} ListRead(x: Syntax, rest: string)
    requires x.List? && Proper(x)
    ensures Written(x) != "" && Written(x)[0] == '[' && ReadArray(Written(x) + rest) == Some((Meaning(x), rest))
    decreases x, 0
  {
    hide ReadItems, WrittenItems, ItemsMeaning, ProperItems, Blank;
    var s := WrittenItems(x.items) + ("]" + rest);
    assert (Written(x) + rest)[1..] == s;
    ItemsStart(x.items, "]" + rest);
    ItemsRead(x.items, rest);
  }

  /** A list does not start with its closing bracket. */
  lemma ItemsStart(l: ItemList, tail: string)
    requires ProperItems(l)
    ensures var t := SkipWs(WrittenItems(l) + tail); t != "" && t[0] !in "]},:"
  {
    hide Written, Proper, Blank;
    var on := l.after + (if l.more.None? then "" else "," + WrittenItems(l.more.value));
    var s := Written(l.value) + (on + tail);
    WrittenFirst(l.value);
    assert s[..1] == Written(l.value)[..1];
    SkipPad(l.before, s);
    assert WrittenItems(l) + tail == l.before + s;
  }

  /** What may follow a value ends a number as well. */
  lemma AfterEnds(after: string, tail: string)
    requires Blank(after) && tail != "" && tail[0] in ",]}"
    ensures Ends(after + tail) && SkipWs(after + tail) == tail
  {
    assert tail[..1][0] == tail[0];
    SkipPad(after, tail);
    if after == "" { assert after + tail == tail; }
    else { assert (after + tail)[0] == after[0]; }
  }

  /** Reading one element and the punctuation after it. */
  lemma ItemRead(l: ItemList, tail: string)
    requires tail != "" && tail[0] in ",]"
    requires ReadValue(l.before + (Written(l.value) + (l.after + tail))) == Some((Meaning(l.value), l.after + tail))
    requires SkipWs(l.after + tail) == tail
    ensures ReadItems(l.before + (Written(l.value) + (l.after + tail)))
            == if tail[0] == ']' then Some(([Meaning(l.value)], tail[1..]))
               else match ReadItems(tail[1..])
                    case None => None
                    case Some((more, rest)) => Some(([Meaning(l.value)] + more, rest))
  {
    hide ReadValue, Written, Meaning, SkipWs;
  }

  lemma {:induction false} ItemsRead(l: ItemList, rest: string)
    requires ProperItems(l)
    ensures ReadItems(WrittenItems(l) + ("]" + rest)) == Some((ItemsMeaning(l), rest))
    decreases l, 0
  {
    hide ReadValue, Written, Meaning, Proper, Blank, Ends, ReadItems;
    var tail := if l.more.None? then "]" + rest else "," + (WrittenItems(l.more.value) + ("]" + rest));
    assert WrittenItems(l) + ("]" + rest) == l.before + (Written(l.value) + (l.after + tail));
    AfterEnds(l.after, tail);
    WrittenRead(l.value, l.before, l.after + tail);
    ItemRead(l, tail);
    if l.more.None? {
      assert tail[1..] == rest;
      assert [Meaning(l.value)] + [] == [Meaning(l.value)];
    } else {
      assert tail[1..] == WrittenItems(l.more.value) + ("]" + rest);
      ItemsRead(l.more.value, rest);
    }
  }

  lemma {:induction false} TableRead(x: Syntax, rest: string)
    requires x.Table? && Proper(x)
    ensures Written(x) != "" && Written(x)[0] == '{' && ReadObject(Written(x) + rest) == Some((Meaning(x), rest))
    decreases x, 0
  {
    hide ReadFields, WrittenMembers, MembersMeaning, ProperMembers, Blank;
    var s := WrittenMembers(x.members) + ("}" + rest);
    assert (Written(x) + rest)[1..] == s;
    MembersStart(x.members, "}" + rest);
    MembersRead(x.members, map[], rest);
    assert map[] + MembersMeaning(x.members) == MembersMeaning(x.members);
  }

  lemma MembersStart(m: MemberList, tail: string)
    requires ProperMembers(m)
    ensures var t := SkipWs(WrittenMembers(m) + tail); t != "" && t[0] == '\"'
  {
    hide Written, Proper, Blank, Spelling;
    var on := Spelling(m.key) + ("\"" + (m.colon + (":" + (m.gap + (Written(m.value) + (m.after
              + if m.more.None? then "" else "," + WrittenMembers(m.more.value)))))));
    var s := "\"" + (on + tail);
    Visible('\"', on + tail);
    SkipPad(m.before, s);
    assert WrittenMembers(m) + tail == m.before + s;
  }

  lemma {:induction false} MembersRead(m: MemberList, acc: map<string, Json>, rest: string)
    requires ProperMembers(m)
    ensures ReadFields(WrittenMembers(m) + ("}" + rest), acc) == Some((acc + MembersMeaning(m), rest))
    decreases m, 0
  {
    hide ReadValue, Written, Meaning, Proper, Blank, Ends, Spelling, ReadFields, Letters, MembersMeaning;
    var k, v := Letters(m.key), Meaning(m.value);
    var tail := if m.more.None? then "}" + rest else "," + (WrittenMembers(m.more.value) + ("}" + rest));
    assert WrittenMembers(m) + ("}" + rest)
           == m.before + ("\"" + (Spelling(m.key) + ("\"" + (m.colon + (":" + (m.gap + (Written(m.value) + (m.after + tail))))))));
    AfterEnds(m.after, tail);
    WrittenRead(m.value, m.gap, m.after + tail);
    MemberRead(m, tail, acc);
    MembersSplit(m, acc);
    if m.more.None? {
      assert tail[1..] == rest;
      assert acc[k := v] + map[] == acc[k := v];
    } else {
      assert tail[1..] == WrittenMembers(m.more.value) + ("}" + rest);
      MembersRead(m.more.value, acc[k := v], rest);
    }
  }

  lemma MembersSplit(m: MemberList, acc: map<string, Json>)
    ensures acc + MembersMeaning(m)
            == acc[Letters(m.key) := Meaning(m.value)] + if m.more.None? then map[] else MembersMeaning(m.more.value)
  {
  }

  /** Reading one member and the punctuation after it. */
  lemma MemberRead(m: MemberList, tail: string, acc: map<string, Json>)
    requires Blank(m.before) && Spelled(m.key) && Blank(m.colon) && tail != "" && tail[0] in ",}"
    requires ReadValue(m.gap + (Written(m.value) + (m.after + tail))) == Some((Meaning(m.value), m.after + tail))
    requires SkipWs(m.after + tail) == tail
    ensures ReadFields(m.before + ("\"" + (Spelling(m.key) + ("\"" + (m.colon + (":" + (m.gap + (Written(m.value) + (m.after + tail)))))))), acc)
            == if tail[0] == '}' then Some((acc[Letters(m.key) := Meaning(m.value)], tail[1..]))
               else ReadFields(tail[1..], acc[Letters(m.key) := Meaning(m.value)])
  {
    hide ReadValue, Written, Meaning, Blank, Spelling, Letters, ReadChars, SkipWs;
    var value := m.gap + (Written(m.value) + (m.after + tail));
    var afterKey := m.colon + (":" + value);
    var s := "\"" + (Spelling(m.key) + ("\"" + afterKey));
    Visible('\"', Spelling(m.key) + ("\"" + afterKey));
    SkipPad(m.before, s);
    SpellingRead(m.key, afterKey);
    assert s[1..] == Spelling(m.key) + "\"" + afterKey;
    Visible(':', value);
    SkipPad(m.colon, ":" + value);
    assert (":" + value)[1..] == value;
  }

  // ------------------------------------------------------------ nothing else is read

  /** What was read was the writing of a tree. */
  lemma {:induction false} ValueTaken(text: string) returns (pad: string, x: Syntax)
    requires ReadValue(text).Some?
    ensures Blank(pad) && Proper(x) && ReadValue(text).value.0 == Meaning(x)
    ensures text == pad + (Written(x) + ReadValue(text).value.1)
    decreases |text|, 1
  {
    hide ReadString, ReadArray, ReadObject, ReadLiteral, ReadNumber, Blank, Proper, Meaning, Written;
    pad := Skipped(text);
    var s := SkipWs(text);
    if s[0] == '\"' { x := TextTaken(s); }
    else if s[0] == '[' { x := ListTaken(s); }
    else if s[0] == '{' { x := TableTaken(s); }
    else if s[0] == 'n' || s[0] == 't' || s[0] == 'f' { x := WordTaken(s); }
    else { x := NumberValueTaken(s); }
  }

  lemma WordTaken(s: string) returns (x: Syntax)
    requires ReadLiteral(s).Some?
    ensures Proper(x) && ReadLiteral(s).value.0 == Meaning(x) && s == Written(x) + ReadLiteral(s).value.1
  {
    x := Word(ReadLiteral(s).value.0);
    assert s == s[..|Written(x)|] + s[|Written(x)|..];
  }

  lemma NumberValueTaken(s: string) returns (x: Syntax)
    requires ReadNumber(s).Some?
    ensures Proper(x) && ReadNumber(s).value.0 == Meaning(x) && s == Written(x) + ReadNumber(s).value.1
  {
    hide NumberLength, IsNumberText;
    NumberTaken(s);
    x := Number(s[..NumberLength(s).value]);
  }

  lemma TextTaken(s: string) returns (x: Syntax)
    requires s != "" && s[0] == '\"' && ReadString(s).Some?
    ensures Proper(x) && ReadString(s).value.0 == Meaning(x) && s == Written(x) + ReadString(s).value.1
  {
    hide ReadChars, Spelling, Letters, Spells;
    var ls := SpellingTaken(s[1..]);
    x := Text(ls);
    assert s == "\"" + s[1..];
  }

  lemma {:induction false} ListTaken(s: string) returns (x: Syntax)
    requires s != "" && s[0] == '[' && ReadArray(s).Some?
    ensures Proper(x) && ReadArray(s).value.0 == Meaning(x) && s == Written(x) + ReadArray(s).value.1
    decreases |s|, 0
  {
    hide ReadItems, Blank, ProperItems, ItemsMeaning, WrittenItems, SkipWs;
    var inner := SkipWs(s[1..]);
    assert s == "[" + s[1..];
    if inner != "" && inner[0] == ']' {
      var b := Skipped(s[1..]);
      x := NoItems(b);
      Closed("[", b, "]", inner);
    } else {
      var l := ItemsTaken(s[1..]);
      x := List(l);
      Opened("[", WrittenItems(l), "]", ReadItems(s[1..]).value.1);
    }
  }

  lemma {:induction false} TableTaken(s: string) returns (x: Syntax)
    requires s != "" && s[0] == '{' && ReadObject(s).Some?
    ensures Proper(x) && ReadObject(s).value.0 == Meaning(x) && s == Written(x) + ReadObject(s).value.1
    decreases |s|, 0
  {
    hide ReadFields, Blank, ProperMembers, MembersMeaning, WrittenMembers, SkipWs;
    var inner := SkipWs(s[1..]);
    assert s == "{" + s[1..];
    if inner != "" && inner[0] == '}' {
      var b := Skipped(s[1..]);
      x := NoMembers(b);
      Closed("{", b, "}", inner);
    } else {
      var m := MembersTaken(s[1..], map[]);
      x := Table(m);
      Opened("{", WrittenMembers(m), "}", ReadFields(s[1..], map[]).value.1);
      assert map[] + MembersMeaning(m) == MembersMeaning(m);
    }
  }

  lemma Closed(left: string, b: string, right: string, inner: string)
    requires inner != "" && right == [inner[0]]
    ensures left + (b + inner) == left + (b + right) + inner[1..]
  {
    assert inner == right + inner[1..];
  }

  lemma Opened(left: string, b: string, right: string, rest: string)
    ensures left + (b + (right + rest)) == left + (b + right) + rest
  {
  }

  lemma {:induction false} ItemsTaken(s: string) returns (l: ItemList)
    requires ReadItems(s).Some?
    ensures ProperItems(l) && ReadItems(s).value.0 == ItemsMeaning(l) && s == WrittenItems(l) + ("]" + ReadItems(s).value.1)
    decreases |s|, 2
  {
    hide ReadValue, Blank, Proper, Meaning, Written, WrittenItems;
    var before, x := ValueTaken(s);
    var afterValue := ReadValue(s).value.1;
    var after := Skipped(afterValue);
    var t := SkipWs(afterValue);
    assert t == [t[0]] + t[1..];
    if t[0] == ']' {
      l := ItemList(before, x, after, None);
      assert [Meaning(x)] + [] == [Meaning(x)];
      ItemWritten(s, l, t, t[1..]);
    } else {
      var more := ItemsTaken(t[1..]);
      l := ItemList(before, x, after, Some(more));
      ItemWritten(s, l, t, ReadItems(s).value.1);
    }
  }

  lemma ItemWritten(s: string, l: ItemList, t: string, rest: string)
    requires s == l.before + (Written(l.value) + (l.after + t))
    requires if l.more.None? then t == "]" + rest else t == "," + (WrittenItems(l.more.value) + ("]" + rest))
    ensures s == WrittenItems(l) + ("]" + rest)
  {
    hide Written;
    assert l.more.Some? ==> t == "," + WrittenItems(l.more.value) + ("]" + rest);
  }

  /** Reading one member: behind its quote, its key, behind the key, behind the colon, its value, behind the value, and from the punctuation on. */
  datatype Stations = Stations(s1: string, k: string, afterKey: string, c1: string, v: Json, afterValue: string, t: string)

  lemma FieldsShape(text: string, acc: map<string, Json>) returns (r: Stations)
    requires ReadFields(text, acc).Some?
    ensures SkipWs(text) == "\"" + r.s1 && |r.s1| < |text| && ReadChars(r.s1) == Some((r.k, r.afterKey))
    ensures SkipWs(r.afterKey) == ":" + r.c1 && |r.c1| < |text| && ReadValue(r.c1) == Some((r.v, r.afterValue))
    ensures SkipWs(r.afterValue) == r.t && r.t != "" && |r.t| < |text|
    ensures if r.t[0] == '}' then ReadFields(text, acc) == Some((acc[r.k := r.v], r.t[1..]))
            else r.t[0] == ',' && ReadFields(text, acc) == ReadFields(r.t[1..], acc[r.k := r.v])
  {
    hide ReadValue, ReadChars, SkipWs;
    var s1 := SkipWs(text)[1..];
    var (k, afterKey) := ReadChars(s1).value;
    var c1 := SkipWs(afterKey)[1..];
    var (v, afterValue) := ReadValue(c1).value;
    r := Stations(s1, k, afterKey, c1, v, afterValue, SkipWs(afterValue));
  }

  /** One member was read: its writing, and the punctuation `t` after it. */
  lemma {:induction false} MemberTaken(text: string, acc: map<string, Json>) returns (m: MemberList, t: string)
    requires ReadFields(text, acc).Some?
    ensures m.more == None && ProperMembers(m) && t != "" && |t| < |text|
    ensures text == m.before + ("\"" + (Spelling(m.key) + ("\"" + (m.colon + (":" + (m.gap + (Written(m.value) + (m.after + t))))))))
    ensures if t[0] == '}' then ReadFields(text, acc) == Some((acc[Letters(m.key) := Meaning(m.value)], t[1..]))
            else t[0] == ',' && ReadFields(text, acc) == ReadFields(t[1..], acc[Letters(m.key) := Meaning(m.value)])
    decreases |text|, 2
  {
    hide ReadFields, SkipWs, ReadValue, ReadChars, Blank, Proper, Meaning, Written, Spelling, Letters, Spelled;
    var r := FieldsShape(text, acc);
    t := r.t;
    var before := Skipped(text);
    var key := SpellingTaken(r.s1);
    var colon := Skipped(r.afterKey);
    var gap, x := ValueTaken(r.c1);
    var after := Skipped(r.afterValue);
    m := MemberList(before, key, colon, gap, x, after, None);
    Assembled(text, r, before, Spelling(key), colon, gap, Written(x), after);
  }

  lemma Assembled(text: string, r: Stations, before: string, key: string, colon: string, gap: string, value: string, after: string)
    requires text == before + ("\"" + r.s1) && r.s1 == key + "\"" + r.afterKey && r.afterKey == colon + (":" + r.c1)
    requires r.c1 == gap + (value + r.afterValue) && r.afterValue == after + r.t
    ensures text == before + ("\"" + (key + ("\"" + (colon + (":" + (gap + (value + (after + r.t))))))))
  {
    assert r.s1 == key + ("\"" + r.afterKey);
  }

  lemma {:induction false} MembersTaken(text: string, acc: map<string, Json>) returns (m: MemberList)
    requires ReadFields(text, acc).Some?
    ensures ProperMembers(m) && ReadFields(text, acc).value.0 == acc + MembersMeaning(m)
    ensures text == WrittenMembers(m) + ("}" + ReadFields(text, acc).value.1)
    decreases |text|, 3
  {
    hide ReadFields, Blank, Proper, Meaning, Written, Spelling, Letters, Spelled, MembersMeaning, WrittenMembers;
    var t;
    m, t := MemberTaken(text, acc);
    var k, v := Letters(m.key), Meaning(m.value);
    assert t == [t[0]] + t[1..];
    if t[0] == '}' {
      assert acc[k := v] + map[] == acc[k := v];
    } else {
      var more := MembersTaken(t[1..], acc[k := v]);
      m := m.(more := Some(more));
    }
    MembersSplit(m, acc);
    MemberWritten(text, m, t, ReadFields(text, acc).value.1);
  }

  lemma MemberWritten(text: string, m: MemberList, t: string, rest: string)
    requires text == m.before + ("\"" + (Spelling(m.key) + ("\"" + (m.colon + (":" + (m.gap + (Written(m.value) + (m.after + t))))))))
    requires if m.more.None? then t == "}" + rest else t == "," + (WrittenMembers(m.more.value) + ("}" + rest))
    ensures text == WrittenMembers(m) + ("}" + rest)
  {
    hide Written, Spelling;
    var on := if m.more.None? then "" else "," + WrittenMembers(m.more.value);
    var key, value := Spelling(m.key), Written(m.value);
    assert WrittenMembers(m) == m.before + ("\"" + (key + ("\"" + (m.colon + (":" + (m.gap + (value + (m.after + on))))))));
    hide WrittenMembers;
    Tail(on, t, rest, if m.more.None? then "" else WrittenMembers(m.more.value), m.more.Some?);
    Regroup(m.before, key, m.colon, m.gap, value, m.after, on, "}" + rest);
  }

  lemma Tail(on: string, t: string, rest: string, more: string, some: bool)
    requires on == (if some then "," + more else "") && t == if some then "," + (more + ("}" + rest)) else "}" + rest
    ensures t == on + ("}" + rest)
  {
  }

  lemma Regroup(a: string, b: string, c: string, d: string, e: string, f: string, g: string, h: string)
    ensures a + ("\"" + (b + ("\"" + (c + (":" + (d + (e + (f + (g + h)))))))))
            == a + ("\"" + (b + ("\"" + (c + (":" + (d + (e + (f + g)))))))) + h
  {
  }

  /** The reader takes exactly the writings of proper trees that do not end in the middle of a number. */
  lemma ReaderExact(text: string, v: Json, rest: string)
    ensures ReadValue(text) == Some((v, rest)) ==>
              exists pad, x :: Blank(pad) && Proper(x) && Meaning(x) == v && text == pad + (Written(x) + rest)
    ensures (exists pad, x :: Blank(pad) && Proper(x) && Meaning(x) == v && text == pad + (Written(x) + rest) && (x.Number? ==> Ends(rest))) ==>
              ReadValue(text) == Some((v, rest))
  {
    hide ReadValue, Blank, Proper, Meaning, Written, Ends;
    if ReadValue(text) == Some((v, rest)) {
      var pad, x := ValueTaken(text);
    }
    if pad, x :| Blank(pad) && Proper(x) && Meaning(x) == v && text == pad + (Written(x) + rest) && (x.Number? ==> Ends(rest)) {
      WrittenRead(x, pad, rest);
    }
  }

  // ------------------------------------------------------------ what the printer writes

  /** The one spelling of a character that `json.Marshal` uses. */
  ghost predicate Marshalled(l: Letter) {
    && Spells(l.form, l.c)
    && if l.c in "\"\\" || l.c as int in {8, 9, 10, 12, 13} then |l.form| == 2
       else if l.c as int < 0x20 || l.c in "<>&" || l.c as int in {0x2028, 0x2029} then
         |l.form| == 6 && forall i :: 2 <= i < 6 ==> '0' <= l.form[i] <= '9' || 'a' <= l.form[i] <= 'f'
       else l.form == [l.c]
  }

  ghost predicate AllMarshalled(ls: seq<Letter>) { forall i :: 0 <= i < |ls| ==> Marshalled(ls[i]) }

  /** No white space, one spelling for each character, and keys that strictly increase. */
  ghost predicate Compact(x: Syntax) {
    match x
    case Text(ls) => AllMarshalled(ls)
    case NoItems(b) => b == ""
    case List(l) => CompactItems(l)
    case NoMembers(b) => b == ""
    case Table(m) => CompactMembers(m) && StrictlySorted(KeysOf(m))
    case _ => true
  }

  ghost predicate CompactItems(l: ItemList) {
    l.before == "" && Compact(l.value) && l.after == "" && (l.more.Some? ==> CompactItems(l.more.value))
  }

  ghost predicate CompactMembers(m: MemberList) {
    && m.before == "" && AllMarshalled(m.key) && m.colon == "" && m.gap == "" && Compact(m.value) && m.after == ""
    && (m.more.Some? ==> CompactMembers(m.more.value))
  }

  function KeysOf(m: MemberList): seq<string> {
    [Letters(m.key)] + if m.more.None? then [] else KeysOf(m.more.value)
  }

  /** The value as it is printed: a number without text is zero. */
  function Filled(v: Json): Json {
    match v
    case Num(t) => Num(if t == "" then "0" else t)
    case Arr(items) => Arr(seq(|items|, i requires 0 <= i < |items| => Filled(items[i])))
    case Obj(fields) => Obj(map k | k in fields :: Filled(fields[k]))
    case _ => v
  }

  lemma {:induction false} FilledDecoded(v: Json)
    requires Decoded(v)
    ensures Filled(v) == v
  {
    match v
    case Arr(items) =>
      forall i | 0 <= i < |items| ensures Filled(items[i]) == items[i] { FilledDecoded(items[i]); }
    case Obj(fields) =>
      forall k | k in fields ensures Filled(fields[k]) == fields[k] { FilledDecoded(fields[k]); }
    case _ =>
  }

  lemma EscapeMarshalled(c: char)
    ensures Marshalled(Letter(c, EscapeChar(c)))
  {
    CharRoundTrip(c, "");
    var form := EscapeChar(c);
    assert form + "" == form && form[..|form|] == form;
    CharMeaning(form, c, |form|);
  }

  lemma {:induction false} EscapeSpelling(s: string) returns (ls: seq<Letter>)
    ensures AllMarshalled(ls) && Spelled(ls) && Letters(ls) == s && Spelling(ls) == Escape(s)
  {
    ls := [];
    if s != "" {
      hide EscapeChar, Marshalled;
      var more := EscapeSpelling(s[1..]);
      EscapeMarshalled(s[0]);
      MarshalledSpells(Letter(s[0], EscapeChar(s[0])));
      ls := [Letter(s[0], EscapeChar(s[0]))] + more;
      assert ls[1..] == more;
    }
  }

  lemma MarshalledSpells(l: Letter)
    requires Marshalled(l)
    ensures Spells(l.form, l.c)
  {
  }

  lemma ZeroIsNumber()
    ensures IsNumberText("0")
  {
    assert Whole("", "0") && Fraction("") && Exponent("");
    assert "" + ("0" + ("" + "")) == "0";
  }

  /** The canonical text is the compact writing of the value. */
  lemma {:induction false} CanonWritten(v: Json) returns (x: Syntax)
    requires Printable(v)
    ensures Canon(v) == Written(x) && Proper(x) && Compact(x) && Meaning(x) == Filled(v)
    decreases v
  {
    hide Canon, Written, Proper, Compact, Meaning, Filled, Keys, Printable;
    match v
    case Arr(items) => if items == [] { x := EmptyWritten(v); } else { x := ArrayWritten(v); }
    case Obj(fields) => if Keys(v) == [] { x := EmptyWritten(v); } else { x := ObjectWritten(v); }
    case _ => x := LeafWritten(v);
  }

  lemma LeafWritten(v: Json) returns (x: Syntax)
    requires Printable(v) && !v.Arr? && !v.Obj?
    ensures Canon(v) == Written(x) && Proper(x) && Compact(x) && Meaning(x) == Filled(v)
  {
    hide IsNumberText, IsNumber, Spelling, Letters, Escape;
    match v
    case Num(t) =>
      NumberMeaning(t);
      ZeroIsNumber();
      x := Number(if t == "" then "0" else t);
    case Str(s) =>
      var ls := EscapeSpelling(s);
      x := Text(ls);
    case _ => x := Word(v);
  }

  lemma EmptyWritten(v: Json) returns (x: Syntax)
    requires v == Arr([]) || (v.Obj? && Keys(v) == [])
    ensures Canon(v) == Written(x) && Proper(x) && Compact(x) && Meaning(x) == Filled(v)
  {
    if v.Arr? {
      ElementsEnd(v);
      x := NoItems("");
    } else {
      assert v.fields.Keys == {};
      MembersEnd(v);
      x := NoMembers("");
    }
  }

  lemma {:induction false} ArrayWritten(v: Json) returns (x: Syntax)
    requires v.Arr? && v.items != [] && Printable(v)
    ensures Canon(v) == Written(x) && Proper(x) && Compact(x) && Meaning(x) == Filled(v)
    decreases v, |v.items| + 1
  {
    hide Element, WrittenItems, ProperItems, CompactItems, ItemsMeaning;
    var l := ItemsWritten(v, 0);
    x := List(l);
    assert Filled(v).items[0..] == Filled(v).items;
    assert Elements(v, 0) == Element(v, 0);
  }

  lemma {:induction false} ObjectWritten(v: Json) returns (x: Syntax)
    requires v.Obj? && Keys(v) != [] && Printable(v)
    ensures Canon(v) == Written(x) && Proper(x) && Compact(x) && Meaning(x) == Filled(v)
    decreases v, |Keys(v)| + 1
  {
    hide Member, WrittenMembers, ProperMembers, CompactMembers, MembersMeaning, KeysOf, Keys, Filled;
    var m := MembersWritten(v, 0);
    x := Table(m);
    AllKeys(v, m);
    assert Members(v, 0) == Member(v, 0);
  }

  lemma {:induction false} ItemsWritten(v: Json, i: nat) returns (l: ItemList)
    requires v.Arr? && i < |v.items| && Printable(v)
    ensures Element(v, i) == WrittenItems(l) && ProperItems(l) && CompactItems(l) && ItemsMeaning(l) == Filled(v).items[i..]
    decreases v, |v.items| - i
  {
    hide Canon, Written, Proper, Compact, Meaning;
    var x := CanonWritten(v.items[i]);
    assert Filled(v).items[i] == Filled(v.items[i]);
    l := ItemList("", x, "", None);
    if i + 1 == |v.items| {
      assert Filled(v).items[i..] == [Filled(v).items[i]];
      assert [Meaning(x)] + [] == [Meaning(x)];
    } else {
      var more := ItemsWritten(v, i + 1);
      l := l.(more := Some(more));
      assert Filled(v).items[i..] == [Filled(v).items[i]] + Filled(v).items[i + 1..];
      assert Elements(v, i + 1) == "," + Element(v, i + 1);
    }
  }

  /** The printed members from the `i`-th key on. */
  ghost function From(v: Json, i: nat): map<string, Json>
    requires v.Obj? && i <= |Keys(v)|
  {
    map k | k in v.fields && k in Keys(v)[i..] :: Filled(v.fields[k])
  }

  lemma {:induction false} MembersWritten(v: Json, i: nat) returns (m: MemberList)
    requires v.Obj? && i < |Keys(v)| && Printable(v)
    ensures Member(v, i) == WrittenMembers(m) && ProperMembers(m) && CompactMembers(m)
    ensures KeysOf(m) == Keys(v)[i..] && MembersMeaning(m) == From(v, i)
    decreases v, |Keys(v)| - i
  {
    hide Canon, Written, Proper, Compact, Meaning, Keys, Spelling, Letters, Escape, From, MembersMeaning, Filled, AllMarshalled, Spelled;
    var k := Keys(v)[i];
    assert k in Keys(v);
    var key := EscapeSpelling(k);
    var x := CanonWritten(v.fields[k]);
    m := MemberList("", key, "", "", x, "", None);
    if i + 1 == |Keys(v)| {
      assert Keys(v)[i..] == [k] && [k] + [] == [k];
      MembersEnd(v);
      OneMember(v, i, key, x);
      MemberText(k, key, x, "");
    } else {
      var more := MembersWritten(v, i + 1);
      m := m.(more := Some(more));
      assert Keys(v)[i..] == [k] + Keys(v)[i + 1..];
      MoreMembers(v, i, m);
      MemberText(k, key, x, "," + WrittenMembers(more));
    }
  }

  lemma MemberText(k: string, key: seq<Letter>, x: Syntax, on: string)
    requires Spelling(key) == Escape(k)
    ensures Quote(k) + (":" + (Written(x) + on))
            == "" + ("\"" + (Spelling(key) + ("\"" + ("" + (":" + ("" + (Written(x) + ("" + on))))))))
  {
    hide Written, Escape, Spelling;
    assert Quote(k) == "\"" + (Spelling(key) + "\"");
  }

  lemma OneMember(v: Json, i: nat, key: seq<Letter>, x: Syntax)
    requires v.Obj? && i + 1 == |Keys(v)| && Keys(v)[i] in v.fields && Letters(key) == Keys(v)[i] && Meaning(x) == Filled(v.fields[Keys(v)[i]])
    ensures MembersMeaning(MemberList("", key, "", "", x, "", None)) == From(v, i)
  {
    hide Keys, Meaning, Filled, Letters;
    assert Keys(v)[i..] == [Keys(v)[i]];
    assert map[Letters(key) := Meaning(x)] + map[] == map[Letters(key) := Meaning(x)];
    assert From(v, i).Keys == {Keys(v)[i]};
  }

  lemma MoreMembers(v: Json, i: nat, m: MemberList)
    requires v.Obj? && i + 1 < |Keys(v)| && Keys(v)[i] in v.fields && m.more.Some?
    requires Letters(m.key) == Keys(v)[i] && Meaning(m.value) == Filled(v.fields[Keys(v)[i]]) && MembersMeaning(m.more.value) == From(v, i + 1)
    ensures MembersMeaning(m) == From(v, i)
  {
    hide Keys, Meaning, Filled, Letters;
    SortedDistinct(v, i);
    assert Keys(v)[i..] == [Keys(v)[i]] + Keys(v)[i + 1..];
    OneMore(v.fields, Keys(v)[i], Keys(v)[i + 1..]);
  }

  lemma OneMore(f: map<string, Json>, k: string, ks: seq<string>)
    requires k in f && k !in ks
    ensures (map x | x in f && x in [k] + ks :: Filled(f[x])) == map[k := Filled(f[k])] + map x | x in f && x in ks :: Filled(f[x])
  {
    assert forall x :: x in [k] + ks <==> x == k || x in ks;
  }

  lemma AllKeys(v: Json, m: MemberList)
    requires v.Obj? && KeysOf(m) == Keys(v)[0..] && MembersMeaning(m) == From(v, 0)
    ensures StrictlySorted(KeysOf(m)) && Obj(MembersMeaning(m)) == Filled(v)
  {
    hide MembersMeaning, KeysOf;
    assert Keys(v)[0..] == Keys(v);
    SortedStrict(v.fields.Keys);
    assert From(v, 0).Keys == Filled(v).fields.Keys;
  }
}
