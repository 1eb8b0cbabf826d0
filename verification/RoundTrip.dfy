/**
 Unique readability of the canonical text, and what follows for `deepEqual`.
 */
module RoundTrip {
  import opened Base
  import opened Json
  import opened Reader
  import opened Strings

  /** What may follow a value without being taken for more of a number. */
  predicate Stops(rest: string) {
    rest == "" || !IsNumberChar(rest[0])
  }

  // ------------------------------------------------------------ numbers

  lemma {:induction false} DigitRunStops(s: string, rest: string)
    requires Stops(rest)
    ensures DigitRun(s + rest) == DigitRun(s)
  {
    if s != "" && IsDigit(s[0]) {
      assert (s + rest)[1..] == s[1..] + rest;
      DigitRunStops(s[1..], rest);
    }
  }

  lemma IntegerStops(s: string, rest: string)
    requires Stops(rest) && IntegerLength(s).Some?
    ensures IntegerLength(s + rest) == IntegerLength(s)
  {
    var sign := if s[0] == '-' then 1 else 0;
    assert (s + rest)[sign..] == s[sign..] + rest;
    DigitRunStops(s[sign..], rest);
  }

  lemma FractionStops(s: string, rest: string)
    requires Stops(rest) && FractionLength(s).Some?
    ensures FractionLength(s + rest) == FractionLength(s)
  {
    if s != "" && s[0] == '.' {
      assert (s + rest)[1..] == s[1..] + rest;
      DigitRunStops(s[1..], rest);
    }
  }

  lemma ExponentStops(s: string, rest: string)
    requires Stops(rest) && ExponentLength(s).Some?
    ensures ExponentLength(s + rest) == ExponentLength(s)
  {
    if s != "" && (s[0] == 'e' || s[0] == 'E') {
      var sign := if |s| > 1 && (s[1] == '+' || s[1] == '-') then 1 else 0;
      assert (s + rest)[1 + sign..] == s[1 + sign..] + rest;
      DigitRunStops(s[1 + sign..], rest);
    }
  }

  /** Numbers are not prefix-free, but a number text stops where it ends. */
  lemma NumberStops(t: string, rest: string)
    requires IsNumber(t) && Stops(rest)
    ensures NumberLength(t + rest) == Some(|t|)
  {
    hide IntegerLength, FractionLength, ExponentLength;
    var i := IntegerLength(t).value;
    var f := FractionLength(t[i..]).value;
    IntegerStops(t, rest);
    assert (t + rest)[i..] == t[i..] + rest;
    FractionStops(t[i..], rest);
    assert (t + rest)[i + f..] == t[i + f..] + rest;
    ExponentStops(t[i + f..], rest);
  }

  // ------------------------------------------------------------ string literals

  lemma HexInverse(d: nat)
    requires d < 16
    ensures HexValue(HexDigit(d)) == Some(d)
  {
  }

  lemma CharRoundTrip(c: char, tail: string)
    ensures EscapeChar(c) != ""
    ensures ReadChar(EscapeChar(c) + tail) == Some((c, |EscapeChar(c)|))
    ensures (EscapeChar(c) + tail)[0] != '\"'
  {
    var n := c as int;
    var s := EscapeChar(c) + tail;
    if |EscapeChar(c)| == 6 {
      assert s[2..][..4] == EscapeChar(c)[2..];
      HexInverse(n / 16 % 16);
      HexInverse(n % 16);
      assert ReadHex4(s[2..]) == Some(c);
    }
  }

  lemma {:induction false} CharsRoundTrip(t: string, rest: string)
    ensures ReadChars(Escape(t) + "\"" + rest) == Some((t, rest))
  {
    var s := Escape(t) + "\"" + rest;
    if t == "" {
      assert s[1..] == rest;
    } else {
      var tail := Escape(t[1..]) + "\"" + rest;
      assert s == EscapeChar(t[0]) + tail;
      CharRoundTrip(t[0], tail);
      assert s[|EscapeChar(t[0])|..] == tail;
      CharsRoundTrip(t[1..], rest);
      assert t == [t[0]] + t[1..];
    }
  }

  // ------------------------------------------------------------ values

  /** The canonical text of a value, followed by anything that cannot extend it, reads back as the value. */
  lemma {:induction false} ValueRoundTrip(v: Json, rest: string)
    requires Decoded(v) && Stops(rest)
    ensures ReadValue(Canon(v) + rest) == Some((v, rest))
    decreases v
  {
    hide ReadValue;
    match v
    case Null => LiteralRoundTrip(v, rest);
    case Bool(_) => LiteralRoundTrip(v, rest);
    case Str(t) => StringRoundTrip(t, rest);
    case Num(t) => NumberRoundTrip(t, rest);
    case Arr(items) =>
      if items == [] { EmptyRoundTrip(v, rest); } else { ArrayRoundTrip(v, rest); }
    case Obj(fields) =>
      if Keys(v) == [] {
        assert fields.Keys == {};
        assert v == Obj(map[]);
        EmptyRoundTrip(v, rest);
      } else {
        ObjectRoundTrip(v, rest);
      }
  }

  lemma LiteralRoundTrip(v: Json, rest: string)
    requires v.Null? || v.Bool?
    ensures ReadValue(Canon(v) + rest) == Some((v, rest))
  {
    hide ReadString, ReadArray, ReadObject, ReadNumber;
    var s := Canon(v) + rest;
    assert s[|Canon(v)|..] == rest && s[..|Canon(v)|] == Canon(v);
  }

  lemma EmptyRoundTrip(v: Json, rest: string)
    requires v == Arr([]) || v == Obj(map[])
    ensures ReadValue(Canon(v) + rest) == Some((v, rest))
  {
    hide ReadString, ReadLiteral, ReadItems, ReadFields, ReadNumber;
    var s := Canon(v) + rest;
    if v.Arr? {
      ElementsEnd(v);
      assert s == "[]" + rest && s[1..] == "]" + rest;
    } else {
      assert v.fields.Keys == {};
      MembersEnd(v);
      assert s == "{}" + rest && s[1..] == "}" + rest;
    }
  }

  lemma StringRoundTrip(t: string, rest: string)
    ensures ReadValue(Quote(t) + rest) == Some((Str(t), rest))
  {
    hide ReadLiteral, ReadArray, ReadObject, ReadNumber, ReadChars, Escape;
    assert (Quote(t) + rest)[1..] == Escape(t) + "\"" + rest;
    CharsRoundTrip(t, rest);
  }

  lemma ElementsEnd(v: Json)
    requires v.Arr?
    ensures Elements(v, |v.items|) == ""
  {
  }

  lemma MembersEnd(v: Json)
    requires v.Obj?
    ensures Members(v, |Keys(v)|) == ""
  {
  }

  lemma {:induction false} ArrayRoundTrip(v: Json, rest: string)
    requires v.Arr? && v.items != [] && Decoded(v)
    ensures ReadValue(Canon(v) + rest) == Some((v, rest))
    decreases v, |v.items| + 1
  {
    hide ReadString, ReadLiteral, ReadItems, ReadObject, ReadNumber, Element, Canon;
    var body := Element(v, 0) + "]" + rest;
    ElementFirst(v, 0);
    ItemsRoundTrip(v, 0, rest);
    BracketStep(v, body, rest);
    assert v.items[0..] == v.items;
  }

  lemma BracketStep(v: Json, body: string, rest: string)
    requires v.Arr? && v.items != [] && body == Element(v, 0) + "]" + rest
    ensures Canon(v) + rest == "[" + body && ("[" + body)[1..] == body
  {
    hide Element;
    assert Elements(v, 0) == Element(v, 0);
  }

  lemma ElementFirst(v: Json, i: nat)
    requires v.Arr? && i < |v.items| && Decoded(v)
    ensures Element(v, i) != "" && !IsWs(Element(v, i)[0]) && Element(v, i)[0] != ']'
  {
    hide Canon, Elements;
    FirstIsVisible(v.items[i]);
  }

  lemma {:induction false} ObjectRoundTrip(v: Json, rest: string)
    requires v.Obj? && Keys(v) != [] && Decoded(v)
    ensures ReadValue(Canon(v) + rest) == Some((v, rest))
    decreases v, |Keys(v)| + 1
  {
    hide ReadString, ReadLiteral, ReadArray, ReadFields, ReadNumber, Member, Canon;
    var body := Member(v, 0) + "}" + rest;
    MemberFirst(v, 0);
    FieldsRoundTrip(v, 0, map[], rest);
    BraceStep(v, body, rest);
    TakenAll(v);
  }

  lemma BraceStep(v: Json, body: string, rest: string)
    requires v.Obj? && Keys(v) != [] && body == Member(v, 0) + "}" + rest
    ensures Canon(v) + rest == "{" + body && ("{" + body)[1..] == body
  {
    hide Member;
    assert Members(v, 0) == Member(v, 0);
  }

  lemma MemberFirst(v: Json, i: nat)
    requires v.Obj? && i < |Keys(v)|
    ensures Member(v, i) != "" && Member(v, i)[0] == '\"'
  {
    hide Canon, Escape;
  }

  /** No value's text starts with white space or a closing bracket. */
  lemma FirstIsVisible(v: Json)
    requires Decoded(v)
    ensures Canon(v) != "" && !IsWs(Canon(v)[0]) && Canon(v)[0] != ']'
  {
    match v
    case Num(t) => NumberFirst(t);
    case _ =>
  }

  lemma NumberFirst(t: string)
    requires IsNumber(t)
    ensures t != "" && (t[0] == '-' || IsDigit(t[0]))
  {
  }

  lemma NumberRoundTrip(t: string, rest: string)
    requires IsNumber(t) && Stops(rest)
    ensures ReadValue(t + rest) == Some((Num(t), rest))
  {
    hide NumberLength;
    var s := t + rest;
    NumberStops(t, rest);
    NumberFirst(t);
    assert s[0] == t[0];
    assert SkipWs(s) == s;
    assert s[..|t|] == t && s[|t|..] == rest;
  }

  lemma {:induction false} ItemsRoundTrip(v: Json, i: nat, rest: string)
    requires v.Arr? && i < |v.items| && Decoded(v)
    ensures ReadItems(Element(v, i) + "]" + rest) == Some((v.items[i..], rest))
    decreases v, |v.items| - i
  {
    hide ReadValue, Canon;
    var after := Elements(v, i + 1) + "]" + rest;
    if i + 1 == |v.items| {
      assert after == "]" + rest;
      assert v.items[i..] == [v.items[i]];
      ValueRoundTrip(v.items[i], after);
    } else {
      assert after == "," + (Element(v, i + 1) + "]" + rest);
      ValueRoundTrip(v.items[i], after);
      ItemsRoundTrip(v, i + 1, rest);
      assert v.items[i..] == [v.items[i]] + v.items[i + 1..];
    }
    assert Element(v, i) + "]" + rest == Canon(v.items[i]) + after;
  }

  /** `acc` extended with the members of `m` named in `ks`. */
  ghost function Pick(m: map<string, Json>, ks: seq<string>, acc: map<string, Json>): map<string, Json> {
    acc + map k | k in m && k in ks :: m[k]
  }

  /** `acc` extended with the members from the `i`-th key on. */
  ghost function Taken(v: Json, i: nat, acc: map<string, Json>): map<string, Json>
    requires v.Obj? && i <= |Keys(v)|
  {
    Pick(v.fields, Keys(v)[i..], acc)
  }

  lemma TakenAll(v: Json)
    requires v.Obj?
    ensures Taken(v, 0, map[]) == v.fields
  {
    assert Keys(v)[0..] == Keys(v);
    assert Taken(v, 0, map[]).Keys == v.fields.Keys;
  }

  lemma PickStep(m: map<string, Json>, k: string, ks: seq<string>, acc: map<string, Json>)
    requires k in m && k !in ks
    ensures Pick(m, [k] + ks, acc) == Pick(m, ks, acc[k := m[k]])
  {
    assert forall x :: x in [k] + ks <==> x == k || x in ks;
  }

  lemma TakenStep(v: Json, i: nat, acc: map<string, Json>)
    requires v.Obj? && i < |Keys(v)| && Keys(v)[i] in v.fields
    ensures Taken(v, i, acc) == Taken(v, i + 1, acc[Keys(v)[i] := v.fields[Keys(v)[i]]])
  {
    hide Keys, Pick;
    var ks := Keys(v);
    SortedDistinct(v, i);
    assert ks[i..] == [ks[i]] + ks[i + 1..];
    PickStep(v.fields, ks[i], ks[i + 1..], acc);
  }

  lemma TakenEnd(v: Json, acc: map<string, Json>)
    requires v.Obj?
    ensures Taken(v, |Keys(v)|, acc) == acc
  {
  }

  lemma {:induction false} FieldsRoundTrip(v: Json, i: nat, acc: map<string, Json>, rest: string)
    requires v.Obj? && i < |Keys(v)| && Decoded(v)
    ensures ReadFields(Member(v, i) + "}" + rest, acc) == Some((Taken(v, i, acc), rest))
    decreases v, |Keys(v)| - i
  {
    hide ReadValue, Canon, ReadFields, Quote, Taken;
    var k := Keys(v)[i];
    assert k in Keys(v);
    var after := Members(v, i + 1) + "}" + rest;
    assert Member(v, i) + "}" + rest == Quote(k) + ":" + Canon(v.fields[k]) + after;
    TakenStep(v, i, acc);
    var acc' := acc[k := v.fields[k]];
    if i + 1 == |Keys(v)| {
      assert after == "}" + rest;
      ValueRoundTrip(v.fields[k], after);
      FieldStep(k, v.fields[k], after, acc);
      TakenEnd(v, acc');
    } else {
      hide Member;
      assert after == "," + (Member(v, i + 1) + "}" + rest);
      ValueRoundTrip(v.fields[k], after);
      FieldStep(k, v.fields[k], after, acc);
      FieldsRoundTrip(v, i + 1, acc', rest);
    }
  }

  /** Reading one member and the punctuation after it. */
  lemma FieldStep(k: string, x: Json, after: string, acc: map<string, Json>)
    requires after != "" && (after[0] == ',' || after[0] == '}')
    requires ReadValue(Canon(x) + after) == Some((x, after))
    ensures ReadFields(Quote(k) + ":" + Canon(x) + after, acc)
            == if after[0] == '}' then Some((acc[k := x], after[1..])) else ReadFields(after[1..], acc[k := x])
  {
    hide ReadValue, Canon, Escape, ReadChars;
    var valueOn := Canon(x) + after;
    var s := Quote(k) + ":" + Canon(x) + after;
    assert s[1..] == Escape(k) + "\"" + (":" + valueOn);
    CharsRoundTrip(k, ":" + valueOn);
    assert (":" + valueOn)[1..] == valueOn;
  }

  lemma SortedDistinct(v: Json, i: nat)
    requires v.Obj? && i < |Keys(v)|
    ensures Keys(v)[i] !in Keys(v)[i + 1..]
  {
    var ks := Keys(v);
    SortedStrict(v.fields.Keys);
    forall j | i < j < |ks| ensures ks[j] != ks[i] { LessAsymmetric(ks[i], ks[j]); }
  }

  // ------------------------------------------------------------ consequences

  /** Two decoded values with one canonical text are one value. */
  lemma CanonInjective(a: Json, b: Json)
    requires Decoded(a) && Decoded(b)
    ensures Canon(a) == Canon(b) <==> a == b
  {
    ValueRoundTrip(a, "");
    ValueRoundTrip(b, "");
  }

  /** `deepEqual`: the marshalled comparison forms are the same bytes. */
  predicate DeepEqual(a: Json, b: Json) {
    Canon(Norm(a)) == Canon(Norm(b))
  }

  /** Equal means equal after every number is replaced by its text as a string. */
  lemma DeepEqualExact(a: Json, b: Json)
    ensures DeepEqual(a, b) <==> Norm(a) == Norm(b)
  {
    NormDecoded(a);
    NormDecoded(b);
    CanonInjective(Norm(a), Norm(b));
  }
}
