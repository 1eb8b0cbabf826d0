/**
 Records, their parsing and their canonical printing
 (internal/formidable/schema.go), and the value comparison the merger uses.
 */
module Schema {
  import opened Base
  import opened Json
  import opened Reader
  import opened RoundTrip
  import opened Strings

  type Fields = map<string, Json>

  datatype Record = Record(meta: Fields, data: Fields)

  datatype ParseError = Malformed

  function Envelope(r: Record): Json {
    Obj(map["meta" := Obj(r.meta), "data" := Obj(r.data)])
  }

  /** One section of the decoded envelope: absent or null leaves it empty. */
  function Section(fields: Fields, name: string): Result<Fields, ParseError> {
    match Get<string, Json>(fields, name)
    case None => Ok(map[])
    case Some(Null) => Ok(map[])
    case Some(Obj(m)) => Ok(m)
    case _ => Err(Malformed)
  }

  /** What `ParseRecord` returns. */
  function Parse(raw: string): Result<Record, ParseError> {
    if TrimSpace(raw) == "" then Ok(Record(map[], map[]))
    else
      match ReadValue(raw)
      case None => Err(Malformed)
      case Some((Null, _)) => Ok(Record(map[], map[]))
      case Some((Obj(fields), _)) =>
        (match (Section(fields, "meta"), Section(fields, "data"))
         case (Ok(meta), Ok(data)) => Ok(Record(meta, data))
         case _ => Err(Malformed))
      case Some(_) => Err(Malformed)
  }

  method ParseRecord(raw: string) returns (r: Result<Record, ParseError>)
    ensures r == Parse(raw)
  {
    var rec := Record(map[], map[]);
    if TrimSpace(raw) == "" { return Ok(rec); }
    var decoded := ReadValue(raw);
    if decoded == None { return Err(Malformed); }
    var (envelope, _) := decoded.value;
    if envelope.Null? { return Ok(rec); }
    if !envelope.Obj? { return Err(Malformed); }
    if "meta" in envelope.fields && !envelope.fields["meta"].Null? {
      if !envelope.fields["meta"].Obj? { return Err(Malformed); }
      rec := rec.(meta := envelope.fields["meta"].fields);
    }
    if "data" in envelope.fields && !envelope.fields["data"].Null? {
      if !envelope.fields["data"].Obj? { return Err(Malformed); }
      rec := rec.(data := envelope.fields["data"].fields);
    }
    return Ok(rec);
  }

  // ------------------------------------------------------------ printing

  /** The bytes written so far. */
  class Buffer {
    var text: string

    constructor ()
      ensures text == ""
    {
      text := "";
    }

    method Write(s: string)
      modifies this
      ensures text == old(text) + s
    {
      text := text + s;
    }
  }

  /**
   Appends the canonical text of `v`; fails exactly when some number in `v`
   has a text that is no number.
   */
  method WriteCanonical(buf: Buffer, v: Json) returns (ok: bool)
    modifies buf
    ensures ok == Printable(v)
    ensures ok ==> buf.text == old(buf.text) + Canon(v)
    decreases v
  {
    match v
    case Null =>
      buf.Write("null");
      return true;
    case Obj(fields) =>
      ok := WriteMembers(buf, v);
    case Arr(items) =>
      ok := WriteElements(buf, v);
    case Bool(b) =>
      buf.Write(if b then "true" else "false");
      return true;
    case Str(s) =>
      buf.Write(Quote(s));
      return true;
    case Num(t) =>
      if t != "" && !IsNumber(t) { return false; }
      buf.Write(if t == "" then "0" else t);
      return true;
  }

  lemma MembersClosed(text: string, before: string, v: Json)
    requires v.Obj? && text + Members(v, |Keys(v)|) == before + "{" + Members(v, 0)
    ensures text + "}" == before + Canon(v)
  {
    hide Member, Keys;
    MembersEnd(v);
    assert text == before + "{" + Members(v, 0);
  }

  lemma ElementsClosed(text: string, before: string, v: Json)
    requires v.Arr? && text + Elements(v, |v.items|) == before + "[" + Elements(v, 0)
    ensures text + "]" == before + Canon(v)
  {
    assert text == before + "[" + Elements(v, 0);
    assert Canon(v) == "[" + Elements(v, 0) + "]";
  }

  lemma PrintableByKeys(v: Json)
    requires v.Obj?
    ensures Printable(v) <==> forall j :: 0 <= j < |Keys(v)| ==> Keys(v)[j] in v.fields && Printable(v.fields[Keys(v)[j]])
  {
    hide Keys;
    var keys := Keys(v);
    assert forall j :: 0 <= j < |keys| ==> keys[j] in keys;
    forall k | k in v.fields ensures exists j :: 0 <= j < |keys| && keys[j] == k { assert k in keys; }
  }

  method WriteMembers(buf: Buffer, v: Json) returns (ok: bool)
    requires v.Obj?
    modifies buf
    ensures ok == Printable(v)
    ensures ok ==> buf.text == old(buf.text) + Canon(v)
    decreases v, |Keys(v)| + 2
  {
    hide Keys, Members, Canon, Printable;
    var keys := Keys(v);
    PrintableByKeys(v);
    assert forall j :: 0 <= j < |keys| ==> keys[j] in keys;
    buf.Write("{");
    var i := 0;
    while i < |keys|
      invariant i <= |keys|
      invariant forall j :: 0 <= j < i ==> Printable(v.fields[keys[j]])
      invariant buf.text + Members(v, i) == old(buf.text) + "{" + Members(v, 0)
    {
      var fine := WriteMember(buf, v, i);
      if !fine { return false; }
      i := i + 1;
    }
    MembersClosed(buf.text, old(buf.text), v);
    buf.Write("}");
    return true;
  }

  method WriteMember(buf: Buffer, v: Json, i: nat) returns (ok: bool)
    requires v.Obj? && i < |Keys(v)| && Keys(v)[i] in v.fields
    modifies buf
    ensures ok == Printable(v.fields[Keys(v)[i]])
    ensures ok ==> buf.text + Members(v, i + 1) == old(buf.text) + Members(v, i)
    decreases v, |Keys(v)| - i
  {
    hide Canon, Keys, Quote;
    var k := Keys(v)[i];
    if i > 0 { buf.Write(","); }
    buf.Write(Quote(k));
    buf.Write(":");
    ghost var front := old(buf.text) + Comma(i) + Quote(k) + ":";
    assert buf.text == front;
    ok := WriteCanonical(buf, v.fields[k]);
    assert Members(v, i) == Comma(i) + (Quote(k) + (":" + (Canon(v.fields[k]) + Members(v, i + 1))));
    assert old(buf.text) + Members(v, i) == front + Canon(v.fields[k]) + Members(v, i + 1);
  }

  method WriteElements(buf: Buffer, v: Json) returns (ok: bool)
    requires v.Arr?
    modifies buf
    ensures ok == Printable(v)
    ensures ok ==> buf.text == old(buf.text) + Canon(v)
    decreases v, |v.items| + 2
  {
    hide Elements, Canon;
    buf.Write("[");
    var i := 0;
    while i < |v.items|
      invariant i <= |v.items|
      invariant forall j :: 0 <= j < i ==> Printable(v.items[j])
      invariant buf.text + Elements(v, i) == old(buf.text) + "[" + Elements(v, 0)
    {
      var fine := WriteElement(buf, v, i);
      if !fine { return false; }
      i := i + 1;
    }
    ElementsClosed(buf.text, old(buf.text), v);
    buf.Write("]");
    return true;
  }

  method WriteElement(buf: Buffer, v: Json, i: nat) returns (ok: bool)
    requires v.Arr? && i < |v.items|
    modifies buf
    ensures ok == Printable(v.items[i])
    ensures ok ==> buf.text + Elements(v, i + 1) == old(buf.text) + Elements(v, i)
    decreases v, |v.items| - i
  {
    hide Canon;
    if i > 0 { buf.Write(","); }
    ghost var front := old(buf.text) + Comma(i);
    assert buf.text == front;
    ok := WriteCanonical(buf, v.items[i]);
    assert Elements(v, i) == Comma(i) + (Canon(v.items[i]) + Elements(v, i + 1));
    assert old(buf.text) + Elements(v, i) == front + Canon(v.items[i]) + Elements(v, i + 1);
  }

  predicate PrintableRecord(r: Record) { Printable(Obj(r.meta)) && Printable(Obj(r.data)) }

  /** A record as `ParseRecord` leaves it. */
  predicate DecodedRecord(r: Record) { Decoded(Obj(r.meta)) && Decoded(Obj(r.data)) }

  /** The bytes `CanonicalJSON` returns. */
  function CanonicalText(r: Record): string { Canon(Envelope(r)) }

  lemma EnvelopePrintable(r: Record)
    ensures Printable(Envelope(r)) == PrintableRecord(r)
  {
    var e := Envelope(r);
    assert e.fields["meta"] == Obj(r.meta) && e.fields["data"] == Obj(r.data);
    assert forall k :: k in e.fields ==> k == "meta" || k == "data";
  }

  method CanonicalJSON(r: Record) returns (text: Option<string>)
    ensures text == if PrintableRecord(r) then Some(CanonicalText(r)) else None
  {
    hide Canon;
    var buf := new Buffer();
    var ok := WriteCanonical(buf, Envelope(r));
    EnvelopePrintable(r);
    assert "" + CanonicalText(r) == CanonicalText(r);
    text := if ok then Some(buf.text) else None;
  }

  /** A stored record reads back as exactly the record that was printed. */
  lemma RecordRoundTrip(r: Record)
    requires DecodedRecord(r)
    ensures Parse(CanonicalText(r)) == Ok(r)
  {
    hide Canon, ReadValue;
    var e := Envelope(r);
    assert e.fields.Keys == {"meta", "data"};
    ValueRoundTrip(e, "");
    assert CanonicalText(r) + "" == CanonicalText(r);
    NotBlank(r);
  }

  lemma NotBlank(r: Record)
    ensures TrimSpace(CanonicalText(r)) != ""
  {
    var s := CanonicalText(r);
    assert s[0] == '{' && TrimLeft(s) == s;
    KeepsVisible(s);
  }

  lemma {:induction false} KeepsVisible(s: string)
    requires s != "" && !IsSpace(s[0])
    ensures TrimRight(s) != ""
  {
    if |s| > 1 && IsSpace(s[|s| - 1]) { KeepsVisible(s[..|s| - 1]); }
  }

  /** Servers that merged to different records print different bytes, and only then. */
  lemma CanonicalTextInjective(a: Record, b: Record)
    requires DecodedRecord(a) && DecodedRecord(b)
    ensures CanonicalText(a) == CanonicalText(b) <==> a == b
  {
    RecordRoundTrip(a);
    RecordRoundTrip(b);
  }

  // ------------------------------------------------------------ comparison

  /** `canonicaliseForCompare`. */
  method Canonicalise(v: Json) returns (r: Json)
    ensures r == Norm(v)
    decreases v
  {
    match v
    case Num(t) => r := Str(t);
    case Obj(fields) =>
      var out: Fields := map[];
      var todo := fields.Keys;
      while todo != {}
        invariant todo <= fields.Keys
        invariant out == map k | k in fields && k !in todo :: Norm(fields[k])
      {
        var k :| k in todo;
        var c := Canonicalise(fields[k]);
        out := out[k := c];
        todo := todo - {k};
      }
      r := Obj(out);
    case Arr(items) =>
      var out: seq<Json> := [];
      for i := 0 to |items|
        invariant out == seq(i, j requires 0 <= j < i => Norm(items[j]))
      {
        var c := Canonicalise(items[i]);
        out := out + [c];
      }
      r := Arr(out);
    case _ => r := v;
  }

  /** `deepEqual`: equal exactly when the values agree once numbers are read as their text. */
  method CompareDeep(a: Json, b: Json) returns (eq: bool)
    ensures eq <==> Norm(a) == Norm(b)
  {
    var x := Canonicalise(a);
    var y := Canonicalise(b);
    eq := Canon(x) == Canon(y);
    DeepEqualExact(a, b);
  }
}
