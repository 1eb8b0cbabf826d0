/**
 Records as JSON texts: which bytes are parsed and to what, and which bytes a
 record is printed as, in terms of the grammar alone.
 */
module RecordMeaning {
  import opened Base
  import opened Grammar
  import opened Json
  import opened Reader
  import opened Schema
  import opened Strings

  /** The text begins, behind white space, with a writing of `v`. */
  ghost predicate Says(raw: string, v: Json) {
    exists pad, x, rest :: Blank(pad) && Proper(x) && Meaning(x) == v && raw == pad + (Written(x) + rest)
  }

  /** A section that is absent or null is empty. */
  ghost predicate HasSection(f: Fields, name: string, section: Fields) {
    if name in f && f[name] != Null then f[name] == Obj(section) else section == map[]
  }

  /** The record of a blank text or of null is empty; otherwise there is an object with two sections. Anything else is malformed. */
  ghost predicate IsRecord(raw: string, meta: Fields, data: Fields) {
    if AllSpace(raw) then meta == map[] && data == map[]
    else
      exists v :: Says(raw, v)
        && if v == Null then meta == map[] && data == map[]
           else v.Obj? && HasSection(v.fields, "meta", meta) && HasSection(v.fields, "data", data)
  }

  lemma BlankMeaning(raw: string)
    ensures TrimSpace(raw) == "" <==> AllSpace(raw)
  {
    if AllSpace(raw) {
      TrimExactly(raw, "", "");
      assert raw + "" + "" == raw;
    }
    if TrimSpace(raw) == "" {
      var l := LeftTrimmed(raw);
      var r := RightTrimmed(TrimLeft(raw));
      assert raw == l + r;
    }
  }

  lemma SaysRead(raw: string, v: Json)
    requires v == Null || v.Obj?
    ensures Says(raw, v) <==> exists rest :: ReadValue(raw) == Some((v, rest))
  {
    hide ReadValue, Blank, Proper, Meaning, Written;
    if Says(raw, v) {
      var pad, x, rest :| Blank(pad) && Proper(x) && Meaning(x) == v && raw == pad + (Written(x) + rest);
      NotNumber(x);
      WrittenRead(x, pad, rest);
    }
    if rest :| ReadValue(raw) == Some((v, rest)) { ReaderExact(raw, v, rest); }
  }

  lemma NotNumber(x: Syntax)
    requires Meaning(x) == Null || Meaning(x).Obj?
    ensures !x.Number?
  {
  }

  lemma ParseMeaning(raw: string, meta: Fields, data: Fields)
    ensures Parse(raw) == Ok(Record(meta, data)) <==> IsRecord(raw, meta, data)
  {
    hide ReadValue, Says, TrimSpace, AllSpace;
    BlankMeaning(raw);
    forall v | v == Null || v.Obj? ensures Says(raw, v) <==> exists rest :: ReadValue(raw) == Some((v, rest)) { SaysRead(raw, v); }
    if ReadValue(raw).Some? {
      var (v, rest) := ReadValue(raw).value;
      if v == Null || v.Obj? { assert Says(raw, v); }
    }
  }

  // ------------------------------------------------------------ printing

  /** `w` is `v` or stands somewhere in it. */
  ghost predicate Occurs(w: Json, v: Json)
    decreases v
  {
    || w == v
    || (v.Arr? && exists i :: 0 <= i < |v.items| && Occurs(w, v.items[i]))
    || (v.Obj? && exists k :: k in v.fields && Occurs(w, v.fields[k]))
  }

  /** Every number in the value has the text of a number, or none. */
  ghost predicate GoodNumbers(v: Json) { forall t :: Occurs(Num(t), v) ==> t == "" || IsNumberText(t) }

  lemma {:induction false} PrintableMeaning(v: Json)
    ensures Printable(v) <==> GoodNumbers(v)
  {
    match v
    case Num(t) =>
      NumberMeaning(t);
      assert Occurs(Num(t), v);
    case Arr(items) =>
      forall i | 0 <= i < |items| ensures Printable(items[i]) <==> GoodNumbers(items[i]) { PrintableMeaning(items[i]); }
      InItems(v);
    case Obj(fields) =>
      forall k | k in fields ensures Printable(fields[k]) <==> GoodNumbers(fields[k]) { PrintableMeaning(fields[k]); }
      InFields(v);
    case _ =>
  }

  lemma InItems(v: Json)
    requires v.Arr?
    ensures GoodNumbers(v) <==> forall i :: 0 <= i < |v.items| ==> GoodNumbers(v.items[i])
  {
    forall i, t | 0 <= i < |v.items| && Occurs(Num(t), v.items[i]) ensures Occurs(Num(t), v) {}
  }

  lemma InFields(v: Json)
    requires v.Obj?
    ensures GoodNumbers(v) <==> forall k :: k in v.fields ==> GoodNumbers(v.fields[k])
  {
    forall k, t | k in v.fields && Occurs(Num(t), v.fields[k]) ensures Occurs(Num(t), v) {}
  }

  /**
   Printing fails exactly on a number with a text that is no number; otherwise
   the bytes are the compact writing of the two sections.
   */
  lemma CanonicalMeaning(r: Record)
    ensures PrintableRecord(r) <==> GoodNumbers(Obj(r.meta)) && GoodNumbers(Obj(r.data))
    ensures PrintableRecord(r) ==>
              exists x :: CanonicalText(r) == Written(x) && Proper(x) && Compact(x)
                && Meaning(x) == Obj(map["meta" := Filled(Obj(r.meta)), "data" := Filled(Obj(r.data))])
  {
    hide Canon, Written, Proper, Compact, Meaning, GoodNumbers;
    PrintableMeaning(Obj(r.meta));
    PrintableMeaning(Obj(r.data));
    if PrintableRecord(r) {
      EnvelopePrintable(r);
      var x := CanonWritten(Envelope(r));
      FilledEnvelope(r);
    }
  }

  lemma FilledEnvelope(r: Record)
    ensures Filled(Envelope(r)) == Obj(map["meta" := Filled(Obj(r.meta)), "data" := Filled(Obj(r.data))])
  {
    var e := Envelope(r);
    assert e.fields["meta"] == Obj(r.meta) && e.fields["data"] == Obj(r.data);
    assert Filled(e).fields.Keys == {"meta", "data"};
  }
}
