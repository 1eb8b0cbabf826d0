/**
 What the record merge yields, said in terms of the records alone: each lemma
 names the values on the sides and in the result, and none of the rules that
 compute it.
 */
module MergeMeaning {
  import opened Base
  import opened Json
  import opened Merge
  import opened MergeLaws
  import opened RoundTrip
  import opened Schema
  import opened Strings

  // ------------------------------------------------------------ the later side

  /** `updated` is a time text, or a block with a time text under `at`. */
  ghost predicate Reads(m: Fields, s: string) {
    "updated" in m && (m["updated"] == Str(s) || (m["updated"].Obj? && "at" in m["updated"].fields && m["updated"].fields["at"] == Str(s)))
  }

  /** The record says when it was changed. */
  ghost predicate Says(lib: Lib, m: Fields, i: int) {
    exists s :: Reads(m, s) && lib.parseTime(s) == Some(i)
  }

  ghost predicate Silent(lib: Lib, m: Fields) {
    forall s :: Reads(m, s) ==> lib.parseTime(s) == None
  }

  lemma InstantSays(lib: Lib, m: Fields, i: int)
    ensures Instant(lib, m) == Some(i) <==> Says(lib, m, i)
    ensures Instant(lib, m) == None <==> Silent(lib, m)
  {
    if "updated" in m {
      match m["updated"]
      case Obj(f) =>
        if "at" in f && f["at"].Str? { assert Reads(m, f["at"].s); }
      case Str(s) => assert Reads(m, s);
      case _ =>
    }
  }

  /** The side whose `updated` block and default keys the merged record has. */
  ghost predicate Takes(lib: Lib, b: Fields, t: Fields, y: Fields, side: Fields) {
    && At(MergedMeta(lib, b, t, y), "updated") == At(side, "updated")
    && forall k :: Plain(k) && k in t && k in y ==> At(MergedMeta(lib, b, t, y), k) == At(side, k)
  }

  /** A meta key with no rule of its own. */
  predicate Plain(k: string) {
    k !in {"updated", "tags", "facets", "flagged", "created", "id", "template"}
  }

  /**
   The later side wins, yours on a tie; a side that says nothing loses to one
   that does. If neither says anything the default keys are yours, and so is
   `updated` unless it is null or missing there.
   */
  lemma LaterSideWins(lib: Lib, b: Fields, t: Fields, y: Fields)
    ensures forall i, j :: Says(lib, t, i) && Says(lib, y, j) ==> Takes(lib, b, t, y, if i > j then t else y)
    ensures forall i :: Says(lib, t, i) && Silent(lib, y) ==> Takes(lib, b, t, y, t)
    ensures forall j :: Silent(lib, t) && Says(lib, y, j) ==> Takes(lib, b, t, y, y)
    ensures Silent(lib, t) && Silent(lib, y) ==>
              && Read(MergedMeta(lib, b, t, y), "updated") == Read(if Read(y, "updated") != Null then y else t, "updated")
              && forall k :: Plain(k) && k in t && k in y ==> At(MergedMeta(lib, b, t, y), k) == At(y, k)
  {
    hide MergedMeta, Says, Silent;
    forall i ensures Instant(lib, t) == Some(i) <==> Says(lib, t, i) { InstantSays(lib, t, i); }
    forall i ensures Instant(lib, y) == Some(i) <==> Says(lib, y, i) { InstantSays(lib, y, i); }
    InstantSays(lib, t, 0);
    InstantSays(lib, y, 0);
    MetaAt(lib, b, t, y, "updated");
    forall k | Plain(k) && k in t && k in y
      ensures At(MergedMeta(lib, b, t, y), k) == if UpdatedWinner(lib, t, y) == Theirs then At(t, k) else At(y, k)
    {
      DefaultKeysNeverGo(lib, b, t, y, k);
    }
  }

  // ------------------------------------------------------------ flag and immutable keys

  /** Flagged means the very value true, on a side and in the result. */
  lemma FlagMeaning(lib: Lib, b: Fields, t: Fields, y: Fields)
    ensures At(MergedMeta(lib, b, t, y), "flagged")
            == if "flagged" !in b && "flagged" !in t && "flagged" !in y then None
               else Some(Bool(At(t, "flagged") == Some(Bool(true)) || At(y, "flagged") == Some(Bool(true))))
  {
    hide MergedMeta;
    MetaAt(lib, b, t, y, "flagged");
  }

  /** An immutable key is the base's, or theirs where the base has none, or else yours. */
  lemma ImmutableMeaning(lib: Lib, b: Fields, t: Fields, y: Fields, k: string)
    requires k in {"created", "id", "template"}
    ensures At(MergedMeta(lib, b, t, y), k) == if k in b then At(b, k) else if k in t then At(t, k) else At(y, k)
  {
    hide MergedMeta;
    MetaAt(lib, b, t, y, k);
  }

  /** It collides exactly if the base has it and a side has it with another value. */
  lemma ImmutableClash(b: Record, t: Record, y: Record, k: string)
    requires k in {"created", "id", "template"}
    ensures FieldConflict("meta", k, "immutable") in Conflicts(b, t, y)
       <==> k in b.meta && ((k in t.meta && !Same(At(b.meta, k), At(t.meta, k))) || (k in y.meta && !Same(At(b.meta, k), At(y.meta, k))))
  {
    hide DeepEqual, Clashes;
    var c := FieldConflict("meta", k, "immutable");
    ConflictsExact(b, t, y, c);
  }

  // ------------------------------------------------------------ facets

  /** The facets of a record: its `facets` object, and none if it has no such object. */
  ghost predicate HasFacets(meta: Fields, f: Fields) {
    if "facets" in meta && meta["facets"].Obj? then meta["facets"] == Obj(f) else f == map[]
  }

  /** Facets merge like data fields, facet by facet; when none remain the key is dropped. */
  lemma FacetsMeaning(lib: Lib, b: Record, t: Record, y: Record, bf: Fields, tf: Fields, yf: Fields, k: string)
    requires HasFacets(b.meta, bf) && HasFacets(t.meta, tf) && HasFacets(y.meta, yf)
    ensures At(MergedMeta(lib, b.meta, t.meta, y.meta), "facets")
            == if MergedMap(bf, tf, yf) == map[] then None else Some(Obj(MergedMap(bf, tf, yf)))
    ensures FieldConflict("meta", "facets." + k, "") in Conflicts(b, t, y) <==> k in Clashes(bf, tf, yf)
  {
    hide MergedMeta, MergedMap, Clashes, Divergent;
    assert FacetMap(b.meta) == bf && FacetMap(t.meta) == tf && FacetMap(y.meta) == yf;
    MetaAt(lib, b.meta, t.meta, y.meta, "facets");
    if "facets" !in UnionKeys(b.meta, t.meta, y.meta) { EmptyMerge(); }
    var c := FieldConflict("meta", "facets." + k, "");
    ConflictsExact(b, t, y, c);
    FacetName(k);
  }

  lemma FacetName(k: string)
    ensures forall x :: "facets." + x == "facets." + k ==> x == k
  {
    forall x | "facets." + x == "facets." + k ensures x == k {
      assert ("facets." + x)[7..] == x && ("facets." + k)[7..] == k;
    }
  }

  // ------------------------------------------------------------ tags

  /** `x` is the text `s` without outer space and in lower case, if anything is left. */
  ghost predicate TagOf(lib: Lib, s: string, x: string) {
    exists u :: Trimmed(s, u) && u != "" && |x| == |u| && forall i :: 0 <= i < |u| ==> x[i] == lib.lower(u[i])
  }

  lemma NormTagMeaning(lib: Lib, s: string, x: string)
    ensures TagOf(lib, s, x) <==> x != "" && NormTag(lib, s) == x
  {
    hide TrimSpace;
    forall u ensures Trimmed(s, u) <==> TrimSpace(s) == u { TrimMeaning(s, u); }
  }

  /** A side lists a text whose tag is `x`. */
  ghost predicate ListsTag(lib: Lib, m: Fields, x: string) {
    "tags" in m && m["tags"].Arr? && exists s :: Str(s) in m["tags"].items && TagOf(lib, s, x)
  }

  /** The merged tags: strictly sorted, and exactly the tags of the texts that a side lists; nothing else in the lists counts. */
  lemma TagsMeaning(lib: Lib, b: Fields, t: Fields, y: Fields)
    requires "tags" in b || "tags" in t || "tags" in y
    ensures exists ks ::
              && At(MergedMeta(lib, b, t, y), "tags") == Some(Arr(Strs(ks))) && StrictlySorted(ks)
              && forall x :: x in ks <==> ListsTag(lib, t, x) || ListsTag(lib, y, x)
  {
    hide MergedMeta, MergedTags, TagSet;
    MetaAt(lib, b, t, y, "tags");
    TagsSorted(lib, Read(t, "tags"), Read(y, "tags"));
    var ks :| MergedTags(lib, Read(t, "tags"), Read(y, "tags")) == Arr(Strs(ks)) && StrictlySorted(ks)
              && forall x :: x in ks <==> x in TagSet(lib, Read(t, "tags")) || x in TagSet(lib, Read(y, "tags"));
    forall x ensures x in ks <==> ListsTag(lib, t, x) || ListsTag(lib, y, x) {
      TagSetMeaning(lib, t, x);
      TagSetMeaning(lib, y, x);
    }
  }

  lemma TagSetMeaning(lib: Lib, m: Fields, x: string)
    ensures x in TagSet(lib, Read(m, "tags")) <==> ListsTag(lib, m, x)
  {
    hide NormTag, TagOf;
    forall s ensures TagOf(lib, s, x) <==> x != "" && NormTag(lib, s) == x { NormTagMeaning(lib, s, x); }
    if x in TagSet(lib, Read(m, "tags")) {
      var el :| el in m["tags"].items && el.Str? && NormTag(lib, el.s) == x;
      assert Str(el.s) in m["tags"].items;
    }
  }

  // ------------------------------------------------------------ comparison and outcome

  /**
   What counts as the same value: numbers and strings by their text, arrays
   place by place, objects key by key, anything else only itself.
   */
  lemma SameCases(a: Json, b: Json)
    ensures DeepEqual(a, b) <==>
      match (a, b)
      case (Arr(xs), Arr(ys)) => |xs| == |ys| && forall i :: 0 <= i < |xs| ==> DeepEqual(xs[i], ys[i])
      case (Obj(f), Obj(g)) => f.Keys == g.Keys && forall k :: k in f ==> DeepEqual(f[k], g[k])
      case (Num(s), Num(t)) => s == t
      case (Num(s), Str(t)) => s == t
      case (Str(s), Num(t)) => s == t
      case _ => a == b
  {
    hide DeepEqual;
    DeepEqualEverywhere();
    if a.Arr? && b.Arr? {
      NormItems(a, b);
    } else if a.Obj? && b.Obj? {
      NormFields(a, b);
    }
  }

  lemma DeepEqualEverywhere()
    ensures forall a, b {:trigger DeepEqual(a, b)} :: DeepEqual(a, b) <==> Norm(a) == Norm(b)
  {
    forall a, b ensures DeepEqual(a, b) <==> Norm(a) == Norm(b) { DeepEqualExact(a, b); }
  }

  lemma NormItems(a: Json, b: Json)
    requires a.Arr? && b.Arr?
    ensures Norm(a) == Norm(b) <==> |a.items| == |b.items| && forall i :: 0 <= i < |a.items| ==> Norm(a.items[i]) == Norm(b.items[i])
  {
    var x, y := Norm(a).items, Norm(b).items;
    assert |x| == |a.items| && |y| == |b.items|;
    assert forall i :: 0 <= i < |x| ==> x[i] == Norm(a.items[i]);
    assert forall i :: 0 <= i < |y| ==> y[i] == Norm(b.items[i]);
    assert |x| == |y| && (forall i :: 0 <= i < |x| ==> x[i] == y[i]) ==> x == y;
  }

  lemma NormFields(a: Json, b: Json)
    requires a.Obj? && b.Obj?
    ensures Norm(a) == Norm(b) <==> a.fields.Keys == b.fields.Keys && forall k :: k in a.fields ==> Norm(a.fields[k]) == Norm(b.fields[k])
  {
    var x, y := Norm(a).fields, Norm(b).fields;
    NormField(a);
    NormField(b);
    hide Norm;
    if a.fields.Keys == b.fields.Keys && forall k :: k in a.fields ==> Norm(a.fields[k]) == Norm(b.fields[k]) { assert x == y; }
  }

  lemma NormField(a: Json)
    requires a.Obj?
    ensures Norm(a).Obj? && Norm(a).fields.Keys == a.fields.Keys && forall k :: k in a.fields ==> Norm(a).fields[k] == Norm(a.fields[k])
  {
  }

  /** Field by field: an unchanged side gives way, equal changes meet, and anything else collides. */
  lemma FieldMeaning(b: Fields, t: Fields, y: Fields, k: string)
    ensures k in Clashes(b, t, y) <==> !Same(At(b, k), At(t, k)) && !Same(At(b, k), At(y, k)) && !Same(At(t, k), At(y, k))
    ensures k !in Clashes(b, t, y) ==>
              At(MergedMap(b, t, y), k)
              == if !Same(At(b, k), At(t, k)) then At(t, k) else if !Same(At(b, k), At(y, k)) then At(y, k) else At(b, k)
  {
    hide Same, MergedMap, Clashes;
    ClashExact(b, t, y, k);
    MergedFieldAt(b, t, y, k);
  }

  /** Meta conflicts come first, the immutable keys before the facets; then data. Facets and data are each in key order. */
  lemma ConflictOrder(b: Record, t: Record, y: Record)
    ensures exists ik, fk, dk ::
              && Conflicts(b, t, y)
                 == Marked(ik) + Named("meta", "facets.", fk) + Named("data", "", dk)
              && StrictlySorted(ik) && StrictlySorted(fk) && StrictlySorted(dk)
  {
    hide Clashes, Divergent, FacetMap;
    var bf, tf, yf := FacetMap(b.meta), FacetMap(t.meta), FacetMap(y.meta);
    ClashesOrdered(bf, tf, yf);
    ClashesOrdered(b.data, t.data, y.data);
    var ik := ImmutablesOrdered(b.meta, t.meta, y.meta);
    assert Conflicts(b, t, y) == ImmutableConflicts(b.meta, t.meta, y.meta) + Named("meta", "facets.", Clashes(bf, tf, yf)) + Named("data", "", Clashes(b.data, t.data, y.data));
  }

  lemma ClashesOrdered(b: Fields, t: Fields, y: Fields)
    ensures StrictlySorted(Clashes(b, t, y))
  {
    SortedStrict(UnionKeys(b, t, y));
    ClashesInSorted(b, t, y, Sorted(UnionKeys(b, t, y)));
  }

  lemma ImmutablesOrdered(b: Fields, t: Fields, y: Fields) returns (ik: seq<string>)
    ensures ImmutableConflicts(b, t, y) == Marked(ik)
    ensures StrictlySorted(ik)
  {
    hide Divergent, Marked;
    var c, i, t' := Divergent(b, t, y, "created"), Divergent(b, t, y, "id"), Divergent(b, t, y, "template");
    ik := (if c then ["created"] else []) + (if i then ["id"] else []) + (if t' then ["template"] else []);
    KeysInOrder(c, i, t');
    MarkedBoth(if c then ["created"] else [], if i then ["id"] else []);
    MarkedBoth((if c then ["created"] else []) + (if i then ["id"] else []), if t' then ["template"] else []);
    MarkedOne("created", c);
    MarkedOne("id", i);
    MarkedOne("template", t');
  }

  /** Conflicts over immutable keys. */
  function Marked(ks: seq<string>): seq<FieldConflict> { seq(|ks|, i requires 0 <= i < |ks| => FieldConflict("meta", ks[i], "immutable")) }

  lemma MarkedBoth(a: seq<string>, b: seq<string>)
    ensures Marked(a + b) == Marked(a) + Marked(b)
  {
  }

  lemma MarkedOne(k: string, some: bool)
    ensures Marked(if some then [k] else []) == if some then [FieldConflict("meta", k, "immutable")] else []
  {
  }

  lemma KeysInOrder(c: bool, i: bool, t: bool)
    ensures StrictlySorted((if c then ["created"] else []) + (if i then ["id"] else []) + (if t then ["template"] else []))
  {
    assert Less("created", "id") && Less("created", "template") && Less("id", "template");
  }

  /**
   What the caller gets: any conflict is reported, with the path, and nothing
   is merged; otherwise bytes that read back as a record with the merged meta
   and the merged data.
   */
  lemma MergeReports(lib: Lib, path: string, b: Record, t: Record, y: Record)
    requires DecodedRecord(b) && DecodedRecord(t) && DecodedRecord(y)
    ensures var r := Reconcile(lib, path, b, t, y);
            if Conflicts(b, t, y) != [] then r == Conflict(path, Conflicts(b, t, y))
            else r.Merged? && Parse(r.bytes) == Ok(Record(MergedMeta(lib, b.meta, t.meta, y.meta), MergedMap(b.data, t.data, y.data)))
  {
    hide Conflicts, MergedMeta, MergedMap, CanonicalText, Parse, DecodedRecord, PrintableRecord;
    DecodedMergedRecord(lib, b, t, y);
    if Conflicts(b, t, y) == [] { RecordRoundTrip(MergedRecord(lib, b, t, y)); }
  }
}
