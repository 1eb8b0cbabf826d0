/**
 Three-way merge of records (internal/formidable/merge.go and meta.go): the
 functions that say what each rule yields, and the loops that compute them.
 */
module Merge {
  import opened Base
  import opened Json
  import opened RoundTrip
  import opened Schema
  import opened Strings

  // ------------------------------------------------------------ one field

  /** A field's presence and value on one side. */
  type Value = Option<Json>

  function At(m: Fields, k: string): Value { Get<string, Json>(m, k) }

  /** A Go map read without the presence flag: absent reads as null. */
  function Read(m: Fields, k: string): Json {
    if k in m then m[k] else Null
  }

  /** `sameField`. */
  predicate Same(a: Value, b: Value) {
    match (a, b)
    case (None, None) => true
    case (Some(x), Some(y)) => DeepEqual(x, y)
    case _ => false
  }

  datatype Outcome = Keep(result: Value) | Clash

  /** The rule for one data field or facet. */
  function MergeField(base: Value, theirs: Value, yours: Value): Outcome {
    var tChanged := !Same(base, theirs);
    var yChanged := !Same(base, yours);
    if !tChanged && !yChanged then Keep(base)
    else if tChanged && !yChanged then Keep(theirs)
    else if !tChanged && yChanged then Keep(yours)
    else if Same(theirs, yours) then Keep(theirs)
    else Clash
  }

  // ------------------------------------------------------------ a map of fields

  function OutcomeAt(b: Fields, t: Fields, y: Fields, k: string): Outcome {
    MergeField(At(b, k), At(t, k), At(y, k))
  }

  function UnionKeys(b: Fields, t: Fields, y: Fields): set<string> {
    b.Keys + t.Keys + y.Keys
  }

  /** The fields that survive. */
  function MergedMap(b: Fields, t: Fields, y: Fields): Fields {
    map k | k in UnionKeys(b, t, y) && OutcomeAt(b, t, y, k).Keep? && OutcomeAt(b, t, y, k).result.Some?
      :: OutcomeAt(b, t, y, k).result.value
  }

  /** The fields that clash, among `ks` and in their order. */
  function ClashesIn(b: Fields, t: Fields, y: Fields, ks: seq<string>): seq<string> {
    if ks == [] then []
    else
      var front, k := ks[..|ks| - 1], ks[|ks| - 1];
      ClashesIn(b, t, y, front) + if OutcomeAt(b, t, y, k).Clash? then [k] else []
  }

  function Clashes(b: Fields, t: Fields, y: Fields): seq<string> {
    ClashesIn(b, t, y, Sorted(UnionKeys(b, t, y)))
  }

  /** The part of `m` whose keys are in `ks`. */
  function Restrict(m: Fields, ks: seq<string>): Fields {
    map k | k in m && k in ks :: m[k]
  }

  lemma RestrictStep(m: Fields, ks: seq<string>, i: nat)
    requires i < |ks|
    ensures Restrict(m, ks[..i + 1])
            == if ks[i] in m then Restrict(m, ks[..i])[ks[i] := m[ks[i]]] else Restrict(m, ks[..i])
  {
    PrefixStep(ks, i);
    assert forall k :: k in ks[..i + 1] <==> k in ks[..i] || k == ks[i];
  }

  lemma RestrictAll(m: Fields, ks: seq<string>)
    requires forall k :: k in m ==> k in ks
    ensures Restrict(m, ks[..|ks|]) == m
  {
    assert ks[..|ks|] == ks;
  }

  /** The loop shared by `Merge` (data) and `mergeFacets`. */
  method MergeMaps(b: Fields, t: Fields, y: Fields) returns (merged: Fields, clashes: seq<string>)
    ensures merged == MergedMap(b, t, y)
    ensures clashes == Clashes(b, t, y)
  {
    hide OutcomeAt, Restrict, Sorted, MergedMap;
    merged, clashes := map[], [];
    var keys := Sorted(UnionKeys(b, t, y));
    SortedMembers(UnionKeys(b, t, y));
    ghost var all := MergedMap(b, t, y);
    RestrictNone(all, keys);
    for i := 0 to |keys|
      invariant merged == Restrict(all, keys[..i])
      invariant clashes == ClashesIn(b, t, y, keys[..i])
    {
      var key := keys[i];
      assert key in keys;
      RestrictStep(all, keys, i);
      MergedAt(b, t, y, key);
      PrefixStep(keys, i);
      match OutcomeAt(b, t, y, key)
      case Keep(Some(v)) => merged := merged[key := v];
      case Keep(None) =>
      case Clash => clashes := clashes + [key];
    }
    forall k | k in all ensures k in keys { MergedAt(b, t, y, k); }
    RestrictAll(all, keys);
    PrefixAll(keys);
  }

  lemma MergedAt(b: Fields, t: Fields, y: Fields, k: string)
    ensures k in MergedMap(b, t, y) ==> k in UnionKeys(b, t, y)
    ensures k in UnionKeys(b, t, y) && OutcomeAt(b, t, y, k).Keep? ==> At(MergedMap(b, t, y), k) == OutcomeAt(b, t, y, k).result
    ensures OutcomeAt(b, t, y, k).Clash? ==> k !in MergedMap(b, t, y)
  {
  }

  lemma RestrictNone(m: Fields, ks: seq<string>)
    ensures Restrict(m, ks[..0]) == map[]
  {
  }

  // ------------------------------------------------------------ meta: single keys

  /**
   What the Go standard library supplies: `time.Parse(time.RFC3339, s)` as an
   instant, and `unicode.ToLower`.
   */
  datatype Lib = Lib(parseTime: string -> Option<int>, lower: char -> char)

  /** Lowering is done once and for all, and makes no white space. */
  ghost predicate Lawful(lib: Lib) {
    forall c: char :: lib.lower(lib.lower(c)) == lib.lower(c) && (IsSpace(lib.lower(c)) ==> IsSpace(c))
  }

  /** `parseAuditAt`: the audit block's `at`, or a flat time string. */
  function AuditAt(lib: Lib, v: Json): Option<int> {
    match v
    case Obj(f) => (match Read(f, "at") case Str(s) => lib.parseTime(s) case _ => None)
    case Str(s) => lib.parseTime(s)
    case _ => None
  }

  datatype Side = Theirs | Yours

  /** `UpdatedWinner`. */
  function UpdatedWinner(lib: Lib, theirs: Fields, yours: Fields): Side {
    match (AuditAt(lib, Read(theirs, "updated")), AuditAt(lib, Read(yours, "updated")))
    case (Some(t), Some(y)) => if t > y then Theirs else Yours
    case (Some(_), None) => Theirs
    case _ => Yours
  }

  /** `mergeUpdated`. */
  function MergeUpdated(lib: Lib, theirs: Json, yours: Json): Json {
    match (AuditAt(lib, theirs), AuditAt(lib, yours))
    case (Some(t), Some(y)) => if t > y then theirs else yours
    case (Some(_), None) => theirs
    case (None, Some(_)) => yours
    case _ => if yours != Null then yours else theirs
  }

  function Lower(lib: Lib, s: string): string {
    seq(|s|, i requires 0 <= i < |s| => lib.lower(s[i]))
  }

  function NormTag(lib: Lib, s: string): string {
    Lower(lib, TrimSpace(s))
  }

  /** The normalised tags a value contributes. */
  function TagSet(lib: Lib, v: Json): set<string> {
    if v.Arr? then set x | x in v.items && x.Str? && NormTag(lib, x.s) != "" :: NormTag(lib, x.s) else {}
  }

  function Strs(ks: seq<string>): seq<Json> {
    seq(|ks|, i requires 0 <= i < |ks| => Str(ks[i]))
  }

  /** `mergeTags`. */
  function MergedTags(lib: Lib, theirs: Json, yours: Json): Json {
    Arr(Strs(Sorted(TagSet(lib, theirs) + TagSet(lib, yours))))
  }

  method Collect(lib: Lib, v: Json, tags: set<string>) returns (r: set<string>)
    ensures r == tags + TagSet(lib, v)
  {
    r := tags;
    if !v.Arr? { return; }
    for i := 0 to |v.items|
      invariant r == tags + set x | x in v.items[..i] && x.Str? && NormTag(lib, x.s) != "" :: NormTag(lib, x.s)
    {
      var el := v.items[i];
      assert forall x :: x in v.items[..i + 1] <==> x in v.items[..i] || x == el;
      if el.Str? {
        var n := NormTag(lib, el.s);
        if n != "" { r := r + {n}; }
      }
    }
    assert v.items[..|v.items|] == v.items;
  }

  method MergeTags(lib: Lib, theirs: Json, yours: Json) returns (r: Json)
    ensures r == MergedTags(lib, theirs, yours)
  {
    var tags := Collect(lib, theirs, {});
    tags := Collect(lib, yours, tags);
    assert tags == TagSet(lib, theirs) + TagSet(lib, yours);
    var list := StrList(Sorted(tags));
    r := Arr(list);
  }

  method StrList(keys: seq<string>) returns (out: seq<Json>)
    ensures out == Strs(keys)
  {
    out := [];
    for i := 0 to |keys|
      invariant out == Strs(keys[..i])
    {
      out := out + [Str(keys[i])];
    }
    PrefixAll(keys);
  }

  predicate AsBool(v: Json) { v == Bool(true) }

  /** `pickWinner`. */
  function PickWinner(theirs: Fields, yours: Fields, k: string, winner: Side): Json {
    if k in theirs && k in yours then (if winner == Theirs then theirs[k] else yours[k])
    else if k in theirs then theirs[k]
    else if k in yours then yours[k]
    else Null
  }

  predicate IsImmutableKey(k: string) { k == "created" || k == "id" || k == "template" }

  /** `facetMap`. */
  function FacetMap(meta: Fields): Fields {
    match Read(meta, "facets")
    case Obj(f) => f
    case _ => map[]
  }

  function MergedFacets(b: Fields, t: Fields, y: Fields): Fields {
    MergedMap(FacetMap(b), FacetMap(t), FacetMap(y))
  }

  function ImmutableValue(b: Fields, t: Fields, y: Fields, k: string): Value {
    if k in b then Some(b[k]) else if k in t then Some(t[k]) else At(y, k)
  }

  /** What one meta key of the union becomes. */
  function MetaValue(lib: Lib, b: Fields, t: Fields, y: Fields, k: string): Value {
    if k == "updated" then Some(MergeUpdated(lib, Read(t, k), Read(y, k)))
    else if k == "tags" then Some(MergedTags(lib, Read(t, k), Read(y, k)))
    else if k == "facets" then
      (var f := MergedFacets(b, t, y); if f == map[] then None else Some(Obj(f)))
    else if k == "flagged" then Some(Bool(AsBool(Read(t, k)) || AsBool(Read(y, k))))
    else if IsImmutableKey(k) then ImmutableValue(b, t, y, k)
    else Some(PickWinner(t, y, k, UpdatedWinner(lib, t, y)))
  }

  function MergedMeta(lib: Lib, b: Fields, t: Fields, y: Fields): Fields {
    map k | k in UnionKeys(b, t, y) && MetaValue(lib, b, t, y, k).Some? :: MetaValue(lib, b, t, y, k).value
  }

  // ------------------------------------------------------------ conflicts

  datatype FieldConflict = FieldConflict(scope: string, key: string, reason: string)

  /** A present side differs from a present base. */
  predicate Divergent(b: Fields, t: Fields, y: Fields, k: string) {
    k in b && ((k in t && !DeepEqual(b[k], t[k])) || (k in y && !DeepEqual(b[k], y[k])))
  }

  function ImmutableConflict(b: Fields, t: Fields, y: Fields, k: string): seq<FieldConflict> {
    if Divergent(b, t, y, k) then [FieldConflict("meta", k, "immutable")] else []
  }

  function ImmutableConflicts(b: Fields, t: Fields, y: Fields): seq<FieldConflict> {
    ImmutableConflict(b, t, y, "created") + ImmutableConflict(b, t, y, "id") + ImmutableConflict(b, t, y, "template")
  }

  function Named(scope: string, prefix: string, ks: seq<string>): seq<FieldConflict> {
    seq(|ks|, i requires 0 <= i < |ks| => FieldConflict(scope, prefix + ks[i], ""))
  }

  function FacetConflicts(b: Fields, t: Fields, y: Fields): seq<FieldConflict> {
    Named("meta", "facets.", Clashes(FacetMap(b), FacetMap(t), FacetMap(y)))
  }

  function MetaConflicts(b: Fields, t: Fields, y: Fields): seq<FieldConflict> {
    ImmutableConflicts(b, t, y) + FacetConflicts(b, t, y)
  }

  function DataConflicts(b: Fields, t: Fields, y: Fields): seq<FieldConflict> {
    Named("data", "", Clashes(b, t, y))
  }

  // ------------------------------------------------------------ whole records

  function Conflicts(b: Record, t: Record, y: Record): seq<FieldConflict> {
    MetaConflicts(b.meta, t.meta, y.meta) + DataConflicts(b.data, t.data, y.data)
  }

  function MergedRecord(lib: Lib, b: Record, t: Record, y: Record): Record {
    Record(MergedMeta(lib, b.meta, t.meta, y.meta), MergedMap(b.data, t.data, y.data))
  }

  datatype MergeResult =
    | Merged(bytes: string)
    | Conflict(path: string, conflicts: seq<FieldConflict>)
    | Unprintable

  /** What `Merge` returns. */
  function Reconcile(lib: Lib, path: string, b: Record, t: Record, y: Record): MergeResult {
    if Conflicts(b, t, y) != [] then Conflict(path, Conflicts(b, t, y))
    else if PrintableRecord(MergedRecord(lib, b, t, y)) then Merged(CanonicalText(MergedRecord(lib, b, t, y)))
    else Unprintable
  }

  method MergeFacets(b: Fields, t: Fields, y: Fields) returns (merged: Fields, conflicts: seq<FieldConflict>)
    ensures merged == MergedFacets(b, t, y)
    ensures conflicts == FacetConflicts(b, t, y)
  {
    var clashes: seq<string>;
    merged, clashes := MergeMaps(FacetMap(b), FacetMap(t), FacetMap(y));
    conflicts := Named("meta", "facets.", clashes);
  }

  method CheckImmutable(b: Fields, t: Fields, y: Fields) returns (conflicts: seq<FieldConflict>)
    ensures conflicts == ImmutableConflicts(b, t, y)
  {
    conflicts := [];
    var keys := ["created", "id", "template"];
    for i := 0 to |keys|
      invariant i == 0 ==> conflicts == []
      invariant i == 1 ==> conflicts == ImmutableConflict(b, t, y, "created")
      invariant i == 2 ==> conflicts == ImmutableConflict(b, t, y, "created") + ImmutableConflict(b, t, y, "id")
      invariant i == 3 ==> conflicts == ImmutableConflicts(b, t, y)
    {
      hide DeepEqual;
      var k := keys[i];
      var divergent := false;
      if k in b && k in t && !DeepEqual(b[k], t[k]) { divergent := true; }
      if k in b && k in y && !DeepEqual(b[k], y[k]) { divergent := true; }
      if divergent { conflicts := conflicts + [FieldConflict("meta", k, "immutable")]; }
    }
  }

  /** One arm of the switch in `MergeMeta`. */
  method MergeMetaKey(lib: Lib, b: Fields, t: Fields, y: Fields, k: string, winner: Side)
    returns (v: Value, conflicts: seq<FieldConflict>)
    requires winner == UpdatedWinner(lib, t, y)
    ensures v == MetaValue(lib, b, t, y, k)
    ensures conflicts == if k == "facets" then FacetConflicts(b, t, y) else []
  {
    hide MergeUpdated, MergedTags, MergedFacets, UpdatedWinner, FacetConflicts;
    conflicts := [];
    if k == "updated" {
      v := Some(MergeUpdated(lib, Read(t, k), Read(y, k)));
    } else if k == "tags" {
      var tags := MergeTags(lib, Read(t, k), Read(y, k));
      v := Some(tags);
    } else if k == "facets" {
      var fm;
      fm, conflicts := MergeFacets(b, t, y);
      v := if |fm| > 0 then Some(Obj(fm)) else None;
    } else if k == "flagged" {
      v := Some(Bool(AsBool(Read(t, k)) || AsBool(Read(y, k))));
    } else if IsImmutableKey(k) {
      if k in b { v := Some(b[k]); }
      else if k in t { v := Some(t[k]); }
      else { v := At(y, k); }
    } else {
      v := Some(PickWinner(t, y, k, winner));
    }
  }

  /** `MergeMeta`: one pass over the union of keys. */
  method MergeMeta(lib: Lib, b: Fields, t: Fields, y: Fields) returns (merged: Fields, conflicts: seq<FieldConflict>)
    ensures merged == MergedMeta(lib, b, t, y)
    ensures conflicts == MetaConflicts(b, t, y)
  {
    hide MetaValue, FacetConflicts, ImmutableConflicts, Restrict, UpdatedWinner, Sorted;
    merged := map[];
    conflicts := CheckImmutable(b, t, y);
    var winner := UpdatedWinner(lib, t, y);
    var keys := Sorted(UnionKeys(b, t, y));
    SortedMembers(UnionKeys(b, t, y));
    ghost var all := MergedMeta(lib, b, t, y);
    RestrictNone(all, keys);
    for i := 0 to |keys|
      invariant merged == Restrict(all, keys[..i])
      invariant conflicts == ImmutableConflicts(b, t, y) + if "facets" in keys[..i] then FacetConflicts(b, t, y) else []
    {
      assert keys[i] in keys;
      var v, fc := MergeMetaKey(lib, b, t, y, keys[i], winner);
      if v.Some? { merged := merged[keys[i] := v.value]; }
      conflicts := conflicts + fc;
      RestrictStep(all, keys, i);
      SeenOnce(UnionKeys(b, t, y), i);
      PrefixStep(keys, i);
    }
    RestrictAll(all, keys);
    PrefixAll(keys);
    if "facets" !in keys { NoFacets(b, t, y); }
  }

  lemma SeenOnce(s: set<string>, i: nat)
    requires i < |Sorted(s)|
    ensures Sorted(s)[i] !in Sorted(s)[..i]
  {
    var keys := Sorted(s);
    SortedStrict(s);
    forall j | 0 <= j < i ensures keys[j] != keys[i] { LessAsymmetric(keys[j], keys[i]); }
  }

  /** Without a facets key on any side there is nothing to merge or to clash. */
  lemma NoFacets(b: Fields, t: Fields, y: Fields)
    requires "facets" !in UnionKeys(b, t, y)
    ensures FacetConflicts(b, t, y) == []
  {
    assert UnionKeys(FacetMap(b), FacetMap(t), FacetMap(y)) == {};
  }

  /** `Merge`. */
  method Merge(lib: Lib, path: string, base: Record, theirs: Record, yours: Record) returns (r: MergeResult)
    ensures r == Reconcile(lib, path, base, theirs, yours)
  {
    var mergedMeta, conflicts := MergeMeta(lib, base.meta, theirs.meta, yours.meta);
    var mergedData, clashes := MergeMaps(base.data, theirs.data, yours.data);
    conflicts := conflicts + Named("data", "", clashes);
    if |conflicts| > 0 { return Conflict(path, conflicts); }
    var text := CanonicalJSON(Record(mergedMeta, mergedData));
    return if text.Some? then Merged(text.value) else Unprintable;
  }
}
