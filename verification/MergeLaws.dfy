/**
 What one record merge guarantees, and a sequence of them into one head:
 exact and symmetric conflicts, exact replay, the algebra of tags, and what
 becomes of the flag, of `updated` and of the default keys.
 */
module MergeLaws {
  import opened Base
  import opened Json
  import opened Merge
  import opened RoundTrip
  import opened Schema
  import opened Strings

  // ------------------------------------------------------------ sameness

  ghost function NormValue(a: Value): Value {
    match a
    case None => None
    case Some(x) => Some(Norm(x))
  }

  /** `sameField` is equality of normal forms, hence an equivalence. */
  lemma SameExact(a: Value, b: Value)
    ensures Same(a, b) <==> NormValue(a) == NormValue(b)
  {
    if a.Some? && b.Some? { DeepEqualExact(a.value, b.value); }
  }

  lemma SameEverywhere()
    ensures forall a: Value, b: Value {:trigger Same(a, b)} :: Same(a, b) <==> NormValue(a) == NormValue(b)
  {
    forall a: Value, b: Value ensures Same(a, b) <==> NormValue(a) == NormValue(b) { SameExact(a, b); }
  }

  // ------------------------------------------------------------ the conflict list is exact

  ghost predicate Changed(base: Value, side: Value) { !Same(base, side) }

  lemma {:induction false} ClashesInMember(b: Fields, t: Fields, y: Fields, ks: seq<string>, k: string)
    ensures k in ClashesIn(b, t, y, ks) <==> k in ks && OutcomeAt(b, t, y, k).Clash?
    decreases |ks|
  {
    hide OutcomeAt;
    if ks != [] {
      ClashesInMember(b, t, y, ks[..|ks| - 1], k);
      assert ks == ks[..|ks| - 1] + [ks[|ks| - 1]];
    }
  }

  /** A field is listed precisely when both sides changed it and their results differ. */
  lemma ClashExact(b: Fields, t: Fields, y: Fields, k: string)
    ensures k in Clashes(b, t, y)
       <==> Changed(At(b, k), At(t, k)) && Changed(At(b, k), At(y, k)) && !Same(At(t, k), At(y, k))
  {
    hide Same;
    SameEverywhere();
    SortedMembers(UnionKeys(b, t, y));
    ClashesInMember(b, t, y, Sorted(UnionKeys(b, t, y)), k);
  }

  lemma {:induction false} ClashesInSorted(b: Fields, t: Fields, y: Fields, ks: seq<string>)
    requires StrictlySorted(ks)
    ensures StrictlySorted(ClashesIn(b, t, y, ks))
    decreases |ks|
  {
    hide OutcomeAt;
    if ks != [] {
      var front, k := ks[..|ks| - 1], ks[|ks| - 1];
      ClashesInSorted(b, t, y, front);
      var cs := ClashesIn(b, t, y, front);
      forall i | 0 <= i < |cs| ensures Less(cs[i], k) {
        assert cs[i] in cs;
        ClashesInMember(b, t, y, front, cs[i]);
      }
    }
  }

  /** The list does not depend on which side is which. */
  lemma ClashesSwap(b: Fields, t: Fields, y: Fields)
    ensures Clashes(b, t, y) == Clashes(b, y, t)
  {
    hide Same, OutcomeAt;
    SameEverywhere();
    forall k ensures k in Clashes(b, t, y) <==> k in Clashes(b, y, t) {
      ClashExact(b, t, y, k);
      ClashExact(b, y, t, k);
    }
    SortedStrict(UnionKeys(b, t, y));
    SortedStrict(UnionKeys(b, y, t));
    ClashesInSorted(b, t, y, Sorted(UnionKeys(b, t, y)));
    ClashesInSorted(b, y, t, Sorted(UnionKeys(b, y, t)));
    SortedUnique(Clashes(b, t, y), Clashes(b, y, t));
  }

  /** Swapping theirs and yours leaves the whole conflict list as it is. */
  lemma ConflictsSwap(b: Record, t: Record, y: Record)
    ensures Conflicts(b, t, y) == Conflicts(b, y, t)
  {
    ClashesSwap(b.data, t.data, y.data);
    ClashesSwap(FacetMap(b.meta), FacetMap(t.meta), FacetMap(y.meta));
  }

  /** A present side holds another `created`, `id` or `template` than a present base. */
  ghost predicate IsImmutableConflict(b: Record, t: Record, y: Record, c: FieldConflict) {
    exists k :: c == FieldConflict("meta", k, "immutable") && IsImmutableKey(k) && Divergent(b.meta, t.meta, y.meta, k)
  }

  ghost predicate IsFacetConflict(b: Record, t: Record, y: Record, c: FieldConflict) {
    exists k ::
      c == FieldConflict("meta", "facets." + k, "")
      && k in Clashes(FacetMap(b.meta), FacetMap(t.meta), FacetMap(y.meta))
  }

  ghost predicate IsDataConflict(b: Record, t: Record, y: Record, c: FieldConflict) {
    exists k :: c == FieldConflict("data", k, "") && k in Clashes(b.data, t.data, y.data)
  }

  /** An entry of the conflict list is exactly one of the three kinds of collision. */
  lemma ConflictsExact(b: Record, t: Record, y: Record, c: FieldConflict)
    ensures c in Conflicts(b, t, y)
       <==> IsImmutableConflict(b, t, y, c) || IsFacetConflict(b, t, y, c) || IsDataConflict(b, t, y, c)
  {
    hide Clashes, Divergent, FacetMap;
    NamedMember("meta", "facets.", Clashes(FacetMap(b.meta), FacetMap(t.meta), FacetMap(y.meta)), c);
    NamedMember("data", "", Clashes(b.data, t.data, y.data), c);
    assert forall k: string :: "" + k == k;
    ImmutableMember(b.meta, t.meta, y.meta, c);
  }

  lemma ImmutableMember(b: Fields, t: Fields, y: Fields, c: FieldConflict)
    ensures c in ImmutableConflicts(b, t, y)
       <==> exists k :: c == FieldConflict("meta", k, "immutable") && IsImmutableKey(k) && Divergent(b, t, y, k)
  {
    hide Divergent;
  }

  lemma NamedMember(scope: string, prefix: string, ks: seq<string>, c: FieldConflict)
    ensures c in Named(scope, prefix, ks) <==> exists k :: c == FieldConflict(scope, prefix + k, "") && k in ks
  {
    var cs := Named(scope, prefix, ks);
    if k :| c == FieldConflict(scope, prefix + k, "") && k in ks {
      var i :| 0 <= i < |ks| && ks[i] == k;
      assert cs[i] == c;
    }
  }

  // ------------------------------------------------------------ what survives

  /** A field that did not clash carries every change made to it, and nothing else. */
  lemma SurvivorExact(b: Fields, t: Fields, y: Fields, k: string)
    requires k !in Clashes(b, t, y)
    ensures Changed(At(b, k), At(t, k)) ==> Same(At(MergedMap(b, t, y), k), At(t, k))
    ensures Changed(At(b, k), At(y, k)) ==> Same(At(MergedMap(b, t, y), k), At(y, k))
    ensures !Changed(At(b, k), At(t, k)) && !Changed(At(b, k), At(y, k)) ==> At(MergedMap(b, t, y), k) == At(b, k)
  {
    hide Same, MergedMap;
    SameEverywhere();
    ClashExact(b, t, y, k);
    MergedFieldAt(b, t, y, k);
  }

  /** The merged map holds the outcome of every key, listed or not. */
  lemma MergedFieldAt(b: Fields, t: Fields, y: Fields, k: string)
    ensures At(MergedMap(b, t, y), k)
            == match OutcomeAt(b, t, y, k) case Keep(v) => v case Clash => None
  {
    MergedAt(b, t, y, k);
  }

  lemma NoClashes(b: Fields, t: Fields, y: Fields)
    ensures Clashes(b, t, y) == [] <==> forall k :: OutcomeAt(b, t, y, k).Keep?
  {
    hide OutcomeAt;
    SortedMembers(UnionKeys(b, t, y));
    forall k ensures OutcomeAt(b, t, y, k).Clash? ==> k in UnionKeys(b, t, y) { ClashInUnion(b, t, y, k); }
    forall k ensures k in Clashes(b, t, y) <==> OutcomeAt(b, t, y, k).Clash? {
      ClashesInMember(b, t, y, Sorted(UnionKeys(b, t, y)), k);
    }
    var cs := Clashes(b, t, y);
    assert cs != [] ==> cs[0] in cs;
  }

  lemma ClashInUnion(b: Fields, t: Fields, y: Fields, k: string)
    ensures OutcomeAt(b, t, y, k).Clash? ==> k in UnionKeys(b, t, y)
  {
  }

  lemma SameFields(m: Fields, n: Fields)
    requires forall k :: At(m, k) == At(n, k)
    ensures m == n
  {
    assert forall k :: k in m <==> At(m, k).Some?;
    assert forall k :: k in n <==> At(n, k).Some?;
    forall k | k in m ensures k in n && m[k] == n[k] { assert At(m, k) == At(n, k); }
    forall k | k in n ensures k in m { assert At(m, k) == At(n, k); }
  }

  // ------------------------------------------------------------ replay

  lemma ReplayField(b: Value, t: Value, y: Value)
    requires MergeField(b, t, y).Keep?
    ensures MergeField(b, MergeField(b, t, y).result, y) == MergeField(b, t, y)
  {
    hide Same;
    SameEverywhere();
  }

  /** Merging the same change again into its own result changes nothing. */
  lemma ReplayMaps(b: Fields, t: Fields, y: Fields)
    requires Clashes(b, t, y) == []
    ensures var m := MergedMap(b, t, y);
            Clashes(b, m, y) == [] && MergedMap(b, m, y) == m
  {
    hide MergeField;
    var m := MergedMap(b, t, y);
    NoClashes(b, t, y);
    forall k ensures OutcomeAt(b, m, y, k) == OutcomeAt(b, t, y, k) {
      MergedFieldAt(b, t, y, k);
      ReplayField(At(b, k), At(t, k), At(y, k));
    }
    NoClashes(b, m, y);
    forall k ensures At(MergedMap(b, m, y), k) == At(m, k) {
      MergedFieldAt(b, m, y, k);
      MergedFieldAt(b, t, y, k);
    }
    SameFields(MergedMap(b, m, y), m);
  }

  // ------------------------------------------------------------ tags

  lemma {:induction false} TrimLeftKeeps(s: string)
    requires s != "" && !IsSpace(s[|s| - 1])
    ensures TrimLeft(s) != "" && TrimLeft(s)[|TrimLeft(s)| - 1] == s[|s| - 1]
  {
    if IsSpace(s[0]) { TrimLeftKeeps(s[1..]); }
  }

  lemma {:induction false} TrimLeftFront(s: string)
    ensures TrimLeft(s) != "" ==> !IsSpace(TrimLeft(s)[0])
  {
    if s != "" && IsSpace(s[0]) { TrimLeftFront(s[1..]); }
  }

  lemma {:induction false} TrimRightEnds(s: string)
    ensures TrimRight(s) != "" ==> s != "" && TrimRight(s)[0] == s[0] && !IsSpace(TrimRight(s)[|TrimRight(s)| - 1])
  {
    if s != "" && IsSpace(s[|s| - 1]) { TrimRightEnds(s[..|s| - 1]); }
  }

  lemma NormTagIdempotent(lib: Lib, s: string)
    requires Lawful(lib)
    ensures NormTag(lib, NormTag(lib, s)) == NormTag(lib, s)
  {
    var u := TrimSpace(s);
    TrimLeftFront(s);
    TrimRightEnds(TrimLeft(s));
    var w := Lower(lib, u);
    if w != "" {
      assert !IsSpace(w[0]) && !IsSpace(w[|w| - 1]);
      assert TrimLeft(w) == w && TrimRight(w) == w;
    }
    assert Lower(lib, w) == w;
  }

  lemma TagSetNormal(lib: Lib, v: Json, x: string)
    requires Lawful(lib) && x in TagSet(lib, v)
    ensures x != "" && NormTag(lib, x) == x
  {
    hide NormTag;
    var y :| y in v.items && y.Str? && NormTag(lib, y.s) == x;
    NormTagIdempotent(lib, y.s);
  }

  /** Merged tags contribute exactly the union of what went in. */
  lemma MergedTagSet(lib: Lib, a: Json, b: Json)
    requires Lawful(lib)
    ensures TagSet(lib, MergedTags(lib, a, b)) == TagSet(lib, a) + TagSet(lib, b)
  {
    hide NormTag;
    var all := TagSet(lib, a) + TagSet(lib, b);
    var keys := Sorted(all);
    SortedMembers(all);
    var m := MergedTags(lib, a, b);
    forall x | x in all ensures x in TagSet(lib, m) && NormTag(lib, x) == x {
      if x in TagSet(lib, a) { TagSetNormal(lib, a, x); } else { TagSetNormal(lib, b, x); }
      var i :| 0 <= i < |keys| && keys[i] == x;
      assert m.items[i] == Str(x);
    }
    forall x | x in TagSet(lib, m) ensures x in all {
      var y :| y in m.items && y.Str? && NormTag(lib, y.s) == x;
      var i :| 0 <= i < |keys| && m.items[i] == y;
      assert keys[i] in keys;
    }
  }

  /** Tag merging commutes, associates and absorbs; its results are strictly sorted and stand for the union. */
  lemma TagAlgebra(lib: Lib, a: Json, b: Json, c: Json)
    requires Lawful(lib)
    ensures MergedTags(lib, a, b) == MergedTags(lib, b, a)
    ensures MergedTags(lib, MergedTags(lib, a, b), c) == MergedTags(lib, a, MergedTags(lib, b, c))
    ensures MergedTags(lib, MergedTags(lib, a, b), b) == MergedTags(lib, a, b)
    ensures MergedTags(lib, MergedTags(lib, a, b), MergedTags(lib, a, b)) == MergedTags(lib, a, b)
  {
    var ta, tb, tc := TagSet(lib, a), TagSet(lib, b), TagSet(lib, c);
    MergedTagSet(lib, a, b);
    MergedTagSet(lib, b, c);
    assert ta + tb == tb + ta;
    assert (ta + tb) + tc == ta + (tb + tc);
    assert (ta + tb) + tb == ta + tb;
    assert (ta + tb) + (ta + tb) == ta + tb;
  }

  /** The merged tag list: strictly sorted, and each tag is the normal form of one that went in. */
  lemma TagsSorted(lib: Lib, a: Json, b: Json)
    ensures exists ks :: MergedTags(lib, a, b) == Arr(Strs(ks)) && StrictlySorted(ks)
                         && forall x :: x in ks <==> x in TagSet(lib, a) || x in TagSet(lib, b)
  {
    var ks := Sorted(TagSet(lib, a) + TagSet(lib, b));
    SortedSpec(TagSet(lib, a) + TagSet(lib, b));
    assert MergedTags(lib, a, b) == Arr(Strs(ks));
  }

  // ------------------------------------------------------------ updated

  /** The merged `updated` is the winner's, and it never goes back behind a side that parses. */
  lemma UpdatedFollowsWinner(lib: Lib, t: Fields, y: Fields)
    ensures var m := MergeUpdated(lib, Read(t, "updated"), Read(y, "updated"));
            && (AuditAt(lib, Read(t, "updated")).Some? || AuditAt(lib, Read(y, "updated")).Some? ==>
                  m == Read(if UpdatedWinner(lib, t, y) == Theirs then t else y, "updated")
                  && AuditAt(lib, m).Some?)
            && (AuditAt(lib, Read(t, "updated")).Some? ==> AuditAt(lib, Read(t, "updated")).value <= AuditAt(lib, m).value)
            && (AuditAt(lib, Read(y, "updated")).Some? ==> AuditAt(lib, Read(y, "updated")).value <= AuditAt(lib, m).value)
  {
  }

  lemma MergedUpdated(lib: Lib, b: Fields, t: Fields, y: Fields)
    ensures Read(MergedMeta(lib, b, t, y), "updated") == MergeUpdated(lib, Read(t, "updated"), Read(y, "updated"))
  {
  }

  datatype Push = Push(base: Fields, yours: Fields)

  /** The head's meta after any sequence of merges into it. */
  ghost function MetaAfter(lib: Lib, head: Fields, pushes: seq<Push>): Fields {
    if pushes == [] then head
    else
      var p := pushes[|pushes| - 1];
      MergedMeta(lib, p.base, MetaAfter(lib, head, pushes[..|pushes| - 1]), p.yours)
  }

  /** Across any sequence of merges a parseable `updated` stays parseable and never goes back. */
  lemma {:induction false} UpdatedNeverGoesBack(lib: Lib, head: Fields, pushes: seq<Push>, n: nat)
    requires n <= |pushes|
    requires AuditAt(lib, Read(head, "updated")).Some?
    ensures AuditAt(lib, Read(MetaAfter(lib, head, pushes[..n]), "updated")).Some?
    ensures AuditAt(lib, Read(MetaAfter(lib, head, pushes), "updated")).Some?
    ensures AuditAt(lib, Read(MetaAfter(lib, head, pushes[..n]), "updated")).value
         <= AuditAt(lib, Read(MetaAfter(lib, head, pushes), "updated")).value
    decreases |pushes|
  {
    hide MergedMeta, AuditAt, MergeUpdated;
    if n == |pushes| {
      PrefixAll(pushes);
    }
    if pushes != [] {
      var front, p := pushes[..|pushes| - 1], pushes[|pushes| - 1];
      var before := MetaAfter(lib, head, front);
      MergedUpdated(lib, p.base, before, p.yours);
      if n < |pushes| {
        assert front[..n] == pushes[..n];
        UpdatedNeverGoesBack(lib, head, front, n);
      } else {
        UpdatedNeverGoesBack(lib, head, front, |front|);
      }
      UpdatedFollowsWinner(lib, before, p.yours);
    }
  }

  // ------------------------------------------------------------ replay of meta

  lemma MetaAt(lib: Lib, b: Fields, t: Fields, y: Fields, k: string)
    ensures At(MergedMeta(lib, b, t, y), k)
            == if k in UnionKeys(b, t, y) then MetaValue(lib, b, t, y, k) else None
  {
  }

  /** The tags, the flag and the last change of a record's meta. */
  function TagsOf(lib: Lib, meta: Fields): set<string> { TagSet(lib, Read(meta, "tags")) }
  predicate Flagged(meta: Fields) { AsBool(Read(meta, "flagged")) }
  function Instant(lib: Lib, meta: Fields): Option<int> { AuditAt(lib, Read(meta, "updated")) }

  /** Whatever the base says: the merged record is flagged exactly if a side is. */
  lemma MergedFlag(lib: Lib, b: Fields, t: Fields, y: Fields)
    ensures Flagged(MergedMeta(lib, b, t, y)) <==> Flagged(t) || Flagged(y)
    ensures "flagged" in UnionKeys(b, t, y) ==> At(MergedMeta(lib, b, t, y), "flagged") == Some(Bool(Flagged(t) || Flagged(y)))
  {
    hide MergedMeta;
    MetaAt(lib, b, t, y, "flagged");
  }

  /** The merged record has the tags of both sides; one of the base is gone exactly if neither side lists it. */
  lemma MergedTagsOf(lib: Lib, b: Fields, t: Fields, y: Fields, x: string)
    requires Lawful(lib)
    ensures TagsOf(lib, MergedMeta(lib, b, t, y)) == TagsOf(lib, t) + TagsOf(lib, y)
    ensures x in TagsOf(lib, b) ==>
              (x !in TagsOf(lib, MergedMeta(lib, b, t, y)) <==> x !in TagsOf(lib, t) && x !in TagsOf(lib, y))
  {
    hide MergedMeta, MergedTags, NormTag;
    MetaAt(lib, b, t, y, "tags");
    MergedTagSet(lib, Read(t, "tags"), Read(y, "tags"));
  }

  /** Which instant the merged record was last changed: the later of the sides', as far as they parse. */
  lemma MergedInstant(lib: Lib, b: Fields, t: Fields, y: Fields)
    ensures Instant(lib, MergedMeta(lib, b, t, y))
            == match (Instant(lib, t), Instant(lib, y))
               case (Some(i), Some(j)) => if i > j then Some(i) else Some(j)
               case (Some(i), None) => Some(i)
               case (None, j) => j
  {
    hide MergedMeta, AuditAt;
    MergedUpdated(lib, b, t, y);
  }

  predicate IsDefaultKey(k: string) {
    k != "updated" && k != "tags" && k != "facets" && k != "flagged" && !IsImmutableKey(k)
  }

  /**
   Meta is no three-way merge: a default key that both sides removed comes
   back as null, so it is gone from the result exactly if no side and no base
   ever had it.
   */
  lemma DefaultKeysNeverGo(lib: Lib, b: Fields, t: Fields, y: Fields, k: string)
    requires IsDefaultKey(k)
    ensures At(MergedMeta(lib, b, t, y), k) == None <==> k !in b && k !in t && k !in y
    ensures k in b && k !in t && k !in y ==> At(MergedMeta(lib, b, t, y), k) == Some(Null)
    ensures k in t || k in y ==>
              At(MergedMeta(lib, b, t, y), k)
              == if k !in y || (k in t && UpdatedWinner(lib, t, y) == Theirs) then At(t, k) else At(y, k)
  {
    hide MergedMeta, UpdatedWinner;
    MetaAt(lib, b, t, y, k);
  }

  /** The facets of the merged meta are the merge of the facets. */
  lemma FacetsOfMerged(lib: Lib, b: Fields, t: Fields, y: Fields)
    ensures FacetMap(MergedMeta(lib, b, t, y)) == MergedFacets(b, t, y)
  {
    hide MergedMap, MergedMeta;
    MetaAt(lib, b, t, y, "facets");
    if "facets" !in UnionKeys(b, t, y) {
      EmptyMerge();
      assert FacetMap(b) == FacetMap(t) == FacetMap(y) == map[];
    }
  }

  lemma EmptyMerge()
    ensures MergedMap(map[], map[], map[]) == map[]
  {
  }

  lemma ReplayWinner(lib: Lib, b: Fields, t: Fields, y: Fields)
    requires UpdatedWinner(lib, t, y) == Theirs
    ensures UpdatedWinner(lib, MergedMeta(lib, b, t, y), y) == Theirs
  {
    hide MergedMeta, AuditAt;
    MergedUpdated(lib, b, t, y);
  }

  /** Replay of one meta key. */
  lemma ReplayMetaKey(lib: Lib, b: Fields, t: Fields, y: Fields, k: string)
    requires Lawful(lib) && FacetConflicts(b, t, y) == []
    ensures var m := MergedMeta(lib, b, t, y);
            At(MergedMeta(lib, b, m, y), k) == At(m, k)
  {
    hide MergedMeta, MergedTags, MergedMap, UpdatedWinner, Clashes;
    var m := MergedMeta(lib, b, t, y);
    MetaAt(lib, b, t, y, k);
    MetaAt(lib, b, m, y, k);
    if k == "tags" {
      TagAlgebra(lib, Read(t, k), Read(y, k), Null);
    } else if k == "facets" {
      FacetsOfMerged(lib, b, t, y);
      ReplayMaps(FacetMap(b), FacetMap(t), FacetMap(y));
      if k !in UnionKeys(b, m, y) { assert k !in m; }
    } else if k != "updated" && k != "flagged" && !IsImmutableKey(k) {
      if UpdatedWinner(lib, t, y) == Theirs { ReplayWinner(lib, b, t, y); }
    }
  }

  /** Merging the same change again into the merged record gives no conflict and exactly that record. */
  lemma ReplayRecord(lib: Lib, b: Record, t: Record, y: Record)
    requires Lawful(lib) && Conflicts(b, t, y) == []
    ensures var m := MergedRecord(lib, b, t, y);
            Conflicts(b, m, y) == [] && MergedRecord(lib, b, m, y) == m
  {
    hide MergedMeta, MergedMap, Clashes, MetaValue;
    var m := MergedRecord(lib, b, t, y);
    ReplayMaps(b.data, t.data, y.data);
    FacetsOfMerged(lib, b.meta, t.meta, y.meta);
    ReplayMaps(FacetMap(b.meta), FacetMap(t.meta), FacetMap(y.meta));
    forall k ensures At(MergedMeta(lib, b.meta, m.meta, y.meta), k) == At(m.meta, k) {
      ReplayMetaKey(lib, b.meta, t.meta, y.meta, k);
    }
    SameFields(MergedMeta(lib, b.meta, m.meta, y.meta), m.meta);
    ImmutablesKept(lib, b.meta, t.meta, y.meta, y.meta);
  }

  /** The merged meta never departs from a present base on the immutable keys. */
  lemma ImmutablesKept(lib: Lib, b: Fields, t: Fields, y: Fields, z: Fields)
    ensures forall k :: IsImmutableKey(k) && k in b ==> At(MergedMeta(lib, b, t, y), k) == Some(b[k])
    ensures ImmutableConflicts(b, MergedMeta(lib, b, t, y), z) == ImmutableConflicts(b, b, z)
    ensures ImmutableConflicts(b, t, z) == [] ==> ImmutableConflicts(b, b, z) == []
  {
    hide MergedMeta, Same, DeepEqual;
    forall k | IsImmutableKey(k) ensures k in b ==> At(MergedMeta(lib, b, t, y), k) == Some(b[k]) { MetaAt(lib, b, t, y, k); }
    assert forall v: Json :: DeepEqual(v, v) by { forall v: Json ensures DeepEqual(v, v) { DeepEqualExact(v, v); } }
    assert forall k :: IsImmutableKey(k) ==> Divergent(b, MergedMeta(lib, b, t, y), z, k) == Divergent(b, b, z, k);
  }

  // ------------------------------------------------------------ replay on stored bytes

  ghost predicate DecodedValue(v: Value) { v.Some? ==> Decoded(v.value) }

  lemma DecodedFields(m: Fields)
    ensures Decoded(Obj(m)) <==> forall k :: DecodedValue(At(m, k))
  {
    forall k | k in m ensures DecodedValue(At(m, k)) == Decoded(m[k]) {}
    assert forall k :: k !in m ==> At(m, k) == None;
    if forall k :: DecodedValue(At(m, k)) {
      forall k | k in m ensures Decoded(m[k]) { assert DecodedValue(At(m, k)); }
    }
  }

  lemma DecodedMap(b: Fields, t: Fields, y: Fields)
    requires Decoded(Obj(b)) && Decoded(Obj(t)) && Decoded(Obj(y))
    ensures Decoded(Obj(MergedMap(b, t, y)))
  {
    hide MergedMap, Same, Decoded;
    DecodedFields(b);
    DecodedFields(t);
    DecodedFields(y);
    var m := MergedMap(b, t, y);
    forall k ensures DecodedValue(At(m, k)) {
      MergedFieldAt(b, t, y, k);
      assert DecodedValue(At(b, k)) && DecodedValue(At(t, k)) && DecodedValue(At(y, k));
    }
    DecodedFields(m);
  }

  lemma DecodedFacets(meta: Fields)
    requires Decoded(Obj(meta))
    ensures Decoded(Obj(FacetMap(meta)))
  {
  }

  lemma DecodedTags(lib: Lib, t: Json, y: Json)
    ensures Decoded(MergedTags(lib, t, y))
  {
  }

  lemma DecodedMetaValue(lib: Lib, b: Fields, t: Fields, y: Fields, k: string)
    requires DecodedValue(At(b, k)) && DecodedValue(At(t, k)) && DecodedValue(At(y, k))
    requires Decoded(Obj(MergedFacets(b, t, y)))
    ensures DecodedValue(MetaValue(lib, b, t, y, k))
  {
    hide MergedTags, MergedFacets, UpdatedWinner, AuditAt;
    DecodedTags(lib, Read(t, k), Read(y, k));
  }

  lemma DecodedMeta(lib: Lib, b: Fields, t: Fields, y: Fields)
    requires Decoded(Obj(b)) && Decoded(Obj(t)) && Decoded(Obj(y))
    ensures Decoded(Obj(MergedMeta(lib, b, t, y)))
  {
    hide MergedMeta, MergedMap, MetaValue, Decoded, FacetMap;
    var m := MergedMeta(lib, b, t, y);
    DecodedFields(b);
    DecodedFields(t);
    DecodedFields(y);
    DecodedFacets(b);
    DecodedFacets(t);
    DecodedFacets(y);
    DecodedMap(FacetMap(b), FacetMap(t), FacetMap(y));
    forall k ensures DecodedValue(At(m, k)) {
      MetaAt(lib, b, t, y, k);
      DecodedMetaValue(lib, b, t, y, k);
    }
    DecodedFields(m);
  }

  lemma {:induction false} DecodedPrintable(v: Json)
    requires Decoded(v)
    ensures Printable(v)
  {
    match v
    case Arr(items) => forall i | 0 <= i < |items| ensures Printable(items[i]) { DecodedPrintable(items[i]); }
    case Obj(fields) => forall k | k in fields ensures Printable(fields[k]) { DecodedPrintable(fields[k]); }
    case _ =>
  }

  lemma DecodedMergedRecord(lib: Lib, b: Record, t: Record, y: Record)
    requires DecodedRecord(b) && DecodedRecord(t) && DecodedRecord(y)
    ensures DecodedRecord(MergedRecord(lib, b, t, y)) && PrintableRecord(MergedRecord(lib, b, t, y))
  {
    DecodedMeta(lib, b.meta, t.meta, y.meta);
    DecodedMap(b.data, t.data, y.data);
    DecodedPrintable(Obj(MergedMeta(lib, b.meta, t.meta, y.meta)));
    DecodedPrintable(Obj(MergedMap(b.data, t.data, y.data)));
  }

  /**
   On the stored bytes: a merge of parsed records never fails to print, the
   bytes it stores read back as the merged record, and replaying the change
   against that record stores the very same bytes.
   */
  lemma ReplayBytes(lib: Lib, path: string, b: Record, t: Record, y: Record)
    requires Lawful(lib) && DecodedRecord(b) && DecodedRecord(t) && DecodedRecord(y)
    ensures var r := Reconcile(lib, path, b, t, y);
            && !r.Unprintable?
            && (r.Merged? ==>
                  Parse(r.bytes).Ok? && Reconcile(lib, path, b, Parse(r.bytes).value, y) == r)
  {
    hide Conflicts, MergedRecord, CanonicalText, Parse, DecodedRecord, PrintableRecord;
    DecodedMergedRecord(lib, b, t, y);
    if Conflicts(b, t, y) == [] {
      RecordRoundTrip(MergedRecord(lib, b, t, y));
      ReplayRecord(lib, b, t, y);
    }
  }
}
