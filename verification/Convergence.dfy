/**
 Any number of clients that edited one base record: merged one after another
 into the growing head they never clash exactly when they are pairwise
 compatible. Data, facets, tags, the flag and the instant of the last change
 do not depend on their order; for default meta keys and the stored `updated`
 block it is said exactly when they do.
 */
module Convergence {
  import opened Base
  import opened Json
  import opened LastWriter
  import opened Merge
  import opened MergeLaws
  import opened Schema
  import opened Strings

  // ------------------------------------------------------------ one map of fields

  /** The head's fields after merging the clients one by one, each against the same base. */
  function Absorbed(base: Fields, clients: seq<Fields>): Fields {
    if clients == [] then base
    else MergedMap(base, Absorbed(base, clients[..|clients| - 1]), clients[|clients| - 1])
  }

  /** Any two clients that both changed a field changed it to the same thing. */
  ghost predicate Agree(base: Fields, c: Fields, d: Fields) {
    forall k :: Changed(At(base, k), At(c, k)) && Changed(At(base, k), At(d, k)) ==> Same(At(c, k), At(d, k))
  }

  ghost predicate Compatible(base: Fields, clients: seq<Fields>) {
    forall i, j :: 0 <= i < j < |clients| ==> Agree(base, clients[i], clients[j])
  }

  /** Every merge on the way goes through. */
  ghost predicate NeverClashes(base: Fields, clients: seq<Fields>) {
    forall n :: 0 <= n < |clients| ==> Clashes(base, Absorbed(base, clients[..n]), clients[n]) == []
  }

  /** On field `k`, `head` is the base overridden by the edits in `clients`, and by nothing else. */
  ghost predicate OverridesAt(base: Fields, clients: set<Fields>, head: Fields, k: string) {
    && (forall c :: c in clients && Changed(At(base, k), At(c, k)) ==> Same(At(head, k), At(c, k)))
    && ((forall c :: c in clients ==> !Changed(At(base, k), At(c, k))) ==> At(head, k) == At(base, k))
  }

  ghost predicate Overrides(base: Fields, clients: set<Fields>, head: Fields) {
    forall k :: OverridesAt(base, clients, head, k)
  }

  ghost function Elements<T>(s: seq<T>): set<T> { set x | x in s }

  /** One more merge: it goes through exactly when the client agrees with all before it. */
  lemma AbsorbStep(base: Fields, done: set<Fields>, head: Fields, c: Fields)
    requires Overrides(base, done, head)
    ensures Clashes(base, head, c) == [] <==> forall d :: d in done ==> Agree(base, d, c)
    ensures Clashes(base, head, c) == [] ==> Overrides(base, done + {c}, MergedMap(base, head, c))
  {
    hide Same, Clashes, MergedMap;
    SameEverywhere();
    forall k ensures k in Clashes(base, head, c) <==>
        exists d :: d in done && Changed(At(base, k), At(d, k)) && Changed(At(base, k), At(c, k)) && !Same(At(d, k), At(c, k))
    {
      ClashExact(base, head, c, k);
      HeadChanged(base, done, head, k);
    }
    ClashFree(base, head, c, done);
    if Clashes(base, head, c) == [] {
      forall k ensures OverridesAt(base, done + {c}, MergedMap(base, head, c), k) {
        SurvivorExact(base, head, c, k);
        HeadChanged(base, done, head, k);
      }
    }
  }

  /** The head differs from base on a field exactly when some client changed it. */
  lemma HeadChanged(base: Fields, done: set<Fields>, head: Fields, k: string)
    requires Overrides(base, done, head)
    ensures OverridesAt(base, done, head, k)
    ensures Changed(At(base, k), At(head, k)) <==> exists d :: d in done && Changed(At(base, k), At(d, k))
  {
    hide Same;
    SameEverywhere();
    assert OverridesAt(base, done, head, k);
  }

  lemma ClashFree(base: Fields, head: Fields, c: Fields, done: set<Fields>)
    requires forall k :: k in Clashes(base, head, c) <==>
        exists d :: d in done && Changed(At(base, k), At(d, k)) && Changed(At(base, k), At(c, k)) && !Same(At(d, k), At(c, k))
    ensures Clashes(base, head, c) == [] <==> forall d :: d in done ==> Agree(base, d, c)
  {
    hide Same, Clashes;
    var cs := Clashes(base, head, c);
    if cs != [] {
      assert cs[0] in cs;
    } else {
      forall d | d in done ensures Agree(base, d, c) {
        forall k | Changed(At(base, k), At(d, k)) && Changed(At(base, k), At(c, k)) ensures Same(At(d, k), At(c, k)) {
          assert k !in cs;
        }
      }
    }
  }

  /** While nothing clashed, the head is the base overridden by the edits so far. */
  lemma {:induction false} AbsorbedOverrides(base: Fields, clients: seq<Fields>)
    requires NeverClashes(base, clients)
    ensures Overrides(base, Elements(clients), Absorbed(base, clients))
    decreases |clients|
  {
    hide Same, Clashes, MergedMap, Overrides;
    if clients == [] {
      NothingYet(base);
      assert Elements(clients) == {};
    } else {
      var front, c := clients[..|clients| - 1], clients[|clients| - 1];
      FrontClashes(base, clients);
      AbsorbedOverrides(base, front);
      AbsorbStep(base, Elements(front), Absorbed(base, front), c);
      assert Elements(clients) == Elements(front) + {c} by { assert clients == front + [c]; }
    }
  }

  lemma NothingYet(base: Fields)
    ensures Overrides(base, {}, base)
  {
  }

  lemma FrontClashes(base: Fields, clients: seq<Fields>)
    requires clients != []
    ensures var front := clients[..|clients| - 1];
            NeverClashes(base, clients) <==>
              NeverClashes(base, front) && Clashes(base, Absorbed(base, front), clients[|clients| - 1]) == []
  {
    hide Clashes, Absorbed;
    var front := clients[..|clients| - 1];
    assert forall n :: 0 <= n <= |front| ==> front[..n] == clients[..n];
  }

  /** No merge on the way ever clashes, exactly when the clients are pairwise compatible. */
  lemma {:induction false} NeverClashesExact(base: Fields, clients: seq<Fields>)
    ensures NeverClashes(base, clients) <==> Compatible(base, clients)
    decreases |clients|
  {
    hide Clashes, Absorbed, Agree, Overrides;
    if clients != [] {
      var front, c := clients[..|clients| - 1], clients[|clients| - 1];
      FrontClashes(base, clients);
      NeverClashesExact(base, front);
      if NeverClashes(base, front) {
        AbsorbedOverrides(base, front);
        AbsorbStep(base, Elements(front), Absorbed(base, front), c);
        assert (forall d :: d in Elements(front) ==> Agree(base, d, c))
          <==> forall i :: 0 <= i < |front| ==> Agree(base, front[i], c);
      }
      assert Compatible(base, clients) <==> Compatible(base, front) && forall i :: 0 <= i < |front| ==> Agree(base, front[i], c);
    }
  }

  /** Overriding by the same edits determines every field up to `sameField`. */
  lemma OverridesUnique(base: Fields, clients: set<Fields>, h1: Fields, h2: Fields, k: string)
    requires Overrides(base, clients, h1) && Overrides(base, clients, h2)
    ensures Same(At(h1, k), At(h2, k))
  {
    hide Same;
    SameEverywhere();
    assert OverridesAt(base, clients, h1, k) && OverridesAt(base, clients, h2, k);
  }

  /** The same clients in another order: the same fields, and still no clash. */
  lemma AnyOrder(base: Fields, clients: seq<Fields>, others: seq<Fields>, k: string)
    requires multiset(clients) == multiset(others) && Compatible(base, clients)
    ensures Compatible(base, others)
    ensures Same(At(Absorbed(base, clients), k), At(Absorbed(base, others), k))
  {
    hide Absorbed, Same, Overrides, Agree;
    CompatibleAnyOrder(base, clients, others);
    NeverClashesExact(base, clients);
    NeverClashesExact(base, others);
    AbsorbedOverrides(base, clients);
    AbsorbedOverrides(base, others);
    forall c ensures c in clients <==> c in others { assert c in multiset(clients) <==> c in multiset(others); }
    assert Elements(clients) == Elements(others);
    OverridesUnique(base, Elements(clients), Absorbed(base, clients), Absorbed(base, others), k);
  }

  lemma AgreeSelf(base: Fields, c: Fields)
    ensures Agree(base, c, c)
  {
    hide Same;
    SameEverywhere();
  }

  lemma AgreeSymmetric(base: Fields, c: Fields, d: Fields)
    ensures Agree(base, c, d) ==> Agree(base, d, c)
  {
    hide Same;
    SameEverywhere();
  }

  lemma CompatibleAnyOrder(base: Fields, clients: seq<Fields>, others: seq<Fields>)
    requires multiset(clients) == multiset(others) && Compatible(base, clients)
    ensures Compatible(base, others)
  {
    hide Agree;
    forall i, j | 0 <= i < j < |others| ensures Agree(base, others[i], others[j]) {
      assert others[i] in multiset(others) && others[j] in multiset(others);
      assert others[i] in multiset(clients) && others[j] in multiset(clients);
      var p :| 0 <= p < |clients| && clients[p] == others[i];
      var q :| 0 <= q < |clients| && clients[q] == others[j];
      if p < q { assert Agree(base, clients[p], clients[q]); }
      else if q < p { assert Agree(base, clients[q], clients[p]); AgreeSymmetric(base, clients[q], clients[p]); }
      else { AgreeSelf(base, clients[p]); }
    }
  }

  // ------------------------------------------------------------ whole records

  /** The head record after merging the clients one by one. */
  function Head(lib: Lib, base: Record, clients: seq<Record>): Record {
    if clients == [] then base
    else MergedRecord(lib, base, Head(lib, base, clients[..|clients| - 1]), clients[|clients| - 1])
  }

  function MapSeq<S, T>(f: S -> T, s: seq<S>): seq<T> {
    seq(|s|, i requires 0 <= i < |s| => f(s[i]))
  }

  function DataOf(clients: seq<Record>): seq<Fields> {
    MapSeq((r: Record) => r.data, clients)
  }

  function FacetsOf(clients: seq<Record>): seq<Fields> {
    MapSeq((r: Record) => FacetMap(r.meta), clients)
  }

  /** The client left `created`, `id` and `template` as a present base has them. */
  ghost predicate KeepsImmutables(base: Record, c: Record) {
    ImmutableConflicts(base.meta, base.meta, c.meta) == []
  }

  lemma {:induction false} HeadParts(lib: Lib, base: Record, clients: seq<Record>)
    ensures Head(lib, base, clients).data == Absorbed(base.data, DataOf(clients))
    ensures FacetMap(Head(lib, base, clients).meta) == Absorbed(FacetMap(base.meta), FacetsOf(clients))
    decreases |clients|
  {
    hide MergedMap, MergedMeta, FacetMap;
    if clients != [] {
      var front, c := clients[..|clients| - 1], clients[|clients| - 1];
      HeadParts(lib, base, front);
      assert DataOf(clients)[..|clients| - 1] == DataOf(front);
      assert FacetsOf(clients)[..|clients| - 1] == FacetsOf(front);
      FacetsOfMerged(lib, base.meta, Head(lib, base, front).meta, c.meta);
    }
  }

  lemma HeadImmutables(lib: Lib, base: Record, clients: seq<Record>, c: Record)
    ensures ImmutableConflicts(base.meta, Head(lib, base, clients).meta, c.meta)
            == ImmutableConflicts(base.meta, base.meta, c.meta)
  {
    hide MergedMeta, ImmutableConflicts;
    if clients != [] {
      var front := clients[..|clients| - 1];
      ImmutablesKept(lib, base.meta, Head(lib, base, front).meta, clients[|clients| - 1].meta, c.meta);
    }
  }

  /**
   For any number of clients of one base record: every merge into the growing
   head succeeds exactly when the clients keep the immutable keys and are
   pairwise compatible in data and in facets.
   */
  lemma ClientsConverge(lib: Lib, base: Record, clients: seq<Record>)
    ensures (forall n :: 0 <= n < |clients| ==> Conflicts(base, Head(lib, base, clients[..n]), clients[n]) == [])
       <==> && (forall n :: 0 <= n < |clients| ==> KeepsImmutables(base, clients[n]))
            && Compatible(base.data, DataOf(clients))
            && Compatible(FacetMap(base.meta), FacetsOf(clients))
  {
    hide Clashes, Head, FacetMap, ImmutableConflicts, Absorbed, Compatible;
    var data, facets := DataOf(clients), FacetsOf(clients);
    forall n | 0 <= n < |clients|
      ensures Conflicts(base, Head(lib, base, clients[..n]), clients[n]) == []
         <==> && KeepsImmutables(base, clients[n])
              && Clashes(base.data, Absorbed(base.data, data[..n]), data[n]) == []
              && Clashes(FacetMap(base.meta), Absorbed(FacetMap(base.meta), facets[..n]), facets[n]) == []
    {
      HeadParts(lib, base, clients[..n]);
      HeadImmutables(lib, base, clients[..n], clients[n]);
      assert DataOf(clients[..n]) == data[..n] && FacetsOf(clients[..n]) == facets[..n];
    }
    NeverClashesExact(base.data, data);
    NeverClashesExact(FacetMap(base.meta), facets);
  }

  /**
   Compatible clients in any order: the head's data and facets are the base
   overridden by all the edits, the same up to `sameField` whatever the order.
   */
  lemma OrderDoesNotMatter(lib: Lib, base: Record, clients: seq<Record>, others: seq<Record>, k: string)
    requires multiset(clients) == multiset(others)
    requires Compatible(base.data, DataOf(clients)) && Compatible(FacetMap(base.meta), FacetsOf(clients))
    ensures Overrides(base.data, Elements(DataOf(clients)), Head(lib, base, clients).data)
    ensures Overrides(FacetMap(base.meta), Elements(FacetsOf(clients)), FacetMap(Head(lib, base, clients).meta))
    ensures Same(At(Head(lib, base, clients).data, k), At(Head(lib, base, others).data, k))
    ensures Same(At(FacetMap(Head(lib, base, clients).meta), k), At(FacetMap(Head(lib, base, others).meta), k))
  {
    hide Absorbed, Same, Overrides, Compatible, FacetMap, Head;
    HeadParts(lib, base, clients);
    HeadParts(lib, base, others);
    MapSeqAnyOrder((r: Record) => r.data, clients, others);
    MapSeqAnyOrder((r: Record) => FacetMap(r.meta), clients, others);
    NeverClashesExact(base.data, DataOf(clients));
    NeverClashesExact(FacetMap(base.meta), FacetsOf(clients));
    AbsorbedOverrides(base.data, DataOf(clients));
    AbsorbedOverrides(FacetMap(base.meta), FacetsOf(clients));
    AnyOrder(base.data, DataOf(clients), DataOf(others), k);
    AnyOrder(FacetMap(base.meta), FacetsOf(clients), FacetsOf(others), k);
  }

  // ------------------------------------------------------------ tags, flag and time of many clients

  /** `v` is the latest instant that the base or a client carries, if any does. */
  ghost predicate IsLatest(lib: Lib, base: Record, clients: seq<Record>, v: Option<int>) {
    && (forall r :: (r == base || r in clients) && Instant(lib, r.meta).Some? ==> v.Some? && Instant(lib, r.meta).value <= v.value)
    && (v.Some? ==> exists r :: (r == base || r in clients) && Instant(lib, r.meta) == v)
  }

  /** A tag is in the head exactly if the base or some client has it, and so with the flag. */
  lemma {:induction false} HeadTagsAndFlag(lib: Lib, base: Record, clients: seq<Record>, x: string)
    requires Lawful(lib)
    ensures x in TagsOf(lib, Head(lib, base, clients).meta)
       <==> x in TagsOf(lib, base.meta) || exists c :: c in clients && x in TagsOf(lib, c.meta)
    ensures Flagged(Head(lib, base, clients).meta) <==> Flagged(base.meta) || exists c :: c in clients && Flagged(c.meta)
    decreases |clients|
  {
    hide TagsOf, Flagged, MergedMeta, MergedMap;
    if clients != [] {
      var front, c := clients[..|clients| - 1], clients[|clients| - 1];
      HeadTagsAndFlag(lib, base, front, x);
      MergedTagsOf(lib, base.meta, Head(lib, base, front).meta, c.meta, x);
      MergedFlag(lib, base.meta, Head(lib, base, front).meta, c.meta);
      assert clients == front + [c];
    }
  }

  /** The head carries the latest instant of all. */
  lemma {:induction false} HeadInstant(lib: Lib, base: Record, clients: seq<Record>)
    ensures IsLatest(lib, base, clients, Instant(lib, Head(lib, base, clients).meta))
    decreases |clients|
  {
    hide Instant, MergedMeta, MergedMap;
    if clients != [] {
      var front, c := clients[..|clients| - 1], clients[|clients| - 1];
      HeadInstant(lib, base, front);
      MergedInstant(lib, base.meta, Head(lib, base, front).meta, c.meta);
      assert clients == front + [c];
    }
  }

  /** The same clients in another order: the head has the same tags, the same flag and the same last instant. */
  lemma TagsFlagAndInstantInAnyOrder(lib: Lib, base: Record, clients: seq<Record>, others: seq<Record>)
    requires Lawful(lib) && multiset(clients) == multiset(others)
    ensures TagsOf(lib, Head(lib, base, clients).meta) == TagsOf(lib, Head(lib, base, others).meta)
    ensures Flagged(Head(lib, base, clients).meta) == Flagged(Head(lib, base, others).meta)
    ensures Instant(lib, Head(lib, base, clients).meta) == Instant(lib, Head(lib, base, others).meta)
  {
    hide TagsOf, Flagged, Instant, Head;
    forall c ensures c in clients <==> c in others { assert c in multiset(clients) <==> c in multiset(others); }
    forall x ensures x in TagsOf(lib, Head(lib, base, clients).meta) <==> x in TagsOf(lib, Head(lib, base, others).meta) {
      HeadTagsAndFlag(lib, base, clients, x);
      HeadTagsAndFlag(lib, base, others, x);
    }
    HeadTagsAndFlag(lib, base, clients, "");
    HeadTagsAndFlag(lib, base, others, "");
    HeadInstant(lib, base, clients);
    HeadInstant(lib, base, others);
  }

  // ------------------------------------------------------------ default keys and the updated block

  function DefaultSlot(lib: Lib, k: string): Record -> Slot<Json> {
    (r: Record) => Slot(Instant(lib, r.meta), At(r.meta, k))
  }

  /** A null `updated` counts as none. */
  function UpdatedSlot(lib: Lib): Record -> Slot<Json> {
    (r: Record) => Slot(Instant(lib, r.meta), Updated(r))
  }

  function Updated(r: Record): Value {
    if Read(r.meta, "updated") == Null then None else Some(Read(r.meta, "updated"))
  }

  /** A default key of the head follows the latest writer. */
  lemma {:induction false} HeadDefault(lib: Lib, base: Record, clients: seq<Record>, k: string)
    requires IsDefaultKey(k)
    ensures var f := DefaultSlot(lib, k); f(Head(lib, base, clients)) == Kept(f, f(base), clients)
    decreases |clients|
  {
    hide Instant, MergedMeta, MergedMap, IsDefaultKey;
    if clients != [] {
      var front, c := clients[..|clients| - 1], clients[|clients| - 1];
      HeadDefault(lib, base, front, k);
      if k in base.meta { HeadHolds(lib, base, front, k); }
      DefaultStep(lib, base, Head(lib, base, front), c, k);
    }
  }

  lemma {:induction false} HeadHolds(lib: Lib, base: Record, clients: seq<Record>, k: string)
    requires IsDefaultKey(k) && k in base.meta
    ensures k in Head(lib, base, clients).meta
    decreases |clients|
  {
    hide MergedMeta, MergedMap, IsDefaultKey;
    if clients != [] {
      HeadHolds(lib, base, clients[..|clients| - 1], k);
      DefaultKeysNeverGo(lib, base.meta, Head(lib, base, clients[..|clients| - 1]).meta, clients[|clients| - 1].meta, k);
    }
  }

  lemma DefaultStep(lib: Lib, base: Record, head: Record, c: Record, k: string)
    requires IsDefaultKey(k) && (k in base.meta ==> k in head.meta)
    ensures var f := DefaultSlot(lib, k); f(MergedRecord(lib, base, head, c)) == Step(f(head), f(c))
  {
    hide MergedMeta, MergedMap, AuditAt;
    DefaultKeysNeverGo(lib, base.meta, head.meta, c.meta, k);
    MergedInstant(lib, base.meta, head.meta, c.meta);
  }

  /** So does the stored `updated` block. */
  lemma {:induction false} HeadUpdated(lib: Lib, base: Record, clients: seq<Record>)
    ensures var f := UpdatedSlot(lib); f(Head(lib, base, clients)) == Kept(f, f(base), clients)
    decreases |clients|
  {
    hide Instant, MergedMeta, MergedMap, Updated;
    if clients != [] {
      var front, c := clients[..|clients| - 1], clients[|clients| - 1];
      HeadUpdated(lib, base, front);
      UpdatedStep(lib, base, Head(lib, base, front), c);
    }
  }

  lemma UpdatedStep(lib: Lib, base: Record, head: Record, c: Record)
    ensures var f := UpdatedSlot(lib); f(MergedRecord(lib, base, head, c)) == Step(f(head), f(c))
  {
    hide MergedMeta, MergedMap;
    MergedInstant(lib, base.meta, head.meta, c.meta);
    MergedUpdated(lib, base.meta, head.meta, c.meta);
  }

  /** The head has the same value of `k` whatever the order of the clients. */
  ghost predicate KeyInAnyOrder(lib: Lib, base: Record, clients: seq<Record>, k: string) {
    forall others :: multiset(others) == multiset(clients) ==>
      At(Head(lib, base, others).meta, k) == At(Head(lib, base, clients).meta, k)
  }

  ghost predicate SomeOrderLeaves(lib: Lib, base: Record, clients: seq<Record>, k: string, v: Value) {
    exists others :: multiset(others) == multiset(clients) && At(Head(lib, base, others).meta, k) == v
  }

  /**
   Which values of a default key the head can end with, over all orders of
   the clients, those without the key included; hence when the order does not
   matter: exactly if only one value can be left.
   */
  lemma DefaultKeyEndings(lib: Lib, base: Record, clients: seq<Record>, k: string)
    requires IsDefaultKey(k)
    ensures forall v :: SomeOrderLeaves(lib, base, clients, k, v) <==> CanEnd(DefaultSlot(lib, k), DefaultSlot(lib, k)(base), clients, v)
    ensures KeyInAnyOrder(lib, base, clients, k)
       <==> OneEnding(DefaultSlot(lib, k), DefaultSlot(lib, k)(base), clients)
  {
    hide Kept, CanEnd, OneEnding, Head, IsDefaultKey, Instant;
    var f := DefaultSlot(lib, k);
    var s := f(base);
    KeptIsHead(lib, base, k);
    SameExactly(f, s, clients);
    forall v ensures SomeOrderLeaves(lib, base, clients, k, v) <==> CanEnd(f, s, clients, v) {
      EndingsExactly(f, s, clients, v);
      SomeOrder(lib, base, clients, k, v);
    }
  }

  lemma SomeOrder(lib: Lib, base: Record, clients: seq<Record>, k: string, v: Value)
    requires IsDefaultKey(k)
    ensures SomeOrderLeaves(lib, base, clients, k, v) <==> Reachable(DefaultSlot(lib, k), DefaultSlot(lib, k)(base), clients, v)
  {
    hide Kept, Head, IsDefaultKey, Instant;
    KeptIsHead(lib, base, k);
  }

  lemma KeptIsHead(lib: Lib, base: Record, k: string)
    requires IsDefaultKey(k)
    ensures var f := DefaultSlot(lib, k);
            forall cs: seq<Record> {:trigger Head(lib, base, cs)} {:trigger Kept(f, f(base), cs)} ::
              Kept(f, f(base), cs).value == At(Head(lib, base, cs).meta, k)
  {
    hide Kept, Head, IsDefaultKey, Instant;
    var f := DefaultSlot(lib, k);
    forall cs: seq<Record> ensures Kept(f, f(base), cs).value == At(Head(lib, base, cs).meta, k) { HeadDefault(lib, base, cs, k); }
  }

  /** Where the base and all clients hold the key: exactly if all the latest clients hold the same value. */
  lemma DefaultKeyAmongLatest(lib: Lib, base: Record, clients: seq<Record>, k: string)
    requires IsDefaultKey(k) && k in base.meta && forall c :: c in clients ==> k in c.meta
    ensures KeyInAnyOrder(lib, base, clients, k)
       <==> forall c, d :: c in clients && d in clients && Latest(lib, base, clients, c) && Latest(lib, base, clients, d) ==>
              c.meta[k] == d.meta[k]
  {
    hide Kept, Head, IsDefaultKey, Instant;
    var f := DefaultSlot(lib, k);
    KeptIsHead(lib, base, k);
    SameAmongLatest(f, f(base), clients);
    assert forall c :: AmongLatest(f, f(base), clients, c) <==> Latest(lib, base, clients, c);
  }

  /** Not earlier than the base and any client; an instant that does not parse counts as the earliest. */
  ghost predicate Latest(lib: Lib, base: Record, clients: seq<Record>, c: Record) {
    !Earlier(Instant(lib, c.meta), Instant(lib, base.meta))
    && forall d :: d in clients ==> !Earlier(Instant(lib, c.meta), Instant(lib, d.meta))
  }

  /** The head stores the same `updated` block whatever the order of the clients. */
  ghost predicate UpdatedInAnyOrder(lib: Lib, base: Record, clients: seq<Record>) {
    forall others :: multiset(others) == multiset(clients) ==>
      Updated(Head(lib, base, others)) == Updated(Head(lib, base, clients))
  }

  lemma KeptIsUpdated(lib: Lib, base: Record)
    ensures var f := UpdatedSlot(lib);
            forall cs: seq<Record> {:trigger Head(lib, base, cs)} {:trigger Kept(f, f(base), cs)} ::
              Kept(f, f(base), cs).value == Updated(Head(lib, base, cs))
  {
    hide Kept, Head, Instant, Updated;
    var f := UpdatedSlot(lib);
    forall cs: seq<Record> ensures Kept(f, f(base), cs).value == Updated(Head(lib, base, cs)) { HeadUpdated(lib, base, cs); }
  }

  /** The stored `updated` block is the same in every order, exactly if only one block can be left. */
  lemma UpdatedEndings(lib: Lib, base: Record, clients: seq<Record>)
    ensures UpdatedInAnyOrder(lib, base, clients) <==> OneEnding(UpdatedSlot(lib), UpdatedSlot(lib)(base), clients)
  {
    hide Kept, OneEnding, Head, Instant, Updated;
    KeptIsUpdated(lib, base);
    SameExactly(UpdatedSlot(lib), UpdatedSlot(lib)(base), clients);
  }

  function Owned(owner: string, at: string): Record {
    Record(map["owner" := Str(owner), "updated" := Str(at)], map[])
  }

  function Unowned(at: string): Record { Record(map["updated" := Str(at)], map[]) }

  /** A client that lacks a key shields what is there from an earlier one: the owner depends on the order. */
  lemma OwnerDependsOnOrder(lib: Lib, t0: string, t3: string, t5: string)
    requires lib.parseTime(t0) == Some(0) && lib.parseTime(t3) == Some(3) && lib.parseTime(t5) == Some(5)
    ensures var base, c, d := Owned("base", t0), Owned("c", t3), Unowned(t5);
            && At(Head(lib, base, [c, d]).meta, "owner") == Some(Str("c"))
            && At(Head(lib, base, [d, c]).meta, "owner") == Some(Str("base"))
            && !KeyInAnyOrder(lib, base, [c, d], "owner")
            && NoConflicts(lib, base, [c, d]) && NoConflicts(lib, base, [d, c])
  {
    hide Head, Kept, DefaultSlot, Instant, NoConflicts, Owned, Unowned, At, Conflicts;
    OwnersDoNotClash(lib, t0, t3, t5);
    var base, c, d := Owned("base", t0), Owned("c", t3), Unowned(t5);
    var f := DefaultSlot(lib, "owner");
    OwnedSlots(lib, t0, t3, t5);
    HeadDefault(lib, base, [c, d], "owner");
    HeadDefault(lib, base, [d, c], "owner");
    KeptTwo(f, f(base), c, d);
    KeptTwo(f, f(base), d, c);
    SlotValue(lib, Head(lib, base, [c, d]));
    SlotValue(lib, Head(lib, base, [d, c]));
    assert multiset([d, c]) == multiset([c, d]);
  }

  ghost predicate NoConflicts(lib: Lib, base: Record, clients: seq<Record>) {
    forall n :: 0 <= n < |clients| ==> Conflicts(base, Head(lib, base, clients[..n]), clients[n]) == []
  }

  /** Without data, facets and immutable keys there is nothing to clash. */
  lemma NoneToClash(lib: Lib, base: Record, clients: seq<Record>)
    requires base.data == map[] && FacetMap(base.meta) == map[] && forall k :: IsImmutableKey(k) ==> k !in base.meta
    requires forall i :: 0 <= i < |clients| ==> clients[i].data == map[] && FacetMap(clients[i].meta) == map[]
    ensures NoConflicts(lib, base, clients)
  {
    hide FacetMap, Head, Conflicts;
    ClientsConverge(lib, base, clients);
  }

  lemma OwnersDoNotClash(lib: Lib, t0: string, t3: string, t5: string)
    ensures NoConflicts(lib, Owned("base", t0), [Owned("c", t3), Unowned(t5)])
    ensures NoConflicts(lib, Owned("base", t0), [Unowned(t5), Owned("c", t3)])
  {
    hide Head, Conflicts, NoConflicts;
    NoneToClash(lib, Owned("base", t0), [Owned("c", t3), Unowned(t5)]);
    NoneToClash(lib, Owned("base", t0), [Unowned(t5), Owned("c", t3)]);
  }

  lemma SlotValue(lib: Lib, r: Record)
    ensures DefaultSlot(lib, "owner")(r).value == At(r.meta, "owner")
  {
  }

  lemma OwnedSlots(lib: Lib, t0: string, t3: string, t5: string)
    requires lib.parseTime(t0) == Some(0) && lib.parseTime(t3) == Some(3) && lib.parseTime(t5) == Some(5)
    ensures DefaultSlot(lib, "owner")(Owned("base", t0)) == Slot(Some(0), Some(Str("base")))
    ensures DefaultSlot(lib, "owner")(Owned("c", t3)) == Slot(Some(3), Some(Str("c")))
    ensures DefaultSlot(lib, "owner")(Unowned(t5)) == Slot(Some(5), None)
  {
  }

  lemma MapSeqRemove<S, T>(f: S -> T, s: seq<S>, i: nat)
    requires i < |s|
    ensures multiset(MapSeq(f, s)) == multiset(MapSeq(f, s[..i] + s[i + 1..])) + multiset{f(s[i])}
  {
    var m := MapSeq(f, s);
    assert MapSeq(f, s[..i] + s[i + 1..]) == m[..i] + m[i + 1..];
    assert m == m[..i] + [m[i]] + m[i + 1..];
  }

  lemma RemoveAt<S>(s: seq<S>, i: nat)
    requires i < |s|
    ensures multiset(s[..i] + s[i + 1..]) == multiset(s) - multiset{s[i]}
  {
    assert s == s[..i] + [s[i]] + s[i + 1..];
  }

  lemma {:induction false} MapSeqAnyOrder<S, T>(f: S -> T, a: seq<S>, b: seq<S>)
    requires multiset(a) == multiset(b)
    ensures multiset(MapSeq(f, a)) == multiset(MapSeq(f, b))
    decreases |a|
  {
    hide MapSeq;
    assert |multiset(a)| == |multiset(b)|;
    if a == [] {
      assert b == [];
    } else {
      assert a[0] in multiset(b);
      var i :| 0 <= i < |b| && b[i] == a[0];
      var front, rest := a[..0] + a[0 + 1..], b[..i] + b[i + 1..];
      RemoveAt(a, 0);
      RemoveAt(b, i);
      MapSeqAnyOrder(f, front, rest);
      MapSeqRemove(f, a, 0);
      MapSeqRemove(f, b, i);
    }
  }
}
