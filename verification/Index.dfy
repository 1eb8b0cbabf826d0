/**
 Building the client's tree in one batch (`treeWithChanges` and
 `hashPutObjects`, internal/git/commit.go) against applying the changes one
 by one.
 */
module Index {
  import opened Base
  import opened Dag
  import opened Decide

  // ------------------------------------------------------------ one change at a time

  function Applied(t: Tree, c: Change): Tree {
    match c
    case Put(p, content) => t[p := content]
    case Delete(p) => t - {p}
  }

  function AppliedAll(t: Tree, cs: seq<Change>): Tree {
    if cs == [] then t else Applied(AppliedAll(t, cs[..|cs| - 1]), cs[|cs| - 1])
  }

  /** The index of the last change to `p` in `cs`, if any. */
  function LastAt(cs: seq<Change>, p: Path): (i: Option<nat>)
    ensures i.Some? ==> i.value < |cs| && cs[i.value].path == p && forall j :: i.value < j < |cs| ==> cs[j].path != p
    ensures i.None? ==> forall j :: 0 <= j < |cs| ==> cs[j].path != p
  {
    if cs == [] then None
    else if cs[|cs| - 1].path == p then Some(|cs| - 1)
    else LastAt(cs[..|cs| - 1], p)
  }

  /** On a repeated path the last change wins; elsewhere the tree is as it was. */
  lemma {:induction false} LastWins(t: Tree, cs: seq<Change>, p: Path)
    ensures Look(AppliedAll(t, cs), p)
            == match LastAt(cs, p)
               case None => Look(t, p)
               case Some(i) => if cs[i].Put? then Some(cs[i].content) else None
    decreases |cs|
  {
    if cs != [] && cs[|cs| - 1].path != p { LastWins(t, cs[..|cs| - 1], p); }
  }

  /** Only a path named by some change can differ from the parent. */
  lemma TouchedIsNamed(t: Tree, cs: seq<Change>, p: Path)
    requires Look(AppliedAll(t, cs), p) != Look(t, p)
    ensures exists i :: 0 <= i < |cs| && cs[i].path == p
  {
    LastWins(t, cs, p);
  }

  // ------------------------------------------------------------ the batch

  predicate IsPut(cs: seq<Change>, i: int) {
    0 <= i < |cs| && cs[i].Put?
  }

  /**
   `hashPutObjects`: the put contents are compacted into a list, staged as
   files 0, 1, 2, ..., hashed in that order, and the hashes spread out again
   over the change indices. A blob stands for its own hash.
   */
  method HashPutObjects(cs: seq<Change>) returns (byChange: map<int, Blob>)
    ensures forall i :: i in byChange <==> IsPut(cs, i)
    ensures forall i :: IsPut(cs, i) ==> byChange[i] == cs[i].content
  {
    var idx: seq<int> := [];
    for i := 0 to |cs|
      invariant forall n :: 0 <= n < |idx| ==> 0 <= idx[n] < i && cs[idx[n]].Put?
      invariant forall m, n :: 0 <= m < n < |idx| ==> idx[m] < idx[n]
      invariant forall j :: 0 <= j < i && cs[j].Put? ==> j in idx
    {
      if cs[i].Put? { idx := idx + [i]; }
    }
    if |idx| == 0 { return map[]; }

    var staged: map<nat, Blob> := map[];
    var order: seq<nat> := [];
    for n := 0 to |idx|
      invariant order == seq(n, m => m)
      invariant forall m :: 0 <= m < n ==> m in staged && staged[m] == cs[idx[m]].content
    {
      staged := staged[n := cs[idx[n]].content];
      order := order + [n];
    }
    var shas := seq(|order|, n requires 0 <= n < |order| && order[n] in staged => staged[order[n]]);

    byChange := map[];
    for n := 0 to |idx|
      invariant forall i :: i in byChange <==> exists m :: 0 <= m < n && idx[m] == i
      invariant forall m :: 0 <= m < n ==> idx[m] in byChange && byChange[idx[m]] == cs[idx[m]].content
    {
      byChange := byChange[idx[n] := shas[n]];
    }
  }

  /** One line of the `--index-info` stream. */
  datatype IndexRecord = SetBlob(path: Path, sha: Blob) | Remove(path: Path)

  function Updated(t: Tree, r: IndexRecord): Tree {
    match r
    case SetBlob(p, sha) => t[p := sha]
    case Remove(p) => t - {p}
  }

  /** `git update-index --index-info`: the records in order; a refused path fails the whole batch. */
  method UpdateIndex(okPath: Path -> bool, t: Tree, info: seq<IndexRecord>) returns (r: Option<Tree>)
    ensures r.Some? <==> forall i :: 0 <= i < |info| ==> okPath(info[i].path)
    ensures r.Some? ==> r.value == UpdatedAll(t, info)
  {
    var index := t;
    var ignored := false;
    for i := 0 to |info|
      invariant ignored <==> exists j :: 0 <= j < i && !okPath(info[j].path)
      invariant !ignored ==> index == UpdatedAll(t, info[..i])
    {
      PrefixStep(info, i);
      if okPath(info[i].path) { index := Updated(index, info[i]); } else { ignored := true; }
    }
    PrefixAll(info);
    r := if ignored then None else Some(index);
  }

  function UpdatedAll(t: Tree, info: seq<IndexRecord>): Tree {
    if info == [] then t else Updated(UpdatedAll(t, info[..|info| - 1]), info[|info| - 1])
  }

  function RecordOf(c: Change): IndexRecord {
    match c
    case Put(p, content) => SetBlob(p, content)
    case Delete(p) => Remove(p)
  }

  function RecordsOf(cs: seq<Change>): seq<IndexRecord> {
    seq(|cs|, i requires 0 <= i < |cs| => RecordOf(cs[i]))
  }

  lemma {:induction false} BatchIsSequence(t: Tree, cs: seq<Change>)
    ensures UpdatedAll(t, RecordsOf(cs)) == AppliedAll(t, cs)
    decreases |cs|
  {
    if cs != [] {
      var front := cs[..|cs| - 1];
      assert RecordsOf(cs)[..|cs| - 1] == RecordsOf(front);
      BatchIsSequence(t, front);
    }
  }

  ghost predicate PathsOk(okPath: Path -> bool, cs: seq<Change>) {
    forall i :: 0 <= i < |cs| ==> okPath(cs[i].path)
  }

  /**
   `treeWithChanges`: the batch yields the tree that applying the changes one
   by one yields, or fails exactly when git refuses one of the paths.
   */
  method TreeWithChanges(okPath: Path -> bool, base: Commit, cs: seq<Change>) returns (r: Option<Tree>)
    ensures r.Some? <==> PathsOk(okPath, cs)
    ensures r.Some? ==> r.value == AppliedAll(base.tree, cs)
  {
    var shaByChange := HashPutObjects(cs);
    var info: seq<IndexRecord> := [];
    for i := 0 to |cs|
      invariant info == RecordsOf(cs[..i])
    {
      assert IsPut(cs, i) <==> cs[i].Put?;
      match cs[i]
      case Put(p, _) => info := info + [SetBlob(p, shaByChange[i])];
      case Delete(p) => info := info + [Remove(p)];
    }
    PrefixAll(cs);
    assert forall i :: 0 <= i < |cs| ==> info[i].path == cs[i].path;
    r := UpdateIndex(okPath, base.tree, info);
    BatchIsSequence(base.tree, cs);
  }

  /** `treeWithFile`: one path set. */
  method TreeWithFile(okPath: Path -> bool, base: Commit, path: Path, blob: Blob) returns (r: Option<Tree>)
    ensures r.Some? <==> okPath(path)
    ensures r.Some? ==> r.value == base.tree[path := blob]
  {
    var index := base.tree;
    if !okPath(path) { return None; }
    index := index[path := blob];
    r := Some(index);
  }
}
