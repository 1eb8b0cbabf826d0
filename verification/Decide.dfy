/**
 What one attempt of `WriteFile` or `Commit` decides about a head it has
 read: fast-forward, merge, stale or conflict (internal/git/write.go and
 commit.go).
 */
module Decide {
  import opened Base
  import opened Dag
  import opened Strings

  function Look(t: Tree, p: Path): Option<Blob> { Get<Path, Blob>(t, p) }

  // ------------------------------------------------------------ merging trees

  /** Content merge of one file both sides changed; none means conflict markers. */
  type Driver = (Option<Blob>, Blob, Blob) -> Option<Blob>

  datatype PathOutcome = Take(blob: Option<Blob>) | Conflicted

  function MergePath(driver: Driver, b: Option<Blob>, t: Option<Blob>, y: Option<Blob>): PathOutcome {
    if t == y then Take(t)
    else if b == t then Take(y)
    else if b == y then Take(t)
    else if t.Some? && y.Some? then
      match driver(b, t.value, y.value)
      case Some(x) => Take(Some(x))
      case None => Conflicted
    else Conflicted
  }

  function PathAt(driver: Driver, b: Tree, t: Tree, y: Tree, p: Path): PathOutcome {
    MergePath(driver, Look(b, p), Look(t, p), Look(y, p))
  }

  function AllPaths(b: Tree, t: Tree, y: Tree): set<Path> { b.Keys + t.Keys + y.Keys }

  function MergeTrees(driver: Driver, b: Tree, t: Tree, y: Tree): Tree {
    map p | p in AllPaths(b, t, y) && PathAt(driver, b, t, y, p).Take? && PathAt(driver, b, t, y, p).blob.Some?
      :: PathAt(driver, b, t, y, p).blob.value
  }

  /** The conflicting paths, once each and in order. */
  function ConflictPaths(driver: Driver, b: Tree, t: Tree, y: Tree): seq<Path> {
    Sorted(set p | p in AllPaths(b, t, y) && PathAt(driver, b, t, y, p).Conflicted?)
  }

  lemma MergedPathAt(driver: Driver, b: Tree, t: Tree, y: Tree, p: Path)
    ensures PathAt(driver, b, t, y, p).Take? ==> Look(MergeTrees(driver, b, t, y), p) == PathAt(driver, b, t, y, p).blob
    ensures p in ConflictPaths(driver, b, t, y) <==> PathAt(driver, b, t, y, p).Conflicted?
  {
    SortedMembers(set q | q in AllPaths(b, t, y) && PathAt(driver, b, t, y, q).Conflicted?);
  }

  // ------------------------------------------------------------ the verdict on a head

  datatype Verdict = FastForward | Stale | Clean(tree: Tree) | Clash(paths: seq<Path>)

  function Judge(driver: Driver, parent: Commit, client: Commit, head: Commit): Verdict {
    if parent == head then FastForward
    else if !Ancestor(parent, head) then Stale
    else
      var base := MergeBase(head, parent, client);
      var paths := ConflictPaths(driver, base.tree, head.tree, client.tree);
      if paths == [] then Clean(MergeTrees(driver, base.tree, head.tree, client.tree)) else Clash(paths)
  }

  /** The paths on which the client's commit differs from its parent. */
  ghost predicate Touched(parent: Commit, client: Commit, p: Path) {
    Look(client.tree, p) != Look(parent.tree, p)
  }

  /** A path the client changed, the head left alone, and the new tree has as the client left it. */
  ghost predicate ClientChangesLand(parent: Commit, client: Commit, head: Commit, tree: Tree) {
    forall p :: Touched(parent, client, p) && Look(head.tree, p) == Look(parent.tree, p) ==> Look(tree, p) == Look(client.tree, p)
  }

  /** Every path the client did not change is as in the head. */
  ghost predicate HeadSurvives(parent: Commit, client: Commit, head: Commit, tree: Tree) {
    forall p :: !Touched(parent, client, p) ==> Look(tree, p) == Look(head.tree, p)
  }

  /** A clean merge keeps the head outside the client's change. */
  lemma CleanMergeKeepsHead(driver: Driver, parent: Commit, client: Commit, head: Commit)
    requires Judge(driver, parent, client, head).Clean?
    ensures HeadSurvives(parent, client, head, Judge(driver, parent, client, head).tree)
  {
    var base := MergeBase(head, parent, client);
    forall p | !Touched(parent, client, p)
      ensures Look(MergeTrees(driver, base.tree, head.tree, client.tree), p) == Look(head.tree, p)
    {
      MergedPathAt(driver, base.tree, head.tree, client.tree, p);
    }
  }

  /**
   The client's changes land on every path the head left alone, exactly when
   the client's commit is new to the head's history or the head did not
   revert any of its changes.
   */
  lemma CleanMergeLands(driver: Driver, parent: Commit, client: Commit, head: Commit)
    requires Judge(driver, parent, client, head).Clean?
    ensures ClientChangesLand(parent, client, head, Judge(driver, parent, client, head).tree)
       <==> !Ancestor(client, head) || forall p :: Touched(parent, client, p) ==> Look(head.tree, p) != Look(parent.tree, p)
  {
    hide Ancestor;
    var base := MergeBase(head, parent, client);
    var tree := MergeTrees(driver, base.tree, head.tree, client.tree);
    forall p
      ensures !Ancestor(client, head) && Look(head.tree, p) == Look(parent.tree, p) ==> Look(tree, p) == Look(client.tree, p)
      ensures Ancestor(client, head) ==> Look(tree, p) == Look(head.tree, p)
    {
      MergedPathAt(driver, base.tree, head.tree, client.tree, p);
    }
  }

  /** A repeated write that the head has since reverted merges cleanly and changes nothing. */
  lemma RepeatedWriteIsLost(driver: Driver)
    ensures var parent := Commit(map["a" := "1"], [], "init");
            var client := Commit(map["a" := "2"], [parent], "edit");
            var head := Commit(map["a" := "1"], [client], "revert");
            Judge(driver, parent, client, head) == Clean(head.tree)
            && !ClientChangesLand(parent, client, head, head.tree)
  {
    var parent := Commit(map["a" := "1"], [], "init");
    var client := Commit(map["a" := "2"], [parent], "edit");
    var head := Commit(map["a" := "1"], [client], "revert");
    assert Ancestor(parent, client.parents[0]) && Ancestor(client, head.parents[0]);
    assert Ancestor(parent, client) && Ancestor(parent, head.parents[0]);
    forall p ensures PathAt(driver, client.tree, head.tree, client.tree, p) == Take(Look(head.tree, p)) {}
    var bad := set p | p in AllPaths(client.tree, head.tree, client.tree)
                       && PathAt(driver, client.tree, head.tree, client.tree, p).Conflicted?;
    assert bad == {};
    assert MergeTrees(driver, client.tree, head.tree, client.tree) == head.tree;
    assert Touched(parent, client, "a");
  }

  /** A conflict lists exactly the paths both sides changed, differently, and could not be merged by content. */
  lemma ClashExact(driver: Driver, parent: Commit, client: Commit, head: Commit, p: Path)
    requires Judge(driver, parent, client, head).Clash?
    ensures !Ancestor(client, head)
    ensures p in Judge(driver, parent, client, head).paths
       <==> Touched(parent, client, p) && Touched(parent, head, p)
            && PathAt(driver, parent.tree, head.tree, client.tree, p).Conflicted?
  {
    hide Ancestor;
    var base := MergeBase(head, parent, client);
    var paths := ConflictPaths(driver, base.tree, head.tree, client.tree);
    MergedPathAt(driver, base.tree, head.tree, client.tree, p);
    assert paths[0] in paths;
    MergedPathAt(driver, base.tree, head.tree, client.tree, paths[0]);
  }

  // ------------------------------------------------------------ answers

  /** A blob in an answer; an absent one is the empty string. */
  function Body(b: Option<Blob>): string {
    match b case Some(x) => x case None => ""
  }

  datatype WriteConflict = WriteConflict(current: Commit, path: Path, base: string, theirs: string, yours: string)

  datatype Change = Put(path: Path, content: Blob) | Delete(path: Path)

  function Yours(c: Change): string {
    match c case Put(_, content) => content case Delete(_) => ""
  }

  function StaleConflict(head: Commit, c: Change): WriteConflict {
    WriteConflict(head, c.path, "", "", Yours(c))
  }

  function StaleConflicts(head: Commit, changes: seq<Change>): seq<WriteConflict> {
    seq(|changes|, i requires 0 <= i < |changes| => StaleConflict(head, changes[i]))
  }

  function MergeConflict(parent: Commit, head: Commit, client: Commit, p: Path): WriteConflict {
    WriteConflict(head, p, Body(Look(parent.tree, p)), Body(Look(head.tree, p)), Body(Look(client.tree, p)))
  }

  function MergeConflicts(parent: Commit, head: Commit, client: Commit, paths: seq<Path>): seq<WriteConflict> {
    seq(|paths|, i requires 0 <= i < |paths| => MergeConflict(parent, head, client, paths[i]))
  }

  /** `staleParentConflicts`. */
  method StaleParentConflicts(head: Commit, changes: seq<Change>) returns (out: seq<WriteConflict>)
    ensures out == StaleConflicts(head, changes)
  {
    out := [];
    for i := 0 to |changes|
      invariant out == StaleConflicts(head, changes[..i])
    {
      var c := changes[i];
      var yours := "";
      if c.Put? { yours := c.content; }
      out := out + [WriteConflict(head, c.path, "", "", yours)];
    }
    PrefixAll(changes);
  }

  /** `mergeConflicts`. */
  method CollectMergeConflicts(parent: Commit, head: Commit, client: Commit, paths: seq<Path>)
    returns (out: seq<WriteConflict>)
    ensures out == MergeConflicts(parent, head, client, paths)
  {
    out := [];
    for i := 0 to |paths|
      invariant out == MergeConflicts(parent, head, client, paths[..i])
    {
      var p := paths[i];
      out := out + [WriteConflict(head, p, Body(Look(parent.tree, p)), Body(Look(head.tree, p)), Body(Look(client.tree, p)))];
    }
    PrefixAll(paths);
  }
}
