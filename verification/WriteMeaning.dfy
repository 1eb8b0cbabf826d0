/**
 What an attempt of a write does with a head, said in terms of the trees and
 the graph alone, without the rules that compute it.
 */
module WriteMeaning {
  import opened Base
  import opened Branch
  import opened Cas
  import opened Dag
  import opened Decide
  import opened Strings

  /** One way from `c` back to `a`, parent by parent. */
  ghost predicate Walk(a: Commit, c: Commit, way: seq<Commit>) {
    && way != [] && way[0] == c && way[|way| - 1] == a
    && forall i :: 0 < i < |way| ==> way[i] in way[i - 1].parents
  }

  /** An ancestor is a commit that some walk over parents meets, the commit itself included. */
  lemma AncestorIsWalk(a: Commit, c: Commit)
    ensures Ancestor(a, c) <==> exists way :: Walk(a, c, way)
  {
    if Ancestor(a, c) { var way := WalkTo(a, c); }
    if way :| Walk(a, c, way) { WalkedAncestor(a, c, way); }
  }

  lemma {:induction false} WalkTo(a: Commit, c: Commit) returns (way: seq<Commit>)
    requires Ancestor(a, c)
    ensures Walk(a, c, way)
    decreases c
  {
    if a == c {
      way := [c];
    } else {
      var i :| 0 <= i < |c.parents| && Ancestor(a, c.parents[i]);
      var rest := WalkTo(a, c.parents[i]);
      way := [c] + rest;
    }
  }

  lemma {:induction false} WalkedAncestor(a: Commit, c: Commit, way: seq<Commit>)
    requires Walk(a, c, way)
    ensures Ancestor(a, c)
    decreases |way|
  {
    if |way| > 1 {
      assert way[1] in c.parents;
      WalkedAncestor(a, way[1], way[1..]);
      var i :| 0 <= i < |c.parents| && c.parents[i] == way[1];
      assert Ancestor(a, c.parents[i]);
    }
  }

  // ------------------------------------------------------------ one path of a merge

  /** Both sides changed the path, differently, and the file is gone on one side or its contents do not merge. */
  ghost predicate Collides(driver: Driver, b: Tree, t: Tree, y: Tree, p: Path) {
    && Get(t, p) != Get(y, p) && Get(b, p) != Get(t, p) && Get(b, p) != Get(y, p)
    && (p !in t || p !in y || driver(Get(b, p), t[p], y[p]) == None)
  }

  /** A side that left the path alone gives way to the other; contents changed on both sides are merged. */
  ghost function Joined(driver: Driver, b: Tree, t: Tree, y: Tree, p: Path): Option<Blob> {
    if Get(t, p) == Get(y, p) || Get(b, p) == Get(y, p) then Get(t, p)
    else if Get(b, p) == Get(t, p) then Get(y, p)
    else if p in t && p in y then driver(Get(b, p), t[p], y[p])
    else None
  }

  lemma PathMeaning(driver: Driver, b: Tree, t: Tree, y: Tree, p: Path)
    ensures p in ConflictPaths(driver, b, t, y) <==> Collides(driver, b, t, y, p)
    ensures !Collides(driver, b, t, y, p) ==> Get(MergeTrees(driver, b, t, y), p) == Joined(driver, b, t, y, p)
  {
    hide MergeTrees, ConflictPaths;
    MergedPathAt(driver, b, t, y, p);
  }

  // ------------------------------------------------------------ the decision

  /** The content of a path in an answer: empty where the file is not there. */
  function Text(t: Tree, p: Path): string { if p in t then t[p] else "" }

  /** The answer to a call on a foreign version: every change of the call, with nothing but its own content. */
  ghost predicate EchoesChanges(reply: Reply, head: Commit, changes: seq<Change>) {
    && reply.ConflictError? && reply.current == head && |reply.conflicts| == |changes|
    && forall i :: 0 <= i < |changes| ==>
         reply.conflicts[i] == WriteConflict(head, changes[i].path, "", "", if changes[i].Put? then changes[i].content else "")
  }

  /** The answer to a collision: each colliding path once, in order, with its three contents. */
  ghost predicate ListsCollisions(reply: Reply, driver: Driver, parent: Commit, client: Commit, head: Commit) {
    && reply.ConflictError? && reply.current == head
    && exists paths ::
         && StrictlySorted(paths) && |paths| == |reply.conflicts|
         && (forall p :: p in paths <==> Collides(driver, parent.tree, head.tree, client.tree, p))
         && forall i :: 0 <= i < |paths| ==>
              reply.conflicts[i] == WriteConflict(head, paths[i], Text(parent.tree, paths[i]), Text(head.tree, paths[i]), Text(client.tree, paths[i]))
  }

  /** A merge of the client's commit into the head. */
  ghost predicate IsMerge(next: Commit, head: Commit, client: Commit, info: string) {
    next.info == info && next.parents == if head == client then [head] else [head, client]
  }

  /**
   What `Commit` does on a head: on its own parent it moves the branch to the
   client's commit; on a head that does not hold the parent it echoes its
   changes; on a head that holds the client's commit it merges and keeps the
   tree; otherwise it merges path by path, or answers with the collisions.
   */
  lemma DecisionMeaning(driver: Driver, parent: Commit, client: Commit, changes: seq<Change>, info: string, head: Commit)
    requires client.parents == [parent]
    ensures var d := DecideCommit(driver, parent, client, changes, info, head);
            if head == parent then d == Try(client)
            else if !Ancestor(parent, head) then d.Answer? && EchoesChanges(d.reply, head, changes)
            else if Ancestor(client, head) then d.Try? && IsMerge(d.next, head, client, info) && d.next.tree == head.tree
            else if exists p :: Collides(driver, parent.tree, head.tree, client.tree, p) then
              d.Answer? && ListsCollisions(d.reply, driver, parent, client, head)
            else
              d.Try? && IsMerge(d.next, head, client, info)
              && forall p :: Get(d.next.tree, p) == Joined(driver, parent.tree, head.tree, client.tree, p)
  {
    hide Ancestor, MergeTrees, ConflictPaths, Collides, Joined;
    if Ancestor(client, head) {
      HeldCommit(driver, parent, client, head);
      NotOwnParent(parent, client);
    } else if head != parent && Ancestor(parent, head) {
      var paths := ConflictPaths(driver, parent.tree, head.tree, client.tree);
      forall p
        ensures p in paths <==> Collides(driver, parent.tree, head.tree, client.tree, p)
        ensures !Collides(driver, parent.tree, head.tree, client.tree, p) ==>
                  Get(MergeTrees(driver, parent.tree, head.tree, client.tree), p) == Joined(driver, parent.tree, head.tree, client.tree, p)
      {
        PathMeaning(driver, parent.tree, head.tree, client.tree, p);
      }
      FirstListed(paths);
      if paths != [] { ClashPathsSorted(driver, parent, client, head); }
    }
  }

  /**
   An attempt of a call reads the ref and decides on just the head it read;
   without a head there is nothing to write to.
   */
  lemma PlanMeaning(driver: Driver, parent: Commit, client: Commit, changes: seq<Change>, path: Path, content: Blob, infos: nat -> string, ref: Ref, n: nat)
    ensures CommitPlan(driver, parent, client, changes, infos)(ref, n)
            == if ref.None? then Answer(RepoEmpty) else DecideCommit(driver, parent, client, changes, infos(n), ref.value)
    ensures WritePlan(driver, parent, client, path, content, infos)(ref, n)
            == if ref.None? then Answer(RepoEmpty) else DecideWrite(driver, parent, client, path, content, infos(n), ref.value)
  {
  }

  /** A `WriteFile` decides as a `Commit` with one put and the same client commit. */
  lemma WriteDecision(driver: Driver, parent: Commit, client: Commit, path: Path, content: Blob, info: string, head: Commit)
    requires client.parents == [parent] && client.tree == parent.tree[path := content]
    ensures DecideWrite(driver, parent, client, path, content, info, head)
            == DecideCommit(driver, parent, client, [Put(path, content)], info, head)
  {
    WriteRefinesCommit(driver, parent, client, client, path, content, info, info, head);
  }
}
