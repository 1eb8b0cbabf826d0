/**
 The commit graph. A commit's id is a hash of its content, so a commit is
 modelled by its content: equal content is one commit, and parents are
 contained in their children.
 */
module Dag {
  type Path = string
  type Blob = string
  type Tree = map<Path, Blob>

  /** `info` stands for author, committer, times and message. */
  datatype Commit = Commit(tree: Tree, parents: seq<Commit>, info: string)

  /** `commit-tree` takes a repeated parent once. */
  function DropRepeats(parents: seq<Commit>): seq<Commit> {
    if parents == [] then []
    else
      var front, last := DropRepeats(parents[..|parents| - 1]), parents[|parents| - 1];
      if last in front then front else front + [last]
  }

  /** The parents of a merge of `client` into `head`. */
  function MergeParents(head: Commit, client: Commit): seq<Commit> {
    if head == client then [head] else [head, client]
  }

  lemma TwoParents(head: Commit, client: Commit)
    ensures DropRepeats([head]) == [head]
    ensures DropRepeats([head, client]) == MergeParents(head, client)
  {
    assert [head][..0] == [] && [head, client][..1] == [head];
    assert DropRepeats([head]) == [head];
  }

  /** `merge-base --is-ancestor`: every commit is its own ancestor. */
  predicate Ancestor(a: Commit, c: Commit) {
    a == c || exists i :: 0 <= i < |c.parents| && Ancestor(a, c.parents[i])
  }

  lemma {:induction false} AncestorTransitive(a: Commit, b: Commit, c: Commit)
    requires Ancestor(a, b) && Ancestor(b, c)
    ensures Ancestor(a, c)
    decreases c
  {
    if b != c {
      var i :| 0 <= i < |c.parents| && Ancestor(b, c.parents[i]);
      AncestorTransitive(a, b, c.parents[i]);
    }
  }

  /** Length of the longest walk to a root. */
  function Depth(c: Commit): nat
    decreases c, 1
  {
    DepthOf(c, 0)
  }

  function DepthOf(c: Commit, i: nat): nat
    requires i <= |c.parents|
    decreases c, 0, |c.parents| - i
  {
    if i == |c.parents| then 0
    else
      var d, rest := Depth(c.parents[i]) + 1, DepthOf(c, i + 1);
      if d > rest then d else rest
  }

  lemma {:induction false} ParentDepth(c: Commit, i: nat, j: nat)
    requires i <= j < |c.parents|
    ensures Depth(c.parents[j]) < DepthOf(c, i)
    decreases j - i
  {
    if i < j { ParentDepth(c, i + 1, j); }
  }

  lemma {:induction false} AncestorDepth(a: Commit, c: Commit)
    requires Ancestor(a, c)
    ensures a == c || Depth(a) < Depth(c)
    decreases c
  {
    if a != c {
      var i :| 0 <= i < |c.parents| && Ancestor(a, c.parents[i]);
      AncestorDepth(a, c.parents[i]);
      ParentDepth(c, 0, i);
    }
  }

  /** The graph has no cycles. */
  lemma Acyclic(a: Commit, b: Commit)
    requires Ancestor(a, b) && Ancestor(b, a)
    ensures a == b
  {
    AncestorDepth(a, b);
    AncestorDepth(b, a);
  }

  // ------------------------------------------------------------ merge bases

  ghost predicate Common(x: Commit, a: Commit, b: Commit) {
    Ancestor(x, a) && Ancestor(x, b)
  }

  /** A best common ancestor: not an ancestor of another one. */
  ghost predicate IsMergeBase(x: Commit, a: Commit, b: Commit) {
    Common(x, a, b) && forall y :: Common(y, a, b) && Ancestor(x, y) ==> y == x
  }

  /**
   The merge base of `head` and a commit with the single parent `parent`,
   when `parent` is an ancestor of `head`.
   */
  function MergeBase(head: Commit, parent: Commit, client: Commit): Commit {
    if Ancestor(client, head) then client else parent
  }

  /**
   Over arbitrary graphs: if the client's parent is an ancestor of the head
   there is exactly one merge base. It is the parent, unless the client's
   commit is already part of the head's history: then it is that commit.
   */
  lemma MergeBaseExact(head: Commit, parent: Commit, client: Commit, x: Commit)
    requires client.parents == [parent] && Ancestor(parent, head)
    ensures IsMergeBase(x, head, client) <==> x == MergeBase(head, parent, client)
  {
    var base := MergeBase(head, parent, client);
    assert Ancestor(parent, client) by { assert Ancestor(parent, client.parents[0]); }
    assert Common(base, head, client);
    forall y | Common(y, head, client) ensures Ancestor(y, base) {
      assert y == client || Ancestor(y, client.parents[0]);
      if base == client { } else { assert y != client; }
    }
    if IsMergeBase(x, head, client) {
      assert Ancestor(x, base);
    }
    forall y | Common(y, head, client) && Ancestor(base, y) ensures y == base { Acyclic(y, base); }
  }
}
