/**
 `WriteFile` and `Commit` as writers of the compare-and-swap protocol on the
 default branch (internal/git/write.go and commit.go).
 */
module Branch {
  import opened Base
  import opened Cas
  import opened Dag
  import opened Decide
  import opened Index
  import Strings

  /** How an attempt can end a call other than by a swap. */
  datatype Reply = RepoEmpty | ConflictError(current: Commit, conflicts: seq<WriteConflict>)

  // ------------------------------------------------------------ what an attempt decides

  function MergeCommit(tree: Tree, head: Commit, client: Commit, info: string): Commit {
    Commit(tree, MergeParents(head, client), info)
  }

  function DecideCommit(driver: Driver, parent: Commit, client: Commit, changes: seq<Change>, info: string, head: Commit): Decision<Reply> {
    match Judge(driver, parent, client, head)
    case FastForward => Try(client)
    case Stale => Answer(ConflictError(head, StaleConflicts(head, changes)))
    case Clean(tree) => Try(MergeCommit(tree, head, client, info))
    case Clash(paths) => Answer(ConflictError(head, MergeConflicts(parent, head, client, paths)))
  }

  function DecideWrite(driver: Driver, parent: Commit, client: Commit, path: Path, content: Blob, info: string, head: Commit): Decision<Reply> {
    match Judge(driver, parent, client, head)
    case FastForward => Try(client)
    case Stale => Answer(ConflictError(head, [WriteConflict(head, path, "", "", content)]))
    case Clean(tree) => Try(MergeCommit(tree, head, client, info))
    case Clash(_) =>
      Answer(ConflictError(head, [WriteConflict(head, path, Body(Look(parent.tree, path)), Body(Look(head.tree, path)), content)]))
  }

  /** A `Commit` call as a writer; `infos` are the identities of its merge commits, one per attempt. */
  function CommitPlan(driver: Driver, parent: Commit, client: Commit, changes: seq<Change>, infos: nat -> string): Plan<Reply> {
    (ref: Ref, n: nat) =>
      match ref
      case None => Answer(RepoEmpty)
      case Some(head) => DecideCommit(driver, parent, client, changes, infos(n), head)
  }

  /** A `WriteFile` call as a writer. */
  function WritePlan(driver: Driver, parent: Commit, client: Commit, path: Path, content: Blob, infos: nat -> string): Plan<Reply> {
    (ref: Ref, n: nat) =>
      match ref
      case None => Answer(RepoEmpty)
      case Some(head) => DecideWrite(driver, parent, client, path, content, infos(n), head)
  }

  /** A call of either kind, with a client commit built on the parent it names. */
  ghost predicate IsCall(plan: Plan<Reply>) {
    IsCommitCall(plan) || IsWriteCall(plan)
  }

  ghost predicate IsCommitCall(plan: Plan<Reply>) {
    exists driver: Driver, parent: Commit, client: Commit, changes: seq<Change>, infos: nat -> string ::
      plan == CommitPlan(driver, parent, client, changes, infos) && client.parents == [parent]
  }

  ghost predicate IsWriteCall(plan: Plan<Reply>) {
    exists driver: Driver, parent: Commit, client: Commit, path: Path, content: Blob, infos: nat -> string ::
      plan == WritePlan(driver, parent, client, path, content, infos) && client.parents == [parent]
  }

  lemma TryAttaches(driver: Driver, parent: Commit, client: Commit, info: string, head: Commit)
    requires client.parents == [parent]
    ensures match Judge(driver, parent, client, head)
            case FastForward => head in client.parents
            case Clean(tree) => head in MergeCommit(tree, head, client, info).parents
            case _ => true
  {
  }

  lemma CallsAttach(plan: Plan<Reply>)
    requires IsCall(plan)
    ensures Attaches(plan)
  {
    hide Judge;
    if IsCommitCall(plan) {
      var driver: Driver, parent: Commit, client: Commit, changes: seq<Change>, infos: nat -> string :|
        plan == CommitPlan(driver, parent, client, changes, infos) && client.parents == [parent];
      forall h: Commit, n: nat | plan(Some(h), n).Try? ensures h in plan(Some(h), n).next.parents {
        TryAttaches(driver, parent, client, infos(n), h);
      }
    } else {
      var driver: Driver, parent: Commit, client: Commit, path: Path, content: Blob, infos: nat -> string :|
        plan == WritePlan(driver, parent, client, path, content, infos) && client.parents == [parent];
      forall h: Commit, n: nat | plan(Some(h), n).Try? ensures h in plan(Some(h), n).next.parents {
        TryAttaches(driver, parent, client, infos(n), h);
      }
    }
  }

  lemma CallsOnly(acts: seq<Action<Reply>>)
    requires OnlyWriters(acts, IsCall)
    ensures OnlyWriters(acts, (plan: Plan<Reply>) => Attaches(plan))
  {
    hide IsCall, Attaches;
    forall i | 0 <= i < |acts| && acts[i].Start? ensures Attaches(acts[i].plan) { CallsAttach(acts[i].plan); }
  }

  // ------------------------------------------------------------ over every interleaving

  /**
   Every move of the branch by any mix of `WriteFile` and `Commit` calls goes
   to a commit that has the old head as a parent.
   */
  lemma BranchMovesAttach(first: Ref, acts: seq<Action<Reply>>)
    requires OnlyWriters(acts, IsCall)
    ensures LinksUp(first, Run(Init(first), acts).log)
  {
    CallsOnly(acts);
    MovesAttach(first, acts);
    RunExtends(Init<Reply>(first), acts);
  }

  /** Every version ever returned as success stays an ancestor of the branch head. */
  lemma ReturnedVersionsStay(first: Ref, acts: seq<Action<Reply>>, n: nat, w: Wid)
    requires n <= |acts| && OnlyWriters(acts, IsCall)
    requires var s := Run(Init(first), acts[..n]);
             w in s.writers && s.writers[w].phase.Won?
    ensures var v := Run(Init(first), acts[..n]).writers[w].phase.version;
            var head := Current(Run(Init(first), acts));
            head.Some? && Ancestor(v, head.value)
  {
    CallsOnly(acts);
    SuccessIsNeverLost(first, acts, n, w);
  }

  /** `parent` was the branch head at some point among the first `n` moves. */
  ghost predicate WasHead(s: Sys<Reply>, parent: Commit, n: nat)
    requires n <= |s.log|
  {
    exists i :: 0 <= i <= n && RefAt(s.first, s.log, i) == Some(parent)
  }

  /** A parent that ever was the branch head is an ancestor of every head read later. */
  lemma ParentStaysAncestor(first: Ref, acts: seq<Action<Reply>>, parent: Commit, n: nat)
    requires OnlyWriters(acts, IsCall)
    requires n <= |Run(Init(first), acts).log| && WasHead(Run(Init(first), acts), parent, n)
    ensures var seen := RefAt(first, Run(Init(first), acts).log, n);
            seen.Some? && Ancestor(parent, seen.value)
  {
    hide Run, IsCall;
    var s := Run(Init(first), acts);
    RunExtends(Init<Reply>(first), acts);
    BranchMovesAttach(first, acts);
    var i :| 0 <= i <= n && RefAt(s.first, s.log, i) == Some(parent);
    HeadsAreAncestors(first, s.log, i, n);
  }

  /**
   Where only these calls move the branch, a `Commit` whose parent ever was
   the branch head is never answered as stale: its refusal is a real merge
   conflict with the head it read.
   */
  lemma NeverStale(first: Ref, acts: seq<Action<Reply>>, w: Wid, driver: Driver, parent: Commit, client: Commit,
                   changes: seq<Change>, infos: nat -> string)
    requires OnlyWriters(acts, IsCall)
    requires var s := Run(Init(first), acts);
             && w in s.writers && s.writers[w].phase.Refused?
             && s.writers[w].plan == CommitPlan(driver, parent, client, changes, infos)
             && s.writers[w].phase.seenAt <= |s.log| && WasHead(s, parent, s.writers[w].phase.seenAt)
    ensures var s := Run(Init(first), acts);
            var seen := RefAt(first, s.log, s.writers[w].phase.seenAt);
            seen.Some? && Judge(driver, parent, client, seen.value).Clash?
  {
    hide Run, Judge, IsCall, Ancestor;
    var x := Run(Init(first), acts).writers[w];
    ParentStaysAncestor(first, acts, parent, x.phase.seenAt);
    RefusedByPlan(first, acts, w);
    var head := RefAt(first, Run(Init(first), acts).log, x.phase.seenAt).value;
    JudgeStale(driver, parent, client, head);
    assert x.plan(Some(head), |x.lost|) == DecideCommit(driver, parent, client, changes, infos(|x.lost|), head);
  }

  /** The same for `WriteFile`. */
  lemma NeverStaleWrite(first: Ref, acts: seq<Action<Reply>>, w: Wid, driver: Driver, parent: Commit, client: Commit,
                        path: Path, content: Blob, infos: nat -> string)
    requires OnlyWriters(acts, IsCall)
    requires var s := Run(Init(first), acts);
             && w in s.writers && s.writers[w].phase.Refused?
             && s.writers[w].plan == WritePlan(driver, parent, client, path, content, infos)
             && s.writers[w].phase.seenAt <= |s.log| && WasHead(s, parent, s.writers[w].phase.seenAt)
    ensures var s := Run(Init(first), acts);
            var seen := RefAt(first, s.log, s.writers[w].phase.seenAt);
            seen.Some? && Judge(driver, parent, client, seen.value).Clash?
  {
    hide Run, Judge, IsCall, Ancestor;
    var x := Run(Init(first), acts).writers[w];
    ParentStaysAncestor(first, acts, parent, x.phase.seenAt);
    RefusedByPlan(first, acts, w);
    var head := RefAt(first, Run(Init(first), acts).log, x.phase.seenAt).value;
    JudgeStale(driver, parent, client, head);
    assert x.plan(Some(head), |x.lost|) == DecideWrite(driver, parent, client, path, content, infos(|x.lost|), head);
  }

  lemma JudgeStale(driver: Driver, parent: Commit, client: Commit, head: Commit)
    ensures Judge(driver, parent, client, head).Stale? <==> !Ancestor(parent, head)
  {
  }

  lemma RefusedByPlan(first: Ref, acts: seq<Action<Reply>>, w: Wid)
    requires var s := Run(Init(first), acts);
             w in s.writers && s.writers[w].phase.Refused?
    ensures var s := Run(Init(first), acts);
            var x := s.writers[w];
            x.phase.seenAt <= |s.log| && x.startAt <= x.phase.seenAt
            && x.plan(RefAt(first, s.log, x.phase.seenAt), |x.lost|) == Answer(x.phase.reply)
  {
    RunExtends(Init<Reply>(first), acts);
    InitInv<Reply>(first);
    RunKeepsInv(Init(first), acts);
    var s := Run(Init(first), acts);
    assert WriterFits(s.first, s.log, w, s.writers[w]);
  }

  // ------------------------------------------------------------ content over whole runs

  /** The call leaves path `p` as its parent has it. */
  ghost predicate Spares(plan: Plan<Reply>, p: Path) {
    || (exists driver: Driver, parent: Commit, client: Commit, changes: seq<Change>, infos: nat -> string ::
          plan == CommitPlan(driver, parent, client, changes, infos) && client.parents == [parent] && !Touched(parent, client, p))
    || (exists driver: Driver, parent: Commit, client: Commit, path: Path, content: Blob, infos: nat -> string ::
          plan == WritePlan(driver, parent, client, path, content, infos) && client.parents == [parent] && !Touched(parent, client, p))
  }

  /** A swap by a call that spares a path leaves the path as the head has it. */
  lemma SparedByVerdict(driver: Driver, parent: Commit, client: Commit, head: Commit, p: Path)
    requires !Touched(parent, client, p)
    ensures var v := Judge(driver, parent, client, head);
            && (v.FastForward? ==> Look(client.tree, p) == Look(head.tree, p))
            && (v.Clean? ==> Look(v.tree, p) == Look(head.tree, p))
  {
    var verdict := Judge(driver, parent, client, head);
    if verdict.Clean? { CleanMergeKeepsHead(driver, parent, client, head); }
  }

  lemma SparedByPlan(plan: Plan<Reply>, head: Commit, n: nat, p: Path)
    requires Spares(plan, p) && plan(Some(head), n).Try?
    ensures Look(plan(Some(head), n).next.tree, p) == Look(head.tree, p)
  {
    hide Judge, Touched;
    if driver: Driver, parent: Commit, client: Commit, changes: seq<Change>, infos: nat -> string :|
        plan == CommitPlan(driver, parent, client, changes, infos) && client.parents == [parent] && !Touched(parent, client, p) {
      assert plan(Some(head), n) == DecideCommit(driver, parent, client, changes, infos(n), head);
      SparedByVerdict(driver, parent, client, head, p);
    } else {
      var driver: Driver, parent: Commit, client: Commit, path: Path, content: Blob, infos: nat -> string :|
        plan == WritePlan(driver, parent, client, path, content, infos) && client.parents == [parent] && !Touched(parent, client, p);
      assert plan(Some(head), n) == DecideWrite(driver, parent, client, path, content, infos(n), head);
      SparedByVerdict(driver, parent, client, head, p);
    }
  }

  /** Every move from the i-th up to the j-th was made by a call that spares path `p`. */
  ghost predicate SparedFrom(s: Sys<Reply>, i: nat, j: nat, p: Path)
    requires j <= |s.log|
  {
    forall m :: i <= m < j ==> s.log[m].who.Some? && s.log[m].who.value in s.writers && Spares(s.writers[s.log[m].who.value].plan, p)
  }

  /** Over every interleaving: a path that all the moves in between spare is the same in both heads. */
  lemma {:induction false} SparedPathsStay(first: Ref, acts: seq<Action<Reply>>, i: nat, j: nat, p: Path)
    requires i <= j <= |Run(Init(first), acts).log| && SparedFrom(Run(Init(first), acts), i, j, p)
    requires RefAt(first, Run(Init(first), acts).log, i).Some?
    ensures var s := Run(Init(first), acts);
            RefAt(first, s.log, j).Some?
            && Look(RefAt(first, s.log, j).value.tree, p) == Look(RefAt(first, s.log, i).value.tree, p)
    decreases j - i
  {
    hide Run, Spares, Look;
    if i < j {
      var s := Run(Init(first), acts);
      RunExtends(Init<Reply>(first), acts);
      SparedPathsStay(first, acts, i, j - 1, p);
      MovesFollowPlans(first, acts, j - 1);
      var plan, head := s.writers[s.log[j - 1].who.value].plan, RefAt(first, s.log, j - 1).value;
      var n: nat :| n < MAX_ATTEMPTS && plan(Some(head), n) == Try(s.log[j - 1].to.value);
      SparedByPlan(plan, head, n, p);
    }
  }

  /** What a swap makes of a path that the head had left alone: the client's version, if its commit is new to the head. */
  lemma LandsByVerdict(driver: Driver, parent: Commit, client: Commit, head: Commit, p: Path)
    requires !Ancestor(client, head) && Touched(parent, client, p) && Look(head.tree, p) == Look(parent.tree, p)
    ensures var v := Judge(driver, parent, client, head);
            v.Clean? ==> Look(v.tree, p) == Look(client.tree, p)
  {
    hide Ancestor;
    var verdict := Judge(driver, parent, client, head);
    if verdict.Clean? { CleanMergeLands(driver, parent, client, head); }
  }

  /** The call named by `plan` is a `Commit` or a `WriteFile` with this parent and client commit. */
  ghost predicate Carries(plan: Plan<Reply>, parent: Commit, client: Commit) {
    || (exists driver: Driver, changes: seq<Change>, infos: nat -> string :: plan == CommitPlan(driver, parent, client, changes, infos))
    || (exists driver: Driver, path: Path, content: Blob, infos: nat -> string :: plan == WritePlan(driver, parent, client, path, content, infos))
  }

  lemma LandsByPlan(plan: Plan<Reply>, parent: Commit, client: Commit, head: Commit, n: nat, p: Path)
    requires Carries(plan, parent, client) && plan(Some(head), n).Try?
    requires !Ancestor(client, head) && Touched(parent, client, p) && Look(head.tree, p) == Look(parent.tree, p)
    ensures Look(plan(Some(head), n).next.tree, p) == Look(client.tree, p)
  {
    hide Judge, Touched, Ancestor;
    if driver: Driver, changes: seq<Change>, infos: nat -> string :| plan == CommitPlan(driver, parent, client, changes, infos) {
      assert plan(Some(head), n) == DecideCommit(driver, parent, client, changes, infos(n), head);
      LandsByVerdict(driver, parent, client, head, p);
    } else {
      var driver: Driver, path: Path, content: Blob, infos: nat -> string :| plan == WritePlan(driver, parent, client, path, content, infos);
      assert plan(Some(head), n) == DecideWrite(driver, parent, client, path, content, infos(n), head);
      LandsByVerdict(driver, parent, client, head, p);
    }
  }

  /**
   Over every interleaving: a change to a path that the head of the moment
   had left alone is in the branch from the i-th move on, until a later call
   touches the path.
   */
  lemma LandedChangesStay(first: Ref, acts: seq<Action<Reply>>, i: nat, j: nat, parent: Commit, client: Commit, p: Path)
    requires i < j <= |Run(Init(first), acts).log| && SparedFrom(Run(Init(first), acts), i + 1, j, p)
    requires var s := Run(Init(first), acts);
             && s.log[i].who.Some? && s.log[i].who.value in s.writers && Carries(s.writers[s.log[i].who.value].plan, parent, client)
             && RefAt(first, s.log, i).Some?
             && var head := RefAt(first, s.log, i).value;
                !Ancestor(client, head) && Touched(parent, client, p) && Look(head.tree, p) == Look(parent.tree, p)
    ensures var s := Run(Init(first), acts);
            RefAt(first, s.log, j).Some? && Look(RefAt(first, s.log, j).value.tree, p) == Look(client.tree, p)
  {
    hide Run, Spares, Look, Carries, Ancestor, Touched;
    var s := Run(Init(first), acts);
    RunExtends(Init<Reply>(first), acts);
    MovesFollowPlans(first, acts, i);
    var plan, head := s.writers[s.log[i].who.value].plan, RefAt(first, s.log, i).value;
    var n: nat :| n < MAX_ATTEMPTS && plan(Some(head), n) == Try(s.log[i].to.value);
    LandsByPlan(plan, parent, client, head, n, p);
    SparedPathsStay(first, acts, i + 1, j, p);
  }

  // ------------------------------------------------------------ answers

  ghost predicate Names(changes: seq<Change>, p: Path) {
    exists j :: 0 <= j < |changes| && changes[j].path == p
  }

  /** A refused `Commit` lists only paths of its own change set. */
  lemma RefusalNamesOwnPaths(driver: Driver, parent: Commit, client: Commit, changes: seq<Change>, info: string, head: Commit)
    requires client.tree == AppliedAll(parent.tree, changes)
    requires DecideCommit(driver, parent, client, changes, info, head).Answer?
    ensures var reply := DecideCommit(driver, parent, client, changes, info, head).reply;
            reply.ConflictError? && reply.current == head
            && forall c :: c in reply.conflicts ==> c.current == head && Names(changes, c.path)
  {
    hide AppliedAll, Judge;
    var conflicts := DecideCommit(driver, parent, client, changes, info, head).reply.conflicts;
    var verdict := Judge(driver, parent, client, head);
    forall c | c in conflicts ensures c.current == head && Names(changes, c.path) {
      var i :| 0 <= i < |conflicts| && conflicts[i] == c;
      if verdict.Stale? {
        assert c == StaleConflict(head, changes[i]);
      } else {
        var p := verdict.paths[i];
        assert p in verdict.paths && c == MergeConflict(parent, head, client, p);
        ClashExact(driver, parent, client, head, p);
        TouchedIsNamed(parent.tree, changes, p);
      }
    }
  }

  /** Both calls build the same tree from one put. */
  lemma OnePut(parent: Commit, path: Path, content: Blob)
    ensures AppliedAll(parent.tree, [Put(path, content)]) == parent.tree[path := content]
  {
    var cs := [Put(path, content)];
    assert cs[..|cs| - 1] == [];
    assert AppliedAll(parent.tree, []) == parent.tree;
  }

  /** The two end alike: the same reply, or a swap to commits with the same tree and first parent. */
  predicate Alike(x: Decision<Reply>, y: Decision<Reply>) {
    match (x, y)
    case (Answer(a), Answer(b)) => a == b
    case (Try(a), Try(b)) => a.tree == b.tree && a.parents != [] && b.parents != [] && a.parents[0] == b.parents[0]
    case _ => false
  }

  /**
   `WriteFile` is `Commit` with one put. The two make client commits `c` and
   `d` that differ in their messages, and label their merges differently. On
   every head that holds both or neither, they make the same choice, swap in
   the same tree on the same head, or give the same conflict.
   */
  lemma WriteRefinesCommit(driver: Driver, parent: Commit, c: Commit, d: Commit, path: Path, content: Blob, i: string, j: string, head: Commit)
    requires c.parents == d.parents == [parent] && c.tree == d.tree == parent.tree[path := content]
    requires Ancestor(c, head) <==> Ancestor(d, head)
    ensures Judge(driver, parent, c, head) == Judge(driver, parent, d, head)
    ensures Alike(DecideWrite(driver, parent, c, path, content, i, head),
                  DecideCommit(driver, parent, d, [Put(path, content)], j, head))
  {
    hide Ancestor;
    MessagesDoNotMatter(driver, parent, c, d, head);
    var verdict := Judge(driver, parent, c, head);
    if verdict.Clash? {
      hide Judge;
      var paths := verdict.paths;
      forall p ensures p in paths ==> p == path {
        ClashExact(driver, parent, c, head, p);
      }
      ClashPathsSorted(driver, parent, c, head);
      OnlyElement(paths, path);
      assert MergeConflicts(parent, head, d, paths)
          == [WriteConflict(head, path, Body(Look(parent.tree, path)), Body(Look(head.tree, path)), content)];
    } else if verdict.Stale? {
      assert StaleConflicts(head, [Put(path, content)]) == [WriteConflict(head, path, "", "", content)];
    }
  }

  lemma ClashPathsSorted(driver: Driver, parent: Commit, client: Commit, head: Commit)
    requires Judge(driver, parent, client, head).Clash?
    ensures Strings.StrictlySorted(Judge(driver, parent, client, head).paths) && Judge(driver, parent, client, head).paths != []
  {
    var base := MergeBase(head, parent, client);
    Strings.SortedStrict(set p | p in AllPaths(base.tree, head.tree, client.tree)
                                 && PathAt(driver, base.tree, head.tree, client.tree, p).Conflicted?);
  }

  lemma OnlyElement(s: seq<Path>, x: Path)
    requires Strings.StrictlySorted(s) && s != [] && forall y :: y in s ==> y == x
    ensures s == [x]
  {
    assert s[0] in s;
    if |s| > 1 {
      assert s[1] in s;
      Strings.LessAsymmetric(s[0], s[1]);
    }
  }

  /** Client commits that differ in their messages get the same verdict on every head that holds both or neither. */
  lemma MessagesDoNotMatter(driver: Driver, parent: Commit, c: Commit, d: Commit, head: Commit)
    requires c.tree == d.tree && (Ancestor(c, head) <==> Ancestor(d, head))
    ensures Judge(driver, parent, c, head) == Judge(driver, parent, d, head)
  {
    hide Ancestor;
  }

  lemma NotOwnParent(parent: Commit, c: Commit)
    requires c.parents == [parent]
    ensures Ancestor(parent, c) && !Ancestor(c, parent)
  {
    assert Ancestor(parent, c.parents[0]);
    ParentDepth(c, 0, 0);
    if Ancestor(c, parent) { AncestorDepth(c, parent); }
  }

  /** A head that holds the client's commit already: the merge is clean and keeps the head's tree. */
  lemma HeldCommit(driver: Driver, parent: Commit, c: Commit, head: Commit)
    requires c.parents == [parent] && Ancestor(c, head)
    ensures Judge(driver, parent, c, head) == Clean(head.tree)
  {
    NotOwnParent(parent, c);
    AncestorTransitive(parent, c, head);
    hide Ancestor;
    forall p ensures PathAt(driver, c.tree, head.tree, c.tree, p) == Take(Look(head.tree, p)) {}
    KeepsTree(driver, c.tree, head.tree, c.tree);
  }

  /** Merging changes nothing, exactly if every path comes out as the head has it. */
  lemma KeepsTree(driver: Driver, b: Tree, t: Tree, y: Tree)
    ensures ConflictPaths(driver, b, t, y) == [] && MergeTrees(driver, b, t, y) == t
       <==> forall p :: PathAt(driver, b, t, y, p) == Take(Look(t, p))
  {
    hide PathAt, MergeTrees, ConflictPaths;
    var merged, paths := MergeTrees(driver, b, t, y), ConflictPaths(driver, b, t, y);
    forall p
      ensures PathAt(driver, b, t, y, p).Take? ==> Look(merged, p) == PathAt(driver, b, t, y, p).blob
      ensures p in paths <==> PathAt(driver, b, t, y, p).Conflicted?
    {
      MergedPathAt(driver, b, t, y, p);
    }
    if paths != [] { assert paths[0] in paths; }
    if forall p :: PathAt(driver, b, t, y, p) == Take(Look(t, p)) {
      forall p ensures p in merged <==> p in t { assert Look(merged, p) == Look(t, p); }
      forall p | p in t ensures merged[p] == t[p] { assert Look(merged, p) == Look(t, p); }
    }
  }

  /**
   A head that holds exactly one of the two commits tells them apart: the one
   it holds changes nothing, the other is merged from the parent. They get
   the same verdict exactly if that merge changes nothing either.
   */
  lemma OneHeld(driver: Driver, parent: Commit, c: Commit, d: Commit, head: Commit)
    requires c.parents == d.parents == [parent] && Ancestor(c, head) && !Ancestor(d, head)
    ensures Judge(driver, parent, c, head) == Clean(head.tree)
    ensures Judge(driver, parent, d, head) == Judge(driver, parent, c, head)
       <==> forall p :: PathAt(driver, parent.tree, head.tree, d.tree, p) == Take(Look(head.tree, p))
  {
    HeldCommit(driver, parent, c, head);
    NotOwnParent(parent, c);
    AncestorTransitive(parent, c, head);
    KeepsTree(driver, parent.tree, head.tree, d.tree);
    hide Ancestor, PathAt, MergeTrees, ConflictPaths;
  }

  /** So a write repeated under another message can land where the same write repeated exactly is lost. */
  lemma RelabelledWriteLands(driver: Driver)
    ensures var parent := Commit(map["a" := "1"], [], "init");
            var c, d := Commit(map["a" := "2"], [parent], "edit"), Commit(map["a" := "2"], [parent], "edit again");
            var head := Commit(map["a" := "1"], [c], "revert");
            Judge(driver, parent, c, head) == Clean(map["a" := "1"]) && Judge(driver, parent, d, head) == Clean(map["a" := "2"])
  {
    var parent := Commit(map["a" := "1"], [], "init");
    var c, d := Commit(map["a" := "2"], [parent], "edit"), Commit(map["a" := "2"], [parent], "edit again");
    var head := Commit(map["a" := "1"], [c], "revert");
    assert Ancestor(c, head.parents[0]) && Ancestor(parent, c.parents[0]);
    assert Ancestor(parent, head.parents[0]);
    assert !Ancestor(d, parent) && !Ancestor(d, c) && !Ancestor(d, head);
    HeldCommit(driver, parent, c, head);
    TakesYours(driver, parent.tree, d.tree);
  }

  /** Where the head is as at the base, the merge is the client's tree. */
  lemma TakesYours(driver: Driver, b: Tree, y: Tree)
    ensures ConflictPaths(driver, b, b, y) == [] && MergeTrees(driver, b, b, y) == y
  {
    var merged, paths := MergeTrees(driver, b, b, y), ConflictPaths(driver, b, b, y);
    forall p ensures PathAt(driver, b, b, y, p) == Take(Look(y, p)) && Look(merged, p) == Look(y, p) && p !in paths {
      MergedPathAt(driver, b, b, y, p);
    }
    FirstListed(paths);
    forall p ensures p in merged <==> p in y { assert Look(merged, p) == Look(y, p); }
    forall p | p in y ensures merged[p] == y[p] { assert Look(merged, p) == Look(y, p); }
  }

  lemma FirstListed(paths: seq<Path>)
    ensures paths != [] ==> paths[0] in paths
  {
  }
}
