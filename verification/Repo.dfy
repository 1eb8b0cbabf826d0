/**
 The loops of `WriteFile` and `Commit` as the source writes them, run by one
 caller on a repository that other callers share. Each call is shown to be a
 run of the protocol in module Cas, so that everything proved about all
 interleavings there holds of these loops.
 */
module Repo {
  import opened Base
  import opened Branch
  import opened Cas
  import opened Changes
  import opened Dag
  import opened Decide
  import opened Index

  /** A client-supplied version: none given, the branch itself, or a commit id. */
  datatype Rev = Unspecified | HeadRev | Version(id: Commit)

  datatype Identity = Identity(authorName: string, authorEmail: string, committerName: string, committerEmail: string)

  /** The mark of the client's commit, and those of the merge commits, one per attempt. */
  datatype Labels = Labels(client: string, merges: nat -> string)

  datatype WriteOptions = WriteOptions(parentVersion: Rev, path: Path, content: Blob, who: Identity)

  datatype CommitOptions = CommitOptions(parentVersion: Rev, changes: seq<Change>, who: Identity)

  datatype WriteError =
    | PathRequired
    | ChangesRequired
    | ParentRequired
    | AuthorRequired
    | CommitterRequired
    | ErrRepoEmpty
    | ErrVersionNotFound
    | ErrInvalidPath
    | Conflict(current: Commit, conflicts: seq<WriteConflict>)
    | GaveUpContention

  datatype WriteResult =
    WriteResult(version: Commit, mergedFrom: Option<Commit>, mergedWith: Option<Commit>, changes: seq<ChangeEntry>, fastForward: bool)

  /** Success, refusal and giving up as the protocol sees them. */
  ghost predicate Outcome(r: Result<WriteResult, WriteError>, x: Writer<Reply>) {
    match r
    case Ok(res) => x.phase.Won? && x.phase.version == res.version
    case Err(ErrRepoEmpty) => x.phase.Refused? && x.phase.reply == RepoEmpty
    case Err(Conflict(current, conflicts)) => x.phase.Refused? && x.phase.reply == ConflictError(current, conflicts)
    case Err(GaveUpContention) => x.phase.GaveUp?
    case Err(_) => false
  }

  /** The result names what was merged, and its change list leads from there to the new version. */
  ghost predicate ResultFits(res: WriteResult, parent: Commit, client: Commit) {
    if res.fastForward then
      res.version == client && res.mergedFrom == None && res.mergedWith == None
      && res.changes == TreeChanges(parent.tree, client.tree) && Ledger(parent.tree, res.changes) == client.tree
    else
      res.mergedFrom == Some(parent) && res.mergedWith.Some?
      && res.version.parents == MergeParents(res.mergedWith.value, client)
      && res.changes == TreeChanges(res.mergedWith.value.tree, res.version.tree)
      && Ledger(res.mergedWith.value.tree, res.changes) == res.version.tree
  }

  /** The parent a call resolved and the client commit it made. */
  datatype Built = Built(parent: Commit, client: Commit)

  /** The result carries the change list from what the new version was built on. */
  ghost predicate Reports(res: WriteResult, parent: Commit, client: Commit) {
    if res.fastForward then
      res == WriteResult(client, None, None, TreeChanges(parent.tree, client.tree), true)
    else
      res.mergedWith.Some? && res.mergedFrom == Some(parent)
      && res.version.parents == MergeParents(res.mergedWith.value, client)
      && res.changes == TreeChanges(res.mergedWith.value.tree, res.version.tree)
  }

  class Repository {
    var head: Ref
    var objects: set<Commit>

    // The ref at the start of the record, and every protocol step since.
    ghost var first: Ref
    ghost var past: seq<Action<Reply>>

    ghost function State(): Sys<Reply>
      reads this
    {
      Run(Init(first), past)
    }

    ghost predicate Valid()
      reads this
    {
      head == Current(State()) && (head.Some? ==> head.value in objects)
    }

    /** What a call sees of others between two of its own steps: any of their steps, and pushes. Alone, nothing. */
    method Others(ghost w: Wid, ghost alone: bool)
      requires Valid()
      modifies this
      ensures Valid() && first == old(first) && objects >= old(objects)
      ensures old(past) <= past && forall i :: |old(past)| <= i < |past| ==> !Concerns(past[i], w)
      ensures alone ==> past == old(past) && head == old(head)
      ensures w in State().writers <==> w in old(State().writers)
      ensures w in State().writers ==> State().writers[w] == old(State()).writers[w]
    {
    }

    /** Joining the protocol. */
    ghost method Join(w: Wid, plan: Plan<Reply>)
      requires Valid() && w !in State().writers
      modifies this`past
      ensures Valid() && past == old(past) + [Start(w, plan)]
      ensures w in State().writers && State().writers[w] == Writer(plan, |State().log|, [], Reading)
    {
      RunSnoc(Init(first), past, Start(w, plan));
      past := past + [Start(w, plan)];
    }

    /** `m.Head` within the retry loop. */
    method ReadHead(ghost w: Wid) returns (seen: Ref)
      requires Valid() && w in State().writers && State().writers[w].phase.Reading?
      modifies this`past
      ensures Valid() && past == old(past) + [Turn(w)] && seen == head
      ensures w in State().writers && State().writers[w] == ReadStep(old(State()), old(State()).writers[w])
      ensures |State().log| == |old(State()).log| && Current(State()) == head
    {
      seen := head;
      RunSnoc(Init(first), past, Turn(w));
      past := past + [Turn(w)];
    }

    /** `updateRefCAS`. */
    method UpdateRef(ghost w: Wid, next: Commit, want: Ref) returns (ok: bool)
      requires Valid() && w in State().writers && next in objects
      requires State().writers[w].phase.Swapping? && State().writers[w].phase.seen == want && State().writers[w].phase.next == next
      modifies this`past, this`head
      ensures Valid() && past == old(past) + [Turn(w)]
      ensures ok <==> old(head) == want
      ensures head == if ok then Some(next) else old(head)
      ensures w in State().writers && State().writers[w].plan == old(State()).writers[w].plan
      ensures ok ==> State().writers[w].phase.Won? && State().writers[w].phase.version == next
      ensures !ok ==> State().writers[w] == LoseStep(old(State()), old(State()).writers[w])
    {
      RunSnoc(Init(first), past, Turn(w));
      past := past + [Turn(w)];
      ok := head == want;
      if ok { head := Some(next); }
    }

    /** One read, after whatever others did in the meantime. */
    method NextHead(ghost w: Wid, ghost alone: bool) returns (seen: Ref)
      requires Valid() && w in State().writers && State().writers[w].phase.Reading?
      modifies this
      ensures Valid() && first == old(first) && old(past) <= past && objects >= old(objects)
      ensures seen.Some? ==> seen.value in objects
      ensures alone ==> seen == head == old(head)
      ensures w in State().writers
      ensures var x, x' := old(State()).writers[w], State().writers[w];
              x'.plan == x.plan && x'.lost == x.lost
              && match x.plan(seen, |x.lost|)
                 case Try(next) => x'.phase.Swapping? && x'.phase.seen == seen && x'.phase.next == next
                 case Answer(reply) => x'.phase.Refused? && x'.phase.reply == reply
    {
      Others(w, alone);
      seen := ReadHead(w);
    }

    /** One swap, after whatever others did in the meantime. */
    method TrySwap(ghost w: Wid, ghost alone: bool, next: Commit, want: Ref, res: WriteResult, ghost parent: Commit, ghost client: Commit)
      returns (ok: bool)
      requires Valid() && w in State().writers && next in objects
      requires State().writers[w].phase.Swapping? && State().writers[w].phase.seen == want && State().writers[w].phase.next == next
      requires res.version == next && Reports(res, parent, client)
      modifies this
      ensures Valid() && first == old(first) && old(past) <= past && objects >= old(objects)
      ensures w in State().writers && State().writers[w].plan == old(State()).writers[w].plan
      ensures alone && old(head) == want ==> ok
      ensures ok ==> head == Some(next) && Outcome(Ok(res), State().writers[w]) && ResultFits(res, parent, client)
      ensures !ok ==> && |State().writers[w].lost| == |old(State()).writers[w].lost| + 1
                      && if |State().writers[w].lost| == MAX_ATTEMPTS then State().writers[w].phase.GaveUp? else State().writers[w].phase.Reading?
    {
      Others(w, alone);
      ok := UpdateRef(w, next, want);
      if ok { OutcomeWon(State().writers[w], res, parent, client); }
    }

    /** `commitTree`. */
    method CommitTree(tree: Tree, parents: seq<Commit>, info: string) returns (c: Commit)
      requires Valid()
      modifies this`objects
      ensures Valid() && c == Commit(tree, DropRepeats(parents), info) && objects == old(objects) + {c}
    {
      c := Commit(tree, DropRepeats(parents), info);
      objects := objects + {c};
    }

    /** `resolveCommit`: the branch names its head, and an id names itself if the store has it. */
    method Resolve(rev: Rev) returns (c: Option<Commit>)
      requires Valid()
      ensures rev.Unspecified? ==> c == None
      ensures rev.HeadRev? ==> c == head
      ensures rev.Version? ==> c == if rev.id in objects then Some(rev.id) else None
    {
      match rev
      case Unspecified => return None;
      case HeadRev => return head;
      case Version(id) => return if id in objects then Some(id) else None;
    }

    /** What `WriteFile` does before it enters the retry loop: checks, tree and client commit. */
    method PrepareWrite(okPath: Path -> bool, opts: WriteOptions, mark: string) returns (r: Result<Built, WriteError>)
      requires Valid()
      modifies this`objects
      ensures Valid() && objects >= old(objects)
      ensures r.Ok? <==>
                && opts.path != ""
                && !opts.parentVersion.Unspecified?
                && opts.who.authorName != ""
                && opts.who.authorEmail != ""
                && opts.who.committerName != ""
                && opts.who.committerEmail != ""
                && old(head).Some?
                && (opts.parentVersion.Version? ==> opts.parentVersion.id in old(objects))
                && okPath(opts.path)
      ensures r.Err? ==>
                r.error ==
                  if opts.path == "" then PathRequired
                  else if opts.parentVersion.Unspecified? then ParentRequired
                  else if opts.who.authorName == "" || opts.who.authorEmail == "" then AuthorRequired
                  else if opts.who.committerName == "" || opts.who.committerEmail == "" then CommitterRequired
                  else if old(head).None? then ErrRepoEmpty
                  else if opts.parentVersion.Version? && opts.parentVersion.id !in old(objects) then ErrVersionNotFound
                  else ErrInvalidPath
      ensures r.Ok? ==>
                && (opts.parentVersion.HeadRev? ==> old(head) == Some(r.value.parent)) && (opts.parentVersion.Version? ==> r.value.parent == opts.parentVersion.id)
                && r.value.client == Commit(r.value.parent.tree[opts.path := opts.content], [r.value.parent], mark) && r.value.client in objects
    {
      if opts.path == "" { return Err(PathRequired); }
      if opts.parentVersion.Unspecified? { return Err(ParentRequired); }
      if opts.who.authorName == "" || opts.who.authorEmail == "" { return Err(AuthorRequired); }
      if opts.who.committerName == "" || opts.who.committerEmail == "" { return Err(CommitterRequired); }
      if head.None? { return Err(ErrRepoEmpty); }
      var resolved := Resolve(opts.parentVersion);
      if resolved.None? { return Err(ErrVersionNotFound); }
      var parent := resolved.value;
      var clientTree := TreeWithFile(okPath, parent, opts.path, opts.content);
      if clientTree.None? { return Err(ErrInvalidPath); }
      TwoParents(parent, parent);
      var client := CommitTree(clientTree.value, [parent], mark);
      return Ok(Built(parent, client));
    }

    /** The retry loop of `WriteFile`, for a call that has joined the protocol. */
    method WriteLoop(ghost w: Wid, ghost alone: bool, driver: Driver, parent: Commit, client: Commit, path: Path, content: Blob, labels: Labels)
      returns (r: Result<WriteResult, WriteError>)
      requires Valid() && w in State().writers && client in objects
      requires State().writers[w].phase.Reading? && State().writers[w].lost == []
      requires State().writers[w].plan == WritePlan(driver, parent, client, path, content, labels.merges)
      modifies this
      ensures Valid() && first == old(first) && old(past) <= past && objects >= old(objects)
      ensures w in State().writers && State().writers[w].plan == old(State()).writers[w].plan && Outcome(r, State().writers[w])
      ensures r.Ok? ==> head == Some(r.value.version) && ResultFits(r.value, parent, client)
      ensures alone && old(head).Some? ==>
                match DecideWrite(driver, parent, client, path, content, labels.merges(0), old(head).value)
                case Try(next) => r.Ok? && r.value.version == next
                case Answer(RepoEmpty) => false
                case Answer(ConflictError(current, conflicts)) => r == Err(Conflict(current, conflicts)) && head == old(head)
    {
      hide Judge, Run, Outcome, ResultFits, TreeChanges, WritePlan, ReadStep, LoseStep, Current, MergeTrees, Init, DropRepeats;
      var attempt := 0;
      while attempt < MAX_ATTEMPTS
        invariant attempt <= MAX_ATTEMPTS
        invariant Valid() && first == old(first) && old(past) <= past && objects >= old(objects) && client in objects
        invariant w in State().writers && State().writers[w].plan == WritePlan(driver, parent, client, path, content, labels.merges) && |State().writers[w].lost| == attempt
        invariant if attempt < MAX_ATTEMPTS then State().writers[w].phase.Reading? else State().writers[w].phase.GaveUp?
        invariant alone ==> attempt == 0 && head == old(head)
      {
        var seen := NextHead(w, alone);
        WritePlanNone(driver, parent, client, path, content, labels.merges, attempt);
        if seen.None? {
          OutcomeEmpty(State().writers[w]);
          return Err(ErrRepoEmpty);
        }
        var at := seen.value;
        WritePlanAt(driver, parent, client, path, content, labels.merges, at, attempt);
        var verdict := Judge(driver, parent, client, at);
        match verdict
        case FastForward =>
          var res := WriteResult(client, None, None, TreeChanges(parent.tree, client.tree), true);
          var ok := TrySwap(w, alone, client, seen, res, parent, client);
          if ok { return Ok(res); }
          attempt := attempt + 1;
        case Stale =>
          var conflicts := [WriteConflict(at, path, "", "", content)];
          OutcomeRefused(State().writers[w], at, conflicts);
          return Err(Conflict(at, conflicts));
        case Clash(paths) =>
          var base, theirs := Look(parent.tree, path), Look(at.tree, path);
          var conflicts := [WriteConflict(at, path, Body(base), Body(theirs), content)];
          OutcomeRefused(State().writers[w], at, conflicts);
          return Err(Conflict(at, conflicts));
        case Clean(tree) =>
          TwoParents(at, client);
          var mergeCommit := CommitTree(tree, [at, client], labels.merges(attempt));
          var res := WriteResult(mergeCommit, Some(parent), Some(at), TreeChanges(at.tree, mergeCommit.tree), false);
          var ok := TrySwap(w, alone, mergeCommit, seen, res, parent, client);
          if ok { return Ok(res); }
          attempt := attempt + 1;
      }
      OutcomeGaveUp(State().writers[w]);
      return Err(GaveUpContention);
    }

    /**
     `WriteFile`. An early error leaves the protocol untouched; otherwise the
     call takes part as one writer with the plan of its parent, client commit
     and path, and ends as that writer ends.
     */
    method WriteFile(ghost w: Wid, ghost alone: bool, driver: Driver, okPath: Path -> bool, opts: WriteOptions, labels: Labels)
      returns (r: Result<WriteResult, WriteError>, ghost built: Option<Built>)
      requires Valid() && w !in State().writers
      modifies this
      ensures Valid() && first == old(first) && old(past) <= past && objects >= old(objects)
      ensures built.Some? <==>
                && opts.path != ""
                && !opts.parentVersion.Unspecified?
                && opts.who.authorName != ""
                && opts.who.authorEmail != ""
                && opts.who.committerName != ""
                && opts.who.committerEmail != ""
                && old(head).Some?
                && (opts.parentVersion.Version? ==> opts.parentVersion.id in old(objects))
                && okPath(opts.path)
      ensures built.None? ==>
                r.Err? && r.error ==
                  if opts.path == "" then PathRequired
                  else if opts.parentVersion.Unspecified? then ParentRequired
                  else if opts.who.authorName == "" || opts.who.authorEmail == "" then AuthorRequired
                  else if opts.who.committerName == "" || opts.who.committerEmail == "" then CommitterRequired
                  else if old(head).None? then ErrRepoEmpty
                  else if opts.parentVersion.Version? && opts.parentVersion.id !in old(objects) then ErrVersionNotFound
                  else ErrInvalidPath
      ensures built.None? ==> w !in State().writers && r.Err? && past == old(past) && head == old(head)
      ensures built.Some? ==>
                var Built(parent, client) := built.value;
                && w in State().writers && parent in objects
                && (opts.parentVersion.HeadRev? ==> old(head) == Some(parent)) && (opts.parentVersion.Version? ==> parent == opts.parentVersion.id)
                && client == Commit(parent.tree[opts.path := opts.content], [parent], labels.client)
                && State().writers[w].plan == WritePlan(driver, parent, client, opts.path, opts.content, labels.merges)
                && Outcome(r, State().writers[w])
                && (r.Ok? ==> head == Some(r.value.version) && ResultFits(r.value, parent, client))
                && (alone && opts.parentVersion.HeadRev? ==> r.Ok? && r.value.version == client)
                && (alone ==>
                      match DecideWrite(driver, parent, client, opts.path, opts.content, labels.merges(0), old(head).value)
                      case Try(next) => r.Ok? && r.value.version == next
                      case Answer(RepoEmpty) => false
                      case Answer(ConflictError(current, conflicts)) => r == Err(Conflict(current, conflicts)) && head == old(head))
    {
      hide Judge, Run, Outcome, ResultFits, TreeChanges, WritePlan, ReadStep, LoseStep, Current, MergeTrees, Init, DropRepeats;
      built := None;
      var prepared := PrepareWrite(okPath, opts, labels.client);
      if prepared.Err? { return Err(prepared.error), None; }
      var Built(parent, client) := prepared.value;
      built := Some(prepared.value);
      ghost var plan := WritePlan(driver, parent, client, opts.path, opts.content, labels.merges);
      Join(w, plan);
      FastForwards(driver, parent, client);
      r := WriteLoop(w, alone, driver, parent, client, opts.path, opts.content, labels);
    }

    /** What `Commit` does before it enters the retry loop: checks, tree and client commit. */
    method PrepareCommit(okPath: Path -> bool, opts: CommitOptions, mark: string) returns (r: Result<Built, WriteError>)
      requires Valid()
      modifies this`objects
      ensures Valid() && objects >= old(objects)
      ensures r.Ok? <==>
                && opts.changes != []
                && !opts.parentVersion.Unspecified?
                && opts.who.authorName != ""
                && opts.who.authorEmail != ""
                && opts.who.committerName != ""
                && opts.who.committerEmail != ""
                && (forall i :: 0 <= i < |opts.changes| ==> opts.changes[i].path != "" && okPath(opts.changes[i].path))
                && old(head).Some?
                && (opts.parentVersion.Version? ==> opts.parentVersion.id in old(objects))
      ensures r.Err? ==>
                r.error ==
                  if opts.changes == [] then ChangesRequired
                  else if opts.parentVersion.Unspecified? then ParentRequired
                  else if opts.who.authorName == "" || opts.who.authorEmail == "" then AuthorRequired
                  else if opts.who.committerName == "" || opts.who.committerEmail == "" then CommitterRequired
                  else if exists i :: 0 <= i < |opts.changes| && opts.changes[i].path == "" then PathRequired
                  else if old(head).None? then ErrRepoEmpty
                  else if opts.parentVersion.Version? && opts.parentVersion.id !in old(objects) then ErrVersionNotFound
                  else ErrInvalidPath
      ensures r.Ok? ==>
                && (opts.parentVersion.HeadRev? ==> old(head) == Some(r.value.parent)) && (opts.parentVersion.Version? ==> r.value.parent == opts.parentVersion.id)
                && r.value.client == Commit(AppliedAll(r.value.parent.tree, opts.changes), [r.value.parent], mark) && r.value.client in objects
    {
      hide AppliedAll;
      if |opts.changes| == 0 { return Err(ChangesRequired); }
      if opts.parentVersion.Unspecified? { return Err(ParentRequired); }
      if opts.who.authorName == "" || opts.who.authorEmail == "" { return Err(AuthorRequired); }
      if opts.who.committerName == "" || opts.who.committerEmail == "" { return Err(CommitterRequired); }
      for i := 0 to |opts.changes|
        invariant forall j :: 0 <= j < i ==> opts.changes[j].path != ""
      {
        if opts.changes[i].path == "" { return Err(PathRequired); }
      }
      if head.None? { return Err(ErrRepoEmpty); }
      var resolved := Resolve(opts.parentVersion);
      if resolved.None? { return Err(ErrVersionNotFound); }
      var parent := resolved.value;
      var clientTree := TreeWithChanges(okPath, parent, opts.changes);
      if clientTree.None? { return Err(ErrInvalidPath); }
      TwoParents(parent, parent);
      var client := CommitTree(clientTree.value, [parent], mark);
      return Ok(Built(parent, client));
    }

    /** The retry loop of `CommitChanges`, for a call that has joined the protocol. */
    method CommitLoop(ghost w: Wid, ghost alone: bool, driver: Driver, parent: Commit, client: Commit, changes: seq<Change>, labels: Labels)
      returns (r: Result<WriteResult, WriteError>)
      requires Valid() && w in State().writers && client in objects
      requires State().writers[w].phase.Reading? && State().writers[w].lost == []
      requires State().writers[w].plan == CommitPlan(driver, parent, client, changes, labels.merges)
      modifies this
      ensures Valid() && first == old(first) && old(past) <= past && objects >= old(objects)
      ensures w in State().writers && State().writers[w].plan == old(State()).writers[w].plan && Outcome(r, State().writers[w])
      ensures r.Ok? ==> head == Some(r.value.version) && ResultFits(r.value, parent, client)
      ensures alone && old(head).Some? ==>
                match DecideCommit(driver, parent, client, changes, labels.merges(0), old(head).value)
                case Try(next) => r.Ok? && r.value.version == next
                case Answer(RepoEmpty) => false
                case Answer(ConflictError(current, conflicts)) => r == Err(Conflict(current, conflicts)) && head == old(head)
    {
      hide Judge, Run, Outcome, ResultFits, TreeChanges, CommitPlan, ReadStep, LoseStep, Current, MergeTrees, Init, DropRepeats, AppliedAll, PathsOk, StaleConflicts, MergeConflicts;
      var attempt := 0;
      while attempt < MAX_ATTEMPTS
        invariant attempt <= MAX_ATTEMPTS
        invariant Valid() && first == old(first) && old(past) <= past && objects >= old(objects) && client in objects
        invariant w in State().writers && State().writers[w].plan == CommitPlan(driver, parent, client, changes, labels.merges) && |State().writers[w].lost| == attempt
        invariant if attempt < MAX_ATTEMPTS then State().writers[w].phase.Reading? else State().writers[w].phase.GaveUp?
        invariant alone ==> attempt == 0 && head == old(head)
      {
        var seen := NextHead(w, alone);
        CommitPlanNone(driver, parent, client, changes, labels.merges, attempt);
        if seen.None? {
          OutcomeEmpty(State().writers[w]);
          return Err(ErrRepoEmpty);
        }
        var at := seen.value;
        CommitPlanAt(driver, parent, client, changes, labels.merges, at, attempt);
        var verdict := Judge(driver, parent, client, at);
        match verdict
        case FastForward =>
          var res := WriteResult(client, None, None, TreeChanges(parent.tree, client.tree), true);
          var ok := TrySwap(w, alone, client, seen, res, parent, client);
          if ok { return Ok(res); }
          attempt := attempt + 1;
        case Stale =>
          var conflicts := StaleParentConflicts(at, changes);
          OutcomeRefused(State().writers[w], at, conflicts);
          return Err(Conflict(at, conflicts));
        case Clash(paths) =>
          var conflicts := CollectMergeConflicts(parent, at, client, paths);
          OutcomeRefused(State().writers[w], at, conflicts);
          return Err(Conflict(at, conflicts));
        case Clean(tree) =>
          TwoParents(at, client);
          var mergeCommit := CommitTree(tree, [at, client], labels.merges(attempt));
          var res := WriteResult(mergeCommit, Some(parent), Some(at), TreeChanges(at.tree, mergeCommit.tree), false);
          var ok := TrySwap(w, alone, mergeCommit, seen, res, parent, client);
          if ok { return Ok(res); }
          attempt := attempt + 1;
      }
      OutcomeGaveUp(State().writers[w]);
      return Err(GaveUpContention);
    }

    /**
     `Commit`. An early error leaves the protocol untouched; otherwise the
     call takes part as one writer with the plan of its parent, client commit
     and changes, and ends as that writer ends.
     */
    method CommitChanges(ghost w: Wid, ghost alone: bool, driver: Driver, okPath: Path -> bool, opts: CommitOptions, labels: Labels)
      returns (r: Result<WriteResult, WriteError>, ghost built: Option<Built>)
      requires Valid() && w !in State().writers
      modifies this
      ensures Valid() && first == old(first) && old(past) <= past && objects >= old(objects)
      ensures built.Some? <==>
                && opts.changes != []
                && !opts.parentVersion.Unspecified?
                && opts.who.authorName != ""
                && opts.who.authorEmail != ""
                && opts.who.committerName != ""
                && opts.who.committerEmail != ""
                && (forall i :: 0 <= i < |opts.changes| ==> opts.changes[i].path != "" && okPath(opts.changes[i].path))
                && old(head).Some?
                && (opts.parentVersion.Version? ==> opts.parentVersion.id in old(objects))
      ensures built.None? ==>
                r.Err? && r.error ==
                  if opts.changes == [] then ChangesRequired
                  else if opts.parentVersion.Unspecified? then ParentRequired
                  else if opts.who.authorName == "" || opts.who.authorEmail == "" then AuthorRequired
                  else if opts.who.committerName == "" || opts.who.committerEmail == "" then CommitterRequired
                  else if exists i :: 0 <= i < |opts.changes| && opts.changes[i].path == "" then PathRequired
                  else if old(head).None? then ErrRepoEmpty
                  else if opts.parentVersion.Version? && opts.parentVersion.id !in old(objects) then ErrVersionNotFound
                  else ErrInvalidPath
      ensures built.None? ==> w !in State().writers && r.Err? && past == old(past) && head == old(head)
      ensures built.Some? ==>
                var Built(parent, client) := built.value;
                && w in State().writers && parent in objects
                && (opts.parentVersion.HeadRev? ==> old(head) == Some(parent)) && (opts.parentVersion.Version? ==> parent == opts.parentVersion.id)
                && client == Commit(AppliedAll(parent.tree, opts.changes), [parent], labels.client)
                && State().writers[w].plan == CommitPlan(driver, parent, client, opts.changes, labels.merges)
                && Outcome(r, State().writers[w])
                && (r.Ok? ==> head == Some(r.value.version) && ResultFits(r.value, parent, client))
                && (alone && opts.parentVersion.HeadRev? ==> r.Ok? && r.value.version == client)
                && (alone ==>
                      match DecideCommit(driver, parent, client, opts.changes, labels.merges(0), old(head).value)
                      case Try(next) => r.Ok? && r.value.version == next
                      case Answer(RepoEmpty) => false
                      case Answer(ConflictError(current, conflicts)) => r == Err(Conflict(current, conflicts)) && head == old(head))
    {
      hide Judge, Run, Outcome, ResultFits, TreeChanges, CommitPlan, AppliedAll, PathsOk, StaleConflicts, MergeConflicts, ReadStep, LoseStep, Current, MergeTrees, Init, DropRepeats;
      built := None;
      var prepared := PrepareCommit(okPath, opts, labels.client);
      if prepared.Err? { return Err(prepared.error), None; }
      var Built(parent, client) := prepared.value;
      built := Some(prepared.value);
      ghost var plan := CommitPlan(driver, parent, client, opts.changes, labels.merges);
      Join(w, plan);
      FastForwards(driver, parent, client);
      r := CommitLoop(w, alone, driver, parent, client, opts.changes, labels);
    }

    /**
     `Changes`: what happened since a version the client knows. The list
     leads from that version to the head; a version outside the head's
     history is refused.
     */
    method ChangesSince(since: Rev) returns (r: Result<ChangesInfo, ChangesError>)
      requires Valid()
      ensures since.Unspecified? <==> r == Err(SinceRequired)
      ensures !since.Unspecified? && head.None? <==> r == Err(NothingYet)
      ensures head.Some? && since.Version? && since.id !in objects <==> r == Err(NoSuchVersion)
      ensures head.Some? && since.Version? && since.id in objects && !Ancestor(since.id, head.value) <==> r == Err(StaleSince)
      ensures r.Ok? ==>
                && (since.HeadRev? ==> Some(r.value.from) == head) && (since.Version? ==> r.value.from == since.id)
                && Some(r.value.to) == head && Ancestor(r.value.from, r.value.to)
                && r.value.changes == TreeChanges(r.value.from.tree, r.value.to.tree)
                && Ledger(r.value.from.tree, r.value.changes) == r.value.to.tree
    {
      hide TreeChanges, Ledger;
      if since.Unspecified? { return Err(SinceRequired); }
      if head.None? { return Err(NothingYet); }
      var resolved := Resolve(since);
      if resolved.None? { return Err(NoSuchVersion); }
      var from, to := resolved.value, head.value;
      LedgerFollows(from.tree, to.tree);
      if from == to {
        return Ok(ChangesInfo(from, to, []));
      }
      if !Ancestor(from, to) { return Err(StaleSince); }
      return Ok(ChangesInfo(from, to, TreeChanges(from.tree, to.tree)));
    }
  }

  datatype ChangesInfo = ChangesInfo(from: Commit, to: Commit, changes: seq<ChangeEntry>)

  datatype ChangesError = SinceRequired | NothingYet | NoSuchVersion | StaleSince

  /** On the head it was built on, a client commit needs no merge. */
  lemma FastForwards(driver: Driver, parent: Commit, client: Commit)
    ensures Judge(driver, parent, client, parent).FastForward?
  {
  }

  lemma WritePlanAt(driver: Driver, parent: Commit, client: Commit, path: Path, content: Blob, infos: nat -> string, at: Commit, n: nat)
    ensures WritePlan(driver, parent, client, path, content, infos)(Some(at), n)
            == DecideWrite(driver, parent, client, path, content, infos(n), at)
  {
  }

  lemma WritePlanNone(driver: Driver, parent: Commit, client: Commit, path: Path, content: Blob, infos: nat -> string, n: nat)
    ensures WritePlan(driver, parent, client, path, content, infos)(None, n) == Answer(RepoEmpty)
  {
  }

  lemma CommitPlanAt(driver: Driver, parent: Commit, client: Commit, changes: seq<Change>, infos: nat -> string, at: Commit, n: nat)
    ensures CommitPlan(driver, parent, client, changes, infos)(Some(at), n)
            == DecideCommit(driver, parent, client, changes, infos(n), at)
  {
  }

  lemma CommitPlanNone(driver: Driver, parent: Commit, client: Commit, changes: seq<Change>, infos: nat -> string, n: nat)
    ensures CommitPlan(driver, parent, client, changes, infos)(None, n) == Answer(RepoEmpty)
  {
  }

  lemma OutcomeEmpty(x: Writer<Reply>)
    requires x.phase.Refused? && x.phase.reply == RepoEmpty
    ensures Outcome(Err(ErrRepoEmpty), x)
  {
  }

  lemma OutcomeRefused(x: Writer<Reply>, at: Commit, conflicts: seq<WriteConflict>)
    requires x.phase.Refused? && x.phase.reply == ConflictError(at, conflicts)
    ensures Outcome(Err(Conflict(at, conflicts)), x)
  {
  }

  lemma OutcomeWon(x: Writer<Reply>, res: WriteResult, parent: Commit, client: Commit)
    requires x.phase.Won? && x.phase.version == res.version
    requires Reports(res, parent, client)
    ensures Outcome(Ok(res), x) && ResultFits(res, parent, client)
  {
    if res.fastForward { LedgerFollows(parent.tree, client.tree); }
    else { LedgerFollows(res.mergedWith.value.tree, res.version.tree); }
  }

  lemma OutcomeGaveUp(x: Writer<Reply>)
    requires x.phase.GaveUp?
    ensures Outcome(Err(GaveUpContention), x)
  {
  }
}
