/**
 Bringing a repository to Formidable shape, and keeping its ignore file in
 order (internal/server/formidable_scaffold.go).
 */
module Scaffold {
  import opened Base
  import opened Dag
  import opened Decide
  import opened Index
  import opened Repo
  import opened Strings
  import Cas

  const MARKER: Path := ".formidable/context.json"
  const IGNORE: Path := ".gitignore"
  const LEDGER := ".formidable/sync.json"
  const TEMPLATE: Path := "templates/basic.yaml"
  const STORAGE: Path := "storage/.gitkeep"
  const RELATIONS: Path := "relations/.gitkeep"

  // ------------------------------------------------------------ the ignore file

  /** A line that says `entry`: not blank, not a comment. */
  predicate Lists(line: string, entry: string) {
    var trimmed := TrimSpace(line);
    trimmed != "" && !HasPrefix(trimmed, "#") && trimmed == entry
  }

  ghost predicate SomeLists(lines: seq<string>, entry: string) {
    exists i :: 0 <= i < |lines| && Lists(lines[i], entry)
  }

  predicate ListsAny(lines: seq<string>, entry: string)
    ensures ListsAny(lines, entry) <==> SomeLists(lines, entry)
  {
    lines != [] && (Lists(lines[0], entry) || ListsAny(lines[1..], entry))
  }

  predicate HasEntry(body: Blob, entry: string) { ListsAny(Split(body, '\n'), entry) }

  /** `gitignoreHasEntry`. */
  method GitignoreHasEntry(body: Blob, entry: string) returns (found: bool)
    ensures found <==> HasEntry(body, entry)
  {
    var lines := Split(body, '\n');
    for i := 0 to |lines|
      invariant forall j :: 0 <= j < i ==> !Lists(lines[j], entry)
    {
      var trimmed := TrimSpace(lines[i]);
      if trimmed == "" || HasPrefix(trimmed, "#") { continue; }
      if trimmed == entry { return true; }
    }
    return false;
  }

  function Appended(body: Blob, entry: string): Blob {
    body + (if body != "" && body[|body| - 1] != '\n' then "\n" else "") + entry + "\n"
  }

  /** `appendGitignoreEntry`. */
  method AppendGitignoreEntry(body: Blob, entry: string) returns (out: Blob)
    ensures out == Appended(body, entry)
  {
    out := body;
    if |out| > 0 && out[|out| - 1] != '\n' { out := out + "\n"; }
    out := out + entry;
    out := out + "\n";
  }

  /** The lines of a file, without the empty piece after a final line end. */
  function LinesOf(body: Blob): seq<string> {
    var pieces := Split(body, '\n');
    if pieces[|pieces| - 1] == "" then pieces[..|pieces| - 1] else pieces
  }

  /** Every earlier line survives, in place, and the entry is the line after them. */
  lemma EarlierLinesSurvive(body: Blob, entry: string)
    requires entry != "" && '\n' !in entry
    ensures LinesOf(Appended(body, entry)) == LinesOf(body) + [entry]
    ensures Split(Appended(body, entry), '\n') == LinesOf(body) + [entry, ""]
  {
    SplitPlain(entry, '\n');
    SplitPlain("", '\n');
    SplitJoin(entry, "", '\n');
    assert Split(entry + "\n", '\n') == [entry, ""] by { assert entry + ['\n'] + "" == entry + "\n"; }
    LastPiece(body);
    if body == "" {
      assert Appended(body, entry) == entry + "\n";
    } else if body[|body| - 1] == '\n' {
      var front := body[..|body| - 1];
      SplitJoin(front, "", '\n');
      assert front + ['\n'] + "" == body;
      SplitJoin(front, entry + "\n", '\n');
      assert Appended(body, entry) == front + ['\n'] + (entry + "\n");
    } else {
      SplitJoin(body, entry + "\n", '\n');
      assert Appended(body, entry) == body + ['\n'] + (entry + "\n");
    }
  }

  /** The last piece is empty exactly for an empty text and one that ends its last line. */
  lemma {:induction false} LastPiece(body: Blob)
    ensures var pieces := Split(body, '\n');
            pieces[|pieces| - 1] == "" <==> body == "" || body[|body| - 1] == '\n'
  {
    if body != "" {
      LastPiece(body[1..]);
      var rest := Split(body[1..], '\n');
      if |body| == 1 { assert body[1..] == ""; }
    }
  }

  /** An entry that a line can state. */
  predicate Sayable(entry: string) {
    '\n' !in entry && Lists(entry, entry)
  }

  /** After appending, an entry is listed exactly if it was, or is the one appended. */
  lemma AppendedLists(body: Blob, entry: string, other: string)
    requires Sayable(entry)
    ensures HasEntry(Appended(body, entry), other) <==> HasEntry(body, other) || other == entry
  {
    hide Appended, Split;
    EarlierLinesSurvive(body, entry);
    var pieces, lines := Split(body, '\n'), LinesOf(body);
    var all := lines + [entry, ""];
    assert forall i :: 0 <= i < |lines| ==> all[i] == lines[i] && pieces[i] == lines[i];
    assert all[|lines|] == entry && all[|lines| + 1] == "";
    assert |lines| < |pieces| ==> pieces[|lines|] == "" && |pieces| == |lines| + 1;
    if SomeLists(all, other) && other != entry {
      var i :| 0 <= i < |all| && Lists(all[i], other);
      assert i < |lines|;
      assert Lists(pieces[i], other);
    }
    if SomeLists(pieces, other) {
      var i :| 0 <= i < |pieces| && Lists(pieces[i], other);
      assert i < |lines|;
      assert Lists(all[i], other);
    }
    if other == entry { assert Lists(all[|lines|], entry); }
  }

  lemma LedgerSayable()
    ensures Sayable(LEDGER)
  {
    assert TrimLeft(LEDGER) == LEDGER && TrimRight(LEDGER) == LEDGER;
  }

  // ------------------------------------------------------------ the shape

  datatype ScaffoldFile = ScaffoldFile(path: Path, content: Blob)

  /** The embedded starter files, the marker of this moment, and the test of a marker; reading or building can fail. */
  datatype Kit = Kit(files: Option<seq<ScaffoldFile>>, marker: Option<Blob>, valid: Blob -> bool)

  function ByPath(files: seq<ScaffoldFile>): map<Path, Blob> {
    if files == [] then map[]
    else ByPath(files[..|files| - 1])[files[|files| - 1].path := files[|files| - 1].content]
  }

  predicate HasMarker(kit: Kit, t: Tree) { MARKER in t && kit.valid(t[MARKER]) }
  predicate HasUnder(t: Tree, prefix: string) { exists p :: p in t && HasPrefix(p, prefix) }
  predicate HasIgnore(t: Tree) { IGNORE in t && HasEntry(t[IGNORE], LEDGER) }

  predicate Shaped(kit: Kit, t: Tree) {
    HasMarker(kit, t) && HasUnder(t, "templates/") && HasUnder(t, "storage/") && HasUnder(t, "relations/") && HasIgnore(t)
  }

  /** One piece: nothing if it is there, a put if it is missing, `None` if there is nothing to put. */
  function Piece(missing: bool, path: Path, content: Option<Blob>): Option<seq<Change>> {
    if !missing then Some([]) else match content case Some(c) => Some([Put(path, c)]) case None => None
  }

  function Joined(a: Option<seq<Change>>, b: Option<seq<Change>>): Option<seq<Change>> {
    if a.Some? && b.Some? then Some(a.value + b.value) else None
  }

  /** The new ignore file: the default in place of a missing or empty one, otherwise the old one with the entry appended. */
  function IgnoreBody(t: Tree, starter: map<Path, Blob>): Option<Blob> {
    if IGNORE !in t || t[IGNORE] == "" then Get(starter, IGNORE) else Some(Appended(t[IGNORE], LEDGER))
  }

  /** What bringing the tree to shape takes; `None` if some starter is missing. */
  function ShapeChanges(kit: Kit, t: Tree): Option<seq<Change>> {
    if kit.files.None? then None
    else
      var starter := ByPath(kit.files.value);
      Joined(Joined(Joined(Joined(
        Piece(!HasMarker(kit, t), MARKER, kit.marker),
        Piece(!HasUnder(t, "templates/"), TEMPLATE, Get(starter, TEMPLATE))),
        Piece(!HasUnder(t, "storage/"), STORAGE, Get(starter, STORAGE))),
        Piece(!HasUnder(t, "relations/"), RELATIONS, Get(starter, RELATIONS))),
        Piece(!HasIgnore(t), IGNORE, IgnoreBody(t, starter)))
  }

  /** The first half of `ensureFormidableShape`: look the tree over. */
  method Survey(kit: Kit, t: Tree) returns (hasMarker: bool, hasTemplates: bool, hasStorage: bool, hasRelations: bool, hasEntry: bool, ignore: Blob)
    ensures hasMarker == HasMarker(kit, t) && hasTemplates == HasUnder(t, "templates/")
    ensures hasStorage == HasUnder(t, "storage/") && hasRelations == HasUnder(t, "relations/")
    ensures hasEntry == HasIgnore(t) && ignore == (if IGNORE in t then t[IGNORE] else "")
  {
    hide Sorted, HasEntry, SomeUnder, HasPrefix;
    hasMarker, hasTemplates, hasStorage, hasRelations, hasEntry, ignore := false, false, false, false, false, "";
    var paths := Sorted(t.Keys);
    SortedMembers(t.Keys);
    assert paths[..0] == [];
    UnderStep([], "", "templates/");
    UnderStep([], "", "storage/");
    UnderStep([], "", "relations/");
    for i := 0 to |paths|
      invariant hasMarker <==> MARKER in paths[..i] && kit.valid(t[MARKER])
      invariant hasTemplates <==> SomeUnder(paths[..i], "templates/")
      invariant hasStorage <==> SomeUnder(paths[..i], "storage/")
      invariant hasRelations <==> SomeUnder(paths[..i], "relations/")
      invariant hasEntry <==> IGNORE in paths[..i] && HasEntry(t[IGNORE], LEDGER)
      invariant ignore == if IGNORE in paths[..i] then t[IGNORE] else ""
    {
      PrefixStep(paths, i);
      var p := paths[i];
      assert p in t.Keys;
      OnePlace(p);
      UnderStep(paths[..i], p, "templates/");
      UnderStep(paths[..i], p, "storage/");
      UnderStep(paths[..i], p, "relations/");
      if p == MARKER {
        hasMarker := hasMarker || kit.valid(t[MARKER]);
      } else if p == IGNORE {
        ignore := t[IGNORE];
        hasEntry := GitignoreHasEntry(ignore, LEDGER);
      } else if HasPrefix(p, "templates/") {
        hasTemplates := true;
      } else if HasPrefix(p, "storage/") {
        hasStorage := true;
      } else if HasPrefix(p, "relations/") {
        hasRelations := true;
      }
    }
    PrefixAll(paths);
    UnderSorted(t, paths, "templates/");
    UnderSorted(t, paths, "storage/");
    UnderSorted(t, paths, "relations/");
  }

  ghost predicate SomeUnder(paths: seq<Path>, prefix: string) {
    exists j :: 0 <= j < |paths| && HasPrefix(paths[j], prefix)
  }

  lemma UnderStep(paths: seq<Path>, p: Path, prefix: string)
    ensures SomeUnder(paths + [p], prefix) <==> SomeUnder(paths, prefix) || HasPrefix(p, prefix)
    ensures !SomeUnder([], prefix)
  {
    hide HasPrefix;
    if SomeUnder(paths, prefix) {
      var j :| 0 <= j < |paths| && HasPrefix(paths[j], prefix);
      assert HasPrefix((paths + [p])[j], prefix);
    }
    assert (paths + [p])[|paths|] == p;
  }

  /** The places do not overlap. */
  lemma OnePlace(p: Path)
    ensures HasPrefix(p, "templates/") ==> p != MARKER && p != IGNORE && !HasPrefix(p, "storage/") && !HasPrefix(p, "relations/")
    ensures HasPrefix(p, "storage/") ==> p != MARKER && p != IGNORE && !HasPrefix(p, "relations/")
    ensures HasPrefix(p, "relations/") ==> p != MARKER && p != IGNORE
  {
    if HasPrefix(p, "templates/") { assert p[0] == p[..10][0] == 't'; }
    if HasPrefix(p, "storage/") { assert p[0] == p[..8][0] == 's'; }
    if HasPrefix(p, "relations/") { assert p[0] == p[..10][0] == 'r'; }
  }

  lemma UnderSorted(t: Tree, paths: seq<Path>, prefix: string)
    requires forall p :: p in paths <==> p in t
    ensures HasUnder(t, prefix) <==> SomeUnder(paths, prefix)
  {
    hide HasPrefix;
    if HasUnder(t, prefix) {
      var p :| p in t && HasPrefix(p, prefix);
      assert p in paths;
    }
    if SomeUnder(paths, prefix) {
      var j :| 0 <= j < |paths| && HasPrefix(paths[j], prefix);
      assert paths[j] in t;
    }
  }

  lemma JoinPiece(cs: seq<Change>, missing: bool, path: Path, content: Option<Blob>)
    ensures Joined(Some(cs), Piece(missing, path, content))
            == if !missing then Some(cs) else match content case Some(c) => Some(cs + [Put(path, c)]) case None => None
    ensures cs == [] ==> Joined(Some(cs), Piece(missing, path, content)) == Piece(missing, path, content)
  {
    assert cs + [] == cs;
    if cs == [] && content.Some? { assert cs + [Put(path, content.value)] == [Put(path, content.value)]; }
  }

  /** The second half: the pieces that are missing, in order. */
  method PlanShape(kit: Kit, t: Tree) returns (r: Option<seq<Change>>)
    ensures r == ShapeChanges(kit, t)
  {
    hide HasMarker, HasUnder, HasIgnore, Appended, ByPath;
    var hasMarker, hasTemplates, hasStorage, hasRelations, hasEntry, ignore := Survey(kit, t);
    if kit.files.None? { return None; }
    var starter := ByPath(kit.files.value);
    var changes: seq<Change> := [];
    if !hasMarker {
      if kit.marker.None? { return None; }
      changes := changes + [Put(MARKER, kit.marker.value)];
    }
    ghost var marker := Piece(!hasMarker, MARKER, kit.marker);
    JoinPiece([], !hasMarker, MARKER, kit.marker);
    assert marker == Some(changes);
    JoinPiece(changes, !hasTemplates, TEMPLATE, Get(starter, TEMPLATE));
    if !hasTemplates {
      if TEMPLATE !in starter { return None; }
      changes := changes + [Put(TEMPLATE, starter[TEMPLATE])];
    }
    ghost var template := Joined(marker, Piece(!hasTemplates, TEMPLATE, Get(starter, TEMPLATE)));
    assert template == Some(changes);
    JoinPiece(changes, !hasStorage, STORAGE, Get(starter, STORAGE));
    if !hasStorage {
      if STORAGE !in starter { return None; }
      changes := changes + [Put(STORAGE, starter[STORAGE])];
    }
    ghost var storage := Joined(template, Piece(!hasStorage, STORAGE, Get(starter, STORAGE)));
    assert storage == Some(changes);
    JoinPiece(changes, !hasRelations, RELATIONS, Get(starter, RELATIONS));
    if !hasRelations {
      if RELATIONS !in starter { return None; }
      changes := changes + [Put(RELATIONS, starter[RELATIONS])];
    }
    ghost var relations := Joined(storage, Piece(!hasRelations, RELATIONS, Get(starter, RELATIONS)));
    assert relations == Some(changes);
    JoinPiece(changes, !hasEntry, IGNORE, IgnoreBody(t, starter));
    if !hasEntry {
      var body;
      if |ignore| == 0 {
        if IGNORE !in starter { return None; }
        body := starter[IGNORE];
      } else {
        body := AppendGitignoreEntry(ignore, LEDGER);
      }
      changes := changes + [Put(IGNORE, body)];
    }
    return Some(changes);
  }

  // ------------------------------------------------------------ what one run brings

  /** The tree after the changes of one run. */
  function Reshaped(kit: Kit, t: Tree): Tree {
    match ShapeChanges(kit, t)
    case Some(cs) => AppliedAll(t, cs)
    case None => t
  }

  function PieceApplied(t: Tree, missing: bool, path: Path, content: Option<Blob>): Tree {
    if missing && content.Some? then t[path := content.value] else t
  }

  lemma AppliedPiece(t: Tree, cs: Option<seq<Change>>, missing: bool, path: Path, content: Option<Blob>)
    requires Joined(cs, Piece(missing, path, content)).Some?
    ensures cs.Some? && (missing ==> content.Some?)
    ensures AppliedAll(t, Joined(cs, Piece(missing, path, content)).value) == PieceApplied(AppliedAll(t, cs.value), missing, path, content)
  {
    var piece := Piece(missing, path, content).value;
    if missing {
      assert (cs.value + piece)[..|cs.value|] == cs.value;
    } else {
      assert cs.value + piece == cs.value;
    }
  }

  /** Path by path, what a run leaves. */
  lemma ReshapedAt(kit: Kit, t: Tree, p: Path)
    requires ShapeChanges(kit, t).Some?
    ensures var starter := ByPath(kit.files.value);
            Look(Reshaped(kit, t), p) ==
              if p == MARKER && !HasMarker(kit, t) then kit.marker
              else if p == TEMPLATE && !HasUnder(t, "templates/") then Get(starter, TEMPLATE)
              else if p == STORAGE && !HasUnder(t, "storage/") then Get(starter, STORAGE)
              else if p == RELATIONS && !HasUnder(t, "relations/") then Get(starter, RELATIONS)
              else if p == IGNORE && !HasIgnore(t) then IgnoreBody(t, starter)
              else Look(t, p)
  {
    hide HasMarker, HasUnder, HasIgnore, IgnoreBody, ByPath, AppliedAll, Piece, Joined;
    var starter := ByPath(kit.files.value);
    var cs1 := Piece(!HasMarker(kit, t), MARKER, kit.marker);
    var cs2 := Joined(cs1, Piece(!HasUnder(t, "templates/"), TEMPLATE, Get(starter, TEMPLATE)));
    var cs3 := Joined(cs2, Piece(!HasUnder(t, "storage/"), STORAGE, Get(starter, STORAGE)));
    var cs4 := Joined(cs3, Piece(!HasUnder(t, "relations/"), RELATIONS, Get(starter, RELATIONS)));
    AppliedPiece(t, cs4, !HasIgnore(t), IGNORE, IgnoreBody(t, starter));
    AppliedPiece(t, cs3, !HasUnder(t, "relations/"), RELATIONS, Get(starter, RELATIONS));
    AppliedPiece(t, cs2, !HasUnder(t, "storage/"), STORAGE, Get(starter, STORAGE));
    AppliedPiece(t, cs1, !HasUnder(t, "templates/"), TEMPLATE, Get(starter, TEMPLATE));
    FirstPiece(t, !HasMarker(kit, t), MARKER, kit.marker);
  }

  lemma FirstPiece(t: Tree, missing: bool, path: Path, content: Option<Blob>)
    requires Piece(missing, path, content).Some?
    ensures (missing ==> content.Some?) && AppliedAll(t, Piece(missing, path, content).value) == PieceApplied(t, missing, path, content)
  {
    JoinPiece([], missing, path, content);
    AppliedPiece(t, Some([]), missing, path, content);
  }

  lemma JoinedEmpty(a: Option<seq<Change>>, b: Option<seq<Change>>)
    ensures Joined(a, b) == Some([]) <==> a == Some([]) && b == Some([])
  {
    if a.Some? && b.Some? { assert |a.value + b.value| == |a.value| + |b.value|; }
  }

  /** Nothing is left to do exactly for a repository in shape. */
  lemma ShapedExactly(kit: Kit, t: Tree)
    requires kit.files.Some?
    ensures Shaped(kit, t) <==> ShapeChanges(kit, t) == Some([])
  {
    hide HasMarker, HasUnder, HasIgnore, IgnoreBody, ByPath, Joined;
    var starter := ByPath(kit.files.value);
    var cs1 := Piece(!HasMarker(kit, t), MARKER, kit.marker);
    var cs2 := Joined(cs1, Piece(!HasUnder(t, "templates/"), TEMPLATE, Get(starter, TEMPLATE)));
    var cs3 := Joined(cs2, Piece(!HasUnder(t, "storage/"), STORAGE, Get(starter, STORAGE)));
    var cs4 := Joined(cs3, Piece(!HasUnder(t, "relations/"), RELATIONS, Get(starter, RELATIONS)));
    JoinedEmpty(cs4, Piece(!HasIgnore(t), IGNORE, IgnoreBody(t, starter)));
    JoinedEmpty(cs3, Piece(!HasUnder(t, "relations/"), RELATIONS, Get(starter, RELATIONS)));
    JoinedEmpty(cs2, Piece(!HasUnder(t, "storage/"), STORAGE, Get(starter, STORAGE)));
    JoinedEmpty(cs1, Piece(!HasUnder(t, "templates/"), TEMPLATE, Get(starter, TEMPLATE)));
  }

  /** The default ignore file has to list the entry, or there is a file already to append it to. */
  predicate IgnoreHelps(kit: Kit, t: Tree)
    requires kit.files.Some?
  {
    var starter := ByPath(kit.files.value);
    HasIgnore(t) || (IGNORE in t && t[IGNORE] != "") || (IGNORE in starter && HasEntry(starter[IGNORE], LEDGER))
  }

  /**
   One run brings everything, exactly if the new marker is a valid one (or
   one was there) and the default ignore file lists the entry (or is not needed).
   */
  lemma OneRunShapes(kit: Kit, t: Tree)
    requires ShapeChanges(kit, t).Some?
    ensures Shaped(kit, Reshaped(kit, t))
            <==> (HasMarker(kit, t) || kit.valid(kit.marker.value)) && IgnoreHelps(kit, t)
  {
    hide ShapeChanges, Reshaped, HasEntry, ByPath, Appended, HasPrefix;
    PiecesGiven(kit, t);
    var t' := Reshaped(kit, t);
    ReshapedAt(kit, t, MARKER);
    ReshapedAt(kit, t, IGNORE);
    Filled(kit, t);
    LedgerSayable();
    if IGNORE in t { AppendedLists(t[IGNORE], LEDGER, LEDGER); }
  }

  lemma PiecesGiven(kit: Kit, t: Tree)
    requires ShapeChanges(kit, t).Some?
    ensures kit.files.Some?
    ensures var starter := ByPath(kit.files.value);
            && (!HasMarker(kit, t) ==> kit.marker.Some?)
            && (!HasUnder(t, "templates/") ==> TEMPLATE in starter)
            && (!HasUnder(t, "storage/") ==> STORAGE in starter)
            && (!HasUnder(t, "relations/") ==> RELATIONS in starter)
            && (!HasIgnore(t) ==> IgnoreBody(t, starter).Some?)
  {
    hide HasMarker, HasUnder, HasIgnore, IgnoreBody, ByPath;
  }

  /** After a run there is a file in each of the three places. */
  lemma Filled(kit: Kit, t: Tree)
    requires ShapeChanges(kit, t).Some?
    ensures var t' := Reshaped(kit, t); HasUnder(t', "templates/") && HasUnder(t', "storage/") && HasUnder(t', "relations/")
  {
    hide ShapeChanges, Reshaped, HasMarker, HasIgnore, IgnoreBody, ByPath, HasPrefix, HasUnder;
    FilledAt(kit, t, "templates/", TEMPLATE);
    FilledAt(kit, t, "storage/", STORAGE);
    FilledAt(kit, t, "relations/", RELATIONS);
  }

  lemma FilledAt(kit: Kit, t: Tree, prefix: string, start: Path)
    requires ShapeChanges(kit, t).Some?
    requires (prefix, start) in {("templates/", TEMPLATE), ("storage/", STORAGE), ("relations/", RELATIONS)}
    ensures HasUnder(Reshaped(kit, t), prefix)
  {
    hide ShapeChanges, Reshaped, HasMarker, HasIgnore, IgnoreBody, ByPath;
    PiecesGiven(kit, t);
    var t' := Reshaped(kit, t);
    if HasUnder(t, prefix) {
      var p :| p in t && HasPrefix(p, prefix);
      KeepsFiles(kit, t, p);
      assert p in t';
    } else {
      ReshapedAt(kit, t, start);
      assert start in t' && HasPrefix(start, prefix);
    }
  }

  /** A run removes nothing, and leaves every other file, and a valid marker, as it was. */
  lemma KeepsFiles(kit: Kit, t: Tree, p: Path)
    requires ShapeChanges(kit, t).Some? && p in t
    ensures p in Reshaped(kit, t)
    ensures p != IGNORE && (p != MARKER || HasMarker(kit, t)) ==> Reshaped(kit, t)[p] == t[p]
    ensures p == IGNORE ==> LinesOf(t[p]) <= LinesOf(Reshaped(kit, t)[p])
  {
    hide ShapeChanges, Reshaped, HasIgnore, ByPath, Appended, LinesOf;
    PiecesGiven(kit, t);
    ReshapedAt(kit, t, p);
    LedgerSayable();
    if p == IGNORE {
      EarlierLinesSurvive(t[p], LEDGER);
      NoLines();
    }
  }

  lemma NoLines()
    ensures LinesOf("") == []
  {
  }

  /** A second run writes nothing. */
  lemma SecondRunWritesNothing(kit: Kit, t: Tree)
    requires ShapeChanges(kit, t).Some?
    requires (HasMarker(kit, t) || kit.valid(kit.marker.value)) && IgnoreHelps(kit, t)
    ensures ShapeChanges(kit, Reshaped(kit, t)) == Some([])
  {
    hide ShapeChanges, Reshaped, HasMarker, HasIgnore, IgnoreHelps;
    PiecesGiven(kit, t);
    OneRunShapes(kit, t);
    ShapedExactly(kit, Reshaped(kit, t));
  }

  // ------------------------------------------------------------ on a repository

  datatype ShapeError = NoHead | StarterMissing | WriteFailed(error: WriteError)

  const WHO := Identity("GiGot Scaffolder", "scaffold@gigot.local", "GiGot Scaffolder", "scaffold@gigot.local")

  function PathsOf(cs: seq<Change>): seq<Path> { seq(|cs|, i requires 0 <= i < |cs| => cs[i].path) }

  /** Git accepts the five paths. */
  ghost predicate GoodPaths(okPath: Path -> bool) {
    okPath(MARKER) && okPath(TEMPLATE) && okPath(STORAGE) && okPath(RELATIONS) && okPath(IGNORE)
  }

  /** A write that went through: what it was built on, its own commit, and what the call returned. */
  datatype Landing = Landing(parent: Commit, client: Commit, result: WriteResult)

  /** The commit with `tree` became the head, or was merged into it. */
  ghost predicate Landed(l: Landing, tree: Tree, mark: string, head: Cas.Ref) {
    l.client == Commit(tree, [l.parent], mark) && head == Some(l.result.version) && ResultFits(l.result, l.parent, l.client)
  }

  /**
   `ensureFormidableShape`. A repository in shape is not written to; otherwise
   all missing pieces come in one commit, which undisturbed sits directly on
   the head found.
   */
  method EnsureFormidableShape(repo: Repository, ghost w: Cas.Wid, ghost alone: bool, driver: Driver, okPath: Path -> bool, kit: Kit, labels: Labels)
    returns (r: Result<seq<Path>, ShapeError>, ghost landed: Option<Landing>)
    requires repo.Valid() && w !in repo.State().writers
    modifies repo
    ensures repo.Valid() && repo.first == old(repo.first) && old(repo.past) <= repo.past
    ensures old(repo.head).None? ==> r == Err(NoHead) && repo.past == old(repo.past) && repo.head == old(repo.head)
    ensures old(repo.head).Some? && ShapeChanges(kit, old(repo.head).value.tree).None? ==>
              r == Err(StarterMissing) && repo.past == old(repo.past) && repo.head == old(repo.head)
    ensures old(repo.head).Some? && ShapeChanges(kit, old(repo.head).value.tree) == Some([]) ==>
              r == Ok([]) && repo.past == old(repo.past) && repo.head == old(repo.head)
    ensures old(repo.head).Some? && ShapeChanges(kit, old(repo.head).value.tree).Some?
            && ShapeChanges(kit, old(repo.head).value.tree) != Some([]) && alone && GoodPaths(okPath) ==>
              && r == Ok(PathsOf(ShapeChanges(kit, old(repo.head).value.tree).value))
              && repo.head == Some(Commit(Reshaped(kit, old(repo.head).value.tree), [old(repo.head).value], labels.client))
    // disturbed or not, what is reported as added has landed on the head that the commit found
    ensures r.Ok? && r.value != [] ==>
              && old(repo.head).Some? && ShapeChanges(kit, old(repo.head).value.tree).Some? && landed.Some?
              && r.value == PathsOf(ShapeChanges(kit, old(repo.head).value.tree).value)
              && Landed(landed.value, AppliedAll(landed.value.parent.tree, ShapeChanges(kit, old(repo.head).value.tree).value), labels.client, repo.head)
  {
    hide ShapeChanges, AppliedAll, Cas.Run, Outcome, ResultFits;
    if repo.head.None? { return Err(NoHead), None; }
    var head := repo.head.value;
    var plan := PlanShape(kit, head.tree);
    if plan.None? { return Err(StarterMissing), None; }
    if plan.value == [] { return Ok([]), None; }
    ChangesNamed(kit, head.tree, okPath);
    repo.Others(w, alone);
    var res, built := repo.CommitChanges(w, alone, driver, okPath, CommitOptions(HeadRev, plan.value, WHO), labels);
    if res.Err? { return Err(WriteFailed(res.error)), None; }
    return Ok(PathsOf(plan.value)), Some(Landing(built.value.parent, built.value.client, res.value));
  }

  lemma ChangesNamed(kit: Kit, t: Tree, okPath: Path -> bool)
    requires ShapeChanges(kit, t).Some?
    ensures var cs := ShapeChanges(kit, t).value;
            && (forall i :: 0 <= i < |cs| ==> cs[i].path in {MARKER, TEMPLATE, STORAGE, RELATIONS, IGNORE})
            && (GoodPaths(okPath) ==> PathsOk(okPath, cs))
  {
    hide HasMarker, HasUnder, HasIgnore, IgnoreBody, ByPath;
  }

  function FirstOf(files: seq<ScaffoldFile>, path: Path): Option<Blob> {
    if files == [] then None else if files[0].path == path then Some(files[0].content) else FirstOf(files[1..], path)
  }

  datatype Heal = Leave | Fail | Write(body: Blob)

  /** What the hook after a write does to the ignore file: nothing in a repository without a valid marker. */
  function Healing(kit: Kit, t: Tree): Heal {
    if !HasMarker(kit, t) || HasIgnore(t) then Leave
    else if IGNORE in t && t[IGNORE] != "" then Write(Appended(t[IGNORE], LEDGER))
    else if kit.files.None? then Fail
    else match FirstOf(kit.files.value, IGNORE) case Some(body) => Write(body) case None => Fail
  }

  lemma NoEntryInNothing()
    ensures !HasEntry("", LEDGER)
  {
    assert TrimSpace("") == "";
  }

  /** `ensureFormidableGitignore`: at most the ignore file is written, and nothing if there is nothing to mend. */
  method EnsureFormidableGitignore(repo: Repository, ghost w: Cas.Wid, ghost alone: bool, driver: Driver, okPath: Path -> bool, kit: Kit, labels: Labels)
    returns (r: Result<Option<Commit>, ShapeError>, ghost landed: Option<Landing>)
    requires repo.Valid() && w !in repo.State().writers
    modifies repo
    ensures repo.Valid() && repo.first == old(repo.first) && old(repo.past) <= repo.past
    ensures old(repo.head).None? ==> r == Err(NoHead) && repo.past == old(repo.past) && repo.head == old(repo.head)
    ensures old(repo.head).Some? ==>
              match Healing(kit, old(repo.head).value.tree)
              case Leave => r == Ok(None) && repo.past == old(repo.past) && repo.head == old(repo.head)
              case Fail => r == Err(StarterMissing) && repo.past == old(repo.past) && repo.head == old(repo.head)
              case Write(body) =>
                && (r.Ok? ==> r.value == repo.head && landed.Some?
                              && Landed(landed.value, landed.value.parent.tree[IGNORE := body], labels.client, repo.head))
                && (alone && okPath(IGNORE) ==>
                      && repo.head == Some(Commit(old(repo.head).value.tree[IGNORE := body], [old(repo.head).value], labels.client))
                      && r == Ok(repo.head))
  {
    hide HasEntry, Cas.Run, Outcome, ResultFits;
    if repo.head.None? { return Err(NoHead), None; }
    var t := repo.head.value.tree;
    if MARKER !in t { return Ok(None), None; }
    if !kit.valid(t[MARKER]) { return Ok(None), None; }
    var existing := if IGNORE in t then t[IGNORE] else "";
    NoEntryInNothing();
    var listed := GitignoreHasEntry(existing, LEDGER);
    if listed { return Ok(None), None; }
    var body;
    if |existing| == 0 {
      if kit.files.None? { return Err(StarterMissing), None; }
      var found := FirstOf(kit.files.value, IGNORE);
      if found.None? { return Err(StarterMissing), None; }
      body := found.value;
    } else {
      body := AppendGitignoreEntry(existing, LEDGER);
    }
    repo.Others(w, alone);
    var res, built := repo.WriteFile(w, alone, driver, okPath, WriteOptions(HeadRev, IGNORE, body, WHO), labels);
    if res.Err? { return Err(WriteFailed(res.error)), None; }
    return Ok(Some(res.value.version)), Some(Landing(built.value.parent, built.value.client, res.value));
  }

  /** Once healed, the ignore file lists the entry and keeps its lines, and the next hook leaves it alone. */
  lemma HealedStays(kit: Kit, t: Tree)
    requires Healing(kit, t).Write?
    requires (IGNORE in t && t[IGNORE] != "") || HasEntry(Healing(kit, t).body, LEDGER)
    ensures var t' := t[IGNORE := Healing(kit, t).body];
            && HasIgnore(t') && Healing(kit, t') == Leave
            && (IGNORE in t ==> LinesOf(t[IGNORE]) <= LinesOf(t'[IGNORE]))
  {
    hide HasEntry, Appended, LinesOf;
    LedgerSayable();
    NoLines();
    if IGNORE in t && t[IGNORE] != "" {
      AppendedLists(t[IGNORE], LEDGER, LEDGER);
      EarlierLinesSurvive(t[IGNORE], LEDGER);
    }
  }
}
