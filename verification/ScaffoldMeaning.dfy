/**
 What the scaffold looks for and what it leaves, in terms of paths, lines and
 starter files alone.
 */
module ScaffoldMeaning {
  import opened Base
  import opened Dag
  import opened Decide
  import opened Index
  import opened Scaffold
  import opened Strings

  // ------------------------------------------------------------ lines

  /** `line` stands in `body` between two line ends, or an end and an edge. */
  ghost predicate LineOf(body: string, line: string) { exists a, b :: Between(body, a, line, b) }

  ghost predicate Between(body: string, a: string, line: string, b: string) {
    body == a + (line + b) && '\n' !in line && (a == "" || a[|a| - 1] == '\n') && (b == "" || b[0] == '\n')
  }

  lemma {:induction false} FirstBreak(body: string) returns (n: nat)
    requires '\n' in body
    ensures n < |body| && body[n] == '\n' && '\n' !in body[..n]
  {
    n := 0;
    if body[0] != '\n' {
      var m := FirstBreak(body[1..]);
      n := m + 1;
      assert body[..n] == [body[0]] + body[1..][..m];
    }
  }

  lemma {:induction false} PieceIsLine(body: string, line: string)
    requires line in Split(body, '\n')
    ensures LineOf(body, line)
    decreases |body|
  {
    hide Split;
    if '\n' !in body {
      SplitPlain(body, '\n');
      assert Between(body, "", line, "");
    } else {
      var n := FirstBreak(body);
      var first, rest := body[..n], body[n + 1..];
      assert body == first + ['\n'] + rest;
      SplitJoin(first, rest, '\n');
      SplitPlain(first, '\n');
      if line == first {
        assert Between(body, "", line, ['\n'] + rest);
      } else {
        PieceIsLine(rest, line);
        var a, b :| Between(rest, a, line, b);
        Behind(first, rest, a, line, b);
      }
    }
  }

  lemma Behind(first: string, rest: string, a: string, line: string, b: string)
    requires Between(rest, a, line, b)
    ensures Between(first + ['\n'] + rest, first + (['\n'] + a), line, b)
  {
  }

  lemma LineIsPiece(body: string, line: string)
    requires LineOf(body, line)
    ensures line in Split(body, '\n')
  {
    hide Split;
    var a, b :| Between(body, a, line, b);
    SplitPlain(line, '\n');
    if b == "" {
      assert line + b == line;
    } else {
      assert line + b == line + ['\n'] + b[1..];
      SplitJoin(line, b[1..], '\n');
    }
    assert Split(line + b, '\n')[0] == line;
    if a == "" {
      assert body == line + b;
    } else {
      assert body == a[..|a| - 1] + ['\n'] + (line + b);
      SplitJoin(a[..|a| - 1], line + b, '\n');
      assert line in Split(line + b, '\n');
    }
  }

  /** A line of the file says `entry`: with space around it at most, and not as a comment. */
  ghost predicate SaysEntry(body: string, entry: string) {
    entry != "" && entry[0] != '#' && exists line :: LineOf(body, line) && Trimmed(line, entry)
  }

  lemma EntryMeaning(body: string, entry: string)
    ensures HasEntry(body, entry) <==> SaysEntry(body, entry)
  {
    hide TrimSpace, Trimmed, LineOf;
    var pieces := Split(body, '\n');
    forall line ensures Trimmed(line, entry) <==> TrimSpace(line) == entry { TrimMeaning(line, entry); }
    forall line ensures LineOf(body, line) <==> line in pieces {
      if LineOf(body, line) { LineIsPiece(body, line); }
      if line in pieces { PieceIsLine(body, line); }
    }
    assert entry != "" ==> entry[..1] == [entry[0]];
    if SaysEntry(body, entry) {
      var line :| LineOf(body, line) && Trimmed(line, entry);
      var i :| 0 <= i < |pieces| && pieces[i] == line;
      assert Lists(pieces[i], entry);
    }
    if SomeLists(pieces, entry) {
      var i :| 0 <= i < |pieces| && Lists(pieces[i], entry);
      assert LineOf(body, pieces[i]);
    }
  }

  // ------------------------------------------------------------ the pieces

  ghost predicate MarkerThere(kit: Kit, t: Tree) {
    ".formidable/context.json" in t && kit.valid(t[".formidable/context.json"])
  }

  ghost predicate Under(t: Tree, dir: string) {
    exists p :: p in t && |dir| <= |p| && p[..|dir|] == dir
  }

  ghost predicate IgnoreThere(t: Tree) {
    ".gitignore" in t && SaysEntry(t[".gitignore"], ".formidable/sync.json")
  }

  /** Of the starter files with this path the last counts. */
  ghost predicate LastStarter(kit: Kit, path: Path, content: Blob) {
    kit.files.Some?
    && exists i :: 0 <= i < |kit.files.value| && kit.files.value[i] == ScaffoldFile(path, content)
         && forall j :: i < j < |kit.files.value| ==> kit.files.value[j].path != path
  }

  /** For the ignore file of the hook it is the first. */
  ghost predicate FirstStarter(kit: Kit, path: Path, content: Blob) {
    kit.files.Some?
    && exists i :: 0 <= i < |kit.files.value| && kit.files.value[i] == ScaffoldFile(path, content)
         && forall j :: 0 <= j < i ==> kit.files.value[j].path != path
  }

  lemma {:induction false} ByPathMeaning(files: seq<ScaffoldFile>, path: Path)
    ensures path in ByPath(files) ==> exists i :: 0 <= i < |files| && files[i] == ScaffoldFile(path, ByPath(files)[path])
                                        && forall j :: i < j < |files| ==> files[j].path != path
    ensures path !in ByPath(files) ==> forall i :: 0 <= i < |files| ==> files[i].path != path
    decreases |files|
  {
    if files != [] {
      var k := |files| - 1;
      ByPathMeaning(files[..k], path);
      if files[k].path == path { assert files[k] == ScaffoldFile(path, ByPath(files)[path]); }
    }
  }

  lemma StarterMeaning(kit: Kit, path: Path, content: Blob)
    requires kit.files.Some?
    ensures Get(ByPath(kit.files.value), path) == Some(content) <==> LastStarter(kit, path, content)
  {
    hide ByPath;
    ByPathMeaning(kit.files.value, path);
  }

  lemma {:induction false} FirstOfMeaning(files: seq<ScaffoldFile>, path: Path)
    ensures FirstOf(files, path).Some? ==> exists i :: 0 <= i < |files| && files[i] == ScaffoldFile(path, FirstOf(files, path).value)
                                             && forall j :: 0 <= j < i ==> files[j].path != path
    ensures FirstOf(files, path).None? ==> forall i :: 0 <= i < |files| ==> files[i].path != path
  {
    if files != [] {
      FirstOfMeaning(files[1..], path);
      if files[0].path == path {
        assert files[0] == ScaffoldFile(path, FirstOf(files, path).value);
      } else if FirstOf(files, path).Some? {
        var i :| 0 <= i < |files[1..]| && files[1..][i] == ScaffoldFile(path, FirstOf(files, path).value)
                 && forall j :: 0 <= j < i ==> files[1..][j].path != path;
        assert files[i + 1] == ScaffoldFile(path, FirstOf(files, path).value);
        forall j | 0 <= j < i + 1 ensures files[j].path != path { if j > 0 { assert files[j] == files[1..][j - 1]; } }
      }
    }
  }

  lemma HookStarterMeaning(kit: Kit, path: Path, content: Blob)
    requires kit.files.Some?
    ensures FirstOf(kit.files.value, path) == Some(content) <==> FirstStarter(kit, path, content)
  {
    hide FirstOf;
    FirstOfMeaning(kit.files.value, path);
  }

  lemma PieceMeaning(kit: Kit, t: Tree)
    ensures HasMarker(kit, t) <==> MarkerThere(kit, t)
    ensures forall dir :: HasUnder(t, dir) <==> Under(t, dir)
    ensures HasIgnore(t) <==> IgnoreThere(t)
  {
    if IGNORE in t { EntryMeaning(t[IGNORE], LEDGER); }
    forall dir ensures HasUnder(t, dir) <==> Under(t, dir) {
      if HasUnder(t, dir) { var p :| p in t && HasPrefix(p, dir); }
      if Under(t, dir) { var p :| p in t && |dir| <= |p| && p[..|dir|] == dir; assert HasPrefix(p, dir); }
    }
  }

  /** The entry on a line of its own behind what is there. */
  ghost predicate Mends(body: Blob, mended: Blob) {
    || (exists front :: body == front + "\n" && mended == body + ".formidable/sync.json\n")
    || (body != "" && body[|body| - 1] != '\n' && mended == body + "\n.formidable/sync.json\n")
  }

  lemma AppendedMeaning(body: Blob, mended: Blob)
    requires body != ""
    ensures mended == Appended(body, LEDGER) <==> Mends(body, mended)
  {
    if body[|body| - 1] == '\n' {
      assert body == body[..|body| - 1] + "\n";
      assert Appended(body, LEDGER) == body + ".formidable/sync.json\n";
    } else {
      assert Appended(body, LEDGER) == body + "\n.formidable/sync.json\n";
    }
    if front :| body == front + "\n" { assert body[|body| - 1] == '\n'; }
  }

  /** What is put for an ignore file that does not say the entry. */
  ghost predicate NewIgnore(kit: Kit, t: Tree, content: Blob) {
    if ".gitignore" in t && t[".gitignore"] != "" then Mends(t[".gitignore"], content)
    else LastStarter(kit, ".gitignore", content)
  }

  /** The pieces a run puts, with their contents; a piece that is there is not put. */
  ghost predicate Puts(kit: Kit, t: Tree, p: Path, content: Blob) {
    || (p == ".formidable/context.json" && !MarkerThere(kit, t) && kit.marker == Some(content))
    || (p == "templates/basic.yaml" && !Under(t, "templates/") && LastStarter(kit, p, content))
    || (p == "storage/.gitkeep" && !Under(t, "storage/") && LastStarter(kit, p, content))
    || (p == "relations/.gitkeep" && !Under(t, "relations/") && LastStarter(kit, p, content))
    || (p == ".gitignore" && !IgnoreThere(t) && NewIgnore(kit, t, content))
  }

  /** The paths a run needs a content for, in the order in which they are reported. */
  ghost function Needed(kit: Kit, t: Tree): seq<Path> {
    (if MarkerThere(kit, t) then [] else [".formidable/context.json"])
    + (if Under(t, "templates/") then [] else ["templates/basic.yaml"])
    + (if Under(t, "storage/") then [] else ["storage/.gitkeep"])
    + (if Under(t, "relations/") then [] else ["relations/.gitkeep"])
    + (if IgnoreThere(t) then [] else [".gitignore"])
  }

  lemma IgnoreMeaning(kit: Kit, t: Tree, content: Blob)
    requires kit.files.Some?
    ensures IgnoreBody(t, ByPath(kit.files.value)) == Some(content) <==> NewIgnore(kit, t, content)
  {
    hide ByPath, Appended, LastStarter, Mends;
    StarterMeaning(kit, ".gitignore", content);
    if IGNORE in t && t[IGNORE] != "" { AppendedMeaning(t[IGNORE], content); }
  }

  /** For every needed path there is something to put. */
  ghost predicate AllThere(kit: Kit, t: Tree) {
    && (MarkerThere(kit, t) || kit.marker.Some?)
    && (Under(t, "templates/") || exists c :: LastStarter(kit, "templates/basic.yaml", c))
    && (Under(t, "storage/") || exists c :: LastStarter(kit, "storage/.gitkeep", c))
    && (Under(t, "relations/") || exists c :: LastStarter(kit, "relations/.gitkeep", c))
    && (IgnoreThere(t) || exists c :: NewIgnore(kit, t, c))
  }

  lemma PieceAt(missing: bool, path: Path, content: Option<Blob>)
    ensures Piece(missing, path, content).Some? <==> (missing ==> content.Some?)
    ensures Piece(missing, path, content).Some? ==> Piece(missing, path, content).value == if missing then [Put(path, content.value)] else []
  {
  }

  lemma PlanParts(kit: Kit, t: Tree)
    ensures kit.files.None? ==> ShapeChanges(kit, t).None?
    ensures kit.files.Some? ==>
              var m := Piece(!HasMarker(kit, t), MARKER, kit.marker);
              var a := Piece(!HasUnder(t, "templates/"), TEMPLATE, Get(ByPath(kit.files.value), TEMPLATE));
              var b := Piece(!HasUnder(t, "storage/"), STORAGE, Get(ByPath(kit.files.value), STORAGE));
              var c := Piece(!HasUnder(t, "relations/"), RELATIONS, Get(ByPath(kit.files.value), RELATIONS));
              var g := Piece(!HasIgnore(t), IGNORE, IgnoreBody(t, ByPath(kit.files.value)));
              && (ShapeChanges(kit, t).Some? <==> m.Some? && a.Some? && b.Some? && c.Some? && g.Some?)
              && (ShapeChanges(kit, t).Some? ==> ShapeChanges(kit, t).value == m.value + a.value + b.value + c.value + g.value)
  {
    hide HasMarker, HasUnder, HasIgnore, IgnoreBody, ByPath, Piece;
  }

  /** Without starter files, or if a needed piece has none, nothing is planned. */
  lemma PlanExactly(kit: Kit, t: Tree)
    ensures ShapeChanges(kit, t).Some? <==> kit.files.Some? && AllThere(kit, t)
  {
    hide HasMarker, HasUnder, HasIgnore, IgnoreBody, ByPath, MarkerThere, Under, IgnoreThere, LastStarter, NewIgnore, Piece, ShapeChanges;
    PieceMeaning(kit, t);
    PlanParts(kit, t);
    if kit.files.Some? {
      var starter := ByPath(kit.files.value);
      forall p, content ensures Get(starter, p) == Some(content) <==> LastStarter(kit, p, content) { StarterMeaning(kit, p, content); }
      forall content ensures IgnoreBody(t, starter) == Some(content) <==> NewIgnore(kit, t, content) { IgnoreMeaning(kit, t, content); }
      PieceAt(!HasMarker(kit, t), MARKER, kit.marker);
      PieceAt(!HasUnder(t, "templates/"), TEMPLATE, Get(starter, TEMPLATE));
      PieceAt(!HasUnder(t, "storage/"), STORAGE, Get(starter, STORAGE));
      PieceAt(!HasUnder(t, "relations/"), RELATIONS, Get(starter, RELATIONS));
      PieceAt(!HasIgnore(t), IGNORE, IgnoreBody(t, starter));
    }
  }

  /** The changes put a content at each of the paths, in their order. */
  ghost predicate PutsAll(kit: Kit, t: Tree, cs: seq<Change>, paths: seq<Path>) {
    |cs| == |paths| && forall i :: 0 <= i < |cs| ==> cs[i].Put? && cs[i].path == paths[i] && Puts(kit, t, cs[i].path, cs[i].content)
  }

  lemma PutsBoth(kit: Kit, t: Tree, cs: seq<Change>, paths: seq<Path>, ds: seq<Change>, more: seq<Path>)
    requires PutsAll(kit, t, cs, paths) && PutsAll(kit, t, ds, more)
    ensures PutsAll(kit, t, cs + ds, paths + more)
  {
    hide Puts;
  }

  lemma PutsPiece(kit: Kit, t: Tree, missing: bool, path: Path, content: Option<Blob>)
    requires Piece(missing, path, content).Some? && (missing && content.Some? ==> Puts(kit, t, path, content.value))
    ensures PutsAll(kit, t, Piece(missing, path, content).value, if missing then [path] else [])
  {
    hide Puts;
  }

  /** The needed pieces are put, in order. */
  lemma PlanMeaning(kit: Kit, t: Tree)
    requires ShapeChanges(kit, t).Some?
    ensures PutsAll(kit, t, ShapeChanges(kit, t).value, Needed(kit, t))
  {
    hide HasMarker, HasUnder, HasIgnore, IgnoreBody, ByPath, MarkerThere, Under, IgnoreThere, LastStarter, NewIgnore, Piece, ShapeChanges, PutsAll;
    PieceMeaning(kit, t);
    PlanParts(kit, t);
    var starter := ByPath(kit.files.value);
    forall p, content ensures Get(starter, p) == Some(content) <==> LastStarter(kit, p, content) { StarterMeaning(kit, p, content); }
    forall content ensures IgnoreBody(t, starter) == Some(content) <==> NewIgnore(kit, t, content) { IgnoreMeaning(kit, t, content); }
    PutsPiece(kit, t, !HasMarker(kit, t), MARKER, kit.marker);
    PutsPiece(kit, t, !HasUnder(t, "templates/"), TEMPLATE, Get(starter, TEMPLATE));
    PutsPiece(kit, t, !HasUnder(t, "storage/"), STORAGE, Get(starter, STORAGE));
    PutsPiece(kit, t, !HasUnder(t, "relations/"), RELATIONS, Get(starter, RELATIONS));
    PutsPiece(kit, t, !HasIgnore(t), IGNORE, IgnoreBody(t, starter));
    hide Puts;
    var m := Piece(!HasMarker(kit, t), MARKER, kit.marker).value;
    var a := Piece(!HasUnder(t, "templates/"), TEMPLATE, Get(starter, TEMPLATE)).value;
    var b := Piece(!HasUnder(t, "storage/"), STORAGE, Get(starter, STORAGE)).value;
    var c := Piece(!HasUnder(t, "relations/"), RELATIONS, Get(starter, RELATIONS)).value;
    var m' := if MarkerThere(kit, t) then [] else [".formidable/context.json"];
    var a' := if Under(t, "templates/") then [] else ["templates/basic.yaml"];
    var b' := if Under(t, "storage/") then [] else ["storage/.gitkeep"];
    var c' := if Under(t, "relations/") then [] else ["relations/.gitkeep"];
    PutsBoth(kit, t, m, m', a, a');
    PutsBoth(kit, t, m + a, m' + a', b, b');
    PutsBoth(kit, t, m + a + b, m' + a' + b', c, c');
    PutsBoth(kit, t, m + a + b + c, m' + a' + b' + c', Piece(!HasIgnore(t), IGNORE, IgnoreBody(t, starter)).value, if IgnoreThere(t) then [] else [".gitignore"]);
  }

  /** Path by path: a run puts what it needs and leaves everything else. */
  lemma RunMeaning(kit: Kit, t: Tree, p: Path, content: Blob)
    requires ShapeChanges(kit, t).Some?
    ensures Look(Reshaped(kit, t), p) == Some(content)
       <==> Puts(kit, t, p, content) || (p !in Needed(kit, t) && p in t && t[p] == content)
  {
    hide HasMarker, HasUnder, HasIgnore, IgnoreBody, ByPath, MarkerThere, Under, IgnoreThere, LastStarter, NewIgnore, ShapeChanges, Reshaped;
    PieceMeaning(kit, t);
    PiecesGiven(kit, t);
    ReshapedAt(kit, t, p);
    StarterMeaning(kit, p, content);
    IgnoreMeaning(kit, t, content);
  }

  /**
   The hook: nothing without a valid marker or with the entry said; an ignore
   file with something in it is mended, a missing or empty one replaced by the
   first starter, and without one the hook fails.
   */
  lemma HookMeaning(kit: Kit, t: Tree)
    ensures !MarkerThere(kit, t) || IgnoreThere(t) <==> Healing(kit, t) == Leave
    ensures MarkerThere(kit, t) && !IgnoreThere(t) ==>
              && (forall body :: Healing(kit, t) == Write(body)
                    <==> if ".gitignore" in t && t[".gitignore"] != "" then Mends(t[".gitignore"], body) else FirstStarter(kit, ".gitignore", body))
              && (Healing(kit, t) == Fail <==> (".gitignore" !in t || t[".gitignore"] == "") && forall body :: !FirstStarter(kit, ".gitignore", body))
  {
    hide HasMarker, HasIgnore, MarkerThere, IgnoreThere, Mends, Appended, FirstOf, FirstStarter;
    PieceMeaning(kit, t);
    if IGNORE in t && t[IGNORE] != "" {
      forall body ensures body == Appended(t[IGNORE], LEDGER) <==> Mends(t[IGNORE], body) { AppendedMeaning(t[IGNORE], body); }
    } else {
      NoFiles(kit);
      if kit.files.Some? {
        forall body ensures FirstOf(kit.files.value, IGNORE) == Some(body) <==> FirstStarter(kit, IGNORE, body) { HookStarterMeaning(kit, IGNORE, body); }
      }
    }
  }

  lemma NoFiles(kit: Kit)
    ensures kit.files.None? ==> forall path, body :: !FirstStarter(kit, path, body)
  {
  }
}
