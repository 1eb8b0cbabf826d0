/**
 Differences between two maps: the change lists a client keeps its ledger by
 (internal/git/changes.go) and the ref movements of a push (refs.go).
 */
module Changes {
  import opened Base
  import opened Strings

  // ------------------------------------------------------------ differences of maps

  type Map = map<string, string>

  function Find(m: Map, k: string): Option<string> { Get<string, string>(m, k) }

  /** One key whose value differs, with its value on each side. */
  datatype Delta = Delta(key: string, before: Option<string>, after: Option<string>)

  function DeltaAt(a: Map, b: Map, k: string): seq<Delta> {
    if Find(a, k) != Find(b, k) then [Delta(k, Find(a, k), Find(b, k))] else []
  }

  function DiffIn(a: Map, b: Map, ks: seq<string>): seq<Delta> {
    if ks == [] then [] else DiffIn(a, b, ks[..|ks| - 1]) + DeltaAt(a, b, ks[|ks| - 1])
  }

  /** Every difference, in key order. */
  function Diff(a: Map, b: Map): seq<Delta> {
    DiffIn(a, b, Sorted(a.Keys + b.Keys))
  }

  function Apply(m: Map, d: Delta): Map {
    match d.after
    case Some(x) => m[d.key := x]
    case None => m - {d.key}
  }

  function Replay(m: Map, ds: seq<Delta>): Map {
    if ds == [] then m else Apply(Replay(m, ds[..|ds| - 1]), ds[|ds| - 1])
  }

  lemma {:induction false} ReplayJoin(m: Map, ds: seq<Delta>, es: seq<Delta>)
    ensures Replay(m, ds + es) == Replay(Replay(m, ds), es)
    decreases |es|
  {
    if es == [] {
      assert ds + es == ds;
    } else {
      assert (ds + es)[..|ds + es| - 1] == ds + es[..|es| - 1];
      ReplayJoin(m, ds, es[..|es| - 1]);
    }
  }

  lemma {:induction false} DiffInMember(a: Map, b: Map, ks: seq<string>, d: Delta)
    ensures d in DiffIn(a, b, ks)
       <==> d.key in ks && Find(a, d.key) != Find(b, d.key) && d.before == Find(a, d.key) && d.after == Find(b, d.key)
    decreases |ks|
  {
    if ks != [] {
      DiffInMember(a, b, ks[..|ks| - 1], d);
      assert ks == ks[..|ks| - 1] + [ks[|ks| - 1]];
    }
  }

  /** A key is listed exactly when its value differs, with its two values. */
  lemma DiffExact(a: Map, b: Map, d: Delta)
    ensures d in Diff(a, b)
       <==> Find(a, d.key) != Find(b, d.key) && d.before == Find(a, d.key) && d.after == Find(b, d.key)
  {
    SortedMembers(a.Keys + b.Keys);
    DiffInMember(a, b, Sorted(a.Keys + b.Keys), d);
  }

  ghost predicate KeysIncrease(ds: seq<Delta>) {
    forall i, j :: 0 <= i < j < |ds| ==> Less(ds[i].key, ds[j].key)
  }

  lemma {:induction false} DiffInIncreases(a: Map, b: Map, ks: seq<string>)
    requires StrictlySorted(ks)
    ensures KeysIncrease(DiffIn(a, b, ks))
    decreases |ks|
  {
    hide Find;
    if ks != [] {
      var front, k := ks[..|ks| - 1], ks[|ks| - 1];
      DiffInIncreases(a, b, front);
      var ds := DiffIn(a, b, front);
      forall i | 0 <= i < |ds| ensures Less(ds[i].key, k) {
        assert ds[i] in ds;
        DiffInMember(a, b, front, ds[i]);
      }
    }
  }

  /** The listed keys are strictly increasing. */
  lemma DiffIncreases(a: Map, b: Map)
    ensures KeysIncrease(Diff(a, b))
  {
    SortedStrict(a.Keys + b.Keys);
    DiffInIncreases(a, b, Sorted(a.Keys + b.Keys));
  }

  lemma ReplaySnoc(m: Map, ds: seq<Delta>, d: Delta, k: string)
    ensures Find(Replay(m, ds + [d]), k) == if k == d.key then d.after else Find(Replay(m, ds), k)
  {
    assert (ds + [d])[..|ds|] == ds;
  }

  lemma {:induction false} ReplayAt(m: Map, a: Map, b: Map, ks: seq<string>, k: string)
    ensures Find(Replay(m, DiffIn(a, b, ks)), k)
            == if k in ks && Find(a, k) != Find(b, k) then Find(b, k) else Find(m, k)
    decreases |ks|
  {
    hide Find, Replay;
    if ks == [] {
      assert Replay(m, []) == m by { ReplayNone(m); }
    } else {
      var front, last := ks[..|ks| - 1], ks[|ks| - 1];
      ReplayAt(m, a, b, front, k);
      assert ks == front + [last];
      var ds := DiffIn(a, b, front);
      assert ds + [] == ds;
      ReplaySnoc(m, ds, Delta(last, Find(a, last), Find(b, last)), k);
    }
  }

  lemma ReplayNone(m: Map)
    ensures Replay(m, []) == m
  {
  }

  lemma SameMap(m: Map, n: Map)
    requires forall k :: Find(m, k) == Find(n, k)
    ensures m == n
  {
    forall k ensures k in m <==> k in n { assert Find(m, k) == Find(n, k); }
    forall k | k in m ensures m[k] == n[k] { assert Find(m, k) == Find(n, k); }
  }

  /** Replaying the differences on the old map yields the new one. */
  lemma ReplayDiff(a: Map, b: Map)
    ensures Replay(a, Diff(a, b)) == b
  {
    var ks := Sorted(a.Keys + b.Keys);
    SortedMembers(a.Keys + b.Keys);
    forall k ensures Find(Replay(a, Diff(a, b)), k) == Find(b, k) { ReplayAt(a, a, b, ks, k); }
    SameMap(Replay(a, Diff(a, b)), b);
  }

  lemma {:induction false} DiffInSelf(a: Map, ks: seq<string>)
    ensures DiffIn(a, a, ks) == []
    decreases |ks|
  {
    if ks != [] { DiffInSelf(a, ks[..|ks| - 1]); }
  }

  /** The list is empty exactly when nothing differs. */
  lemma DiffEmpty(a: Map, b: Map)
    ensures Diff(a, b) == [] <==> a == b
  {
    ReplayDiff(a, b);
    DiffInSelf(a, Sorted(a.Keys + a.Keys));
  }

  // ------------------------------------------------------------ change entries

  datatype ChangeOp = Added | Modified | Deleted

  /** `blob` is the new blob, or the old one of a deleted path. */
  datatype ChangeEntry = ChangeEntry(path: string, op: ChangeOp, blob: string)

  function EntryOf(d: Delta): ChangeEntry {
    match (d.before, d.after)
    case (None, Some(x)) => ChangeEntry(d.key, Added, x)
    case (Some(_), Some(x)) => ChangeEntry(d.key, Modified, x)
    case (Some(x), None) => ChangeEntry(d.key, Deleted, x)
    case (None, None) => ChangeEntry(d.key, Deleted, "")
  }

  function EntriesOf(ds: seq<Delta>): seq<ChangeEntry> {
    seq(|ds|, i requires 0 <= i < |ds| => EntryOf(ds[i]))
  }

  /** The change list from one tree to another, as `diff-tree` reports it. */
  function TreeChanges(a: Map, b: Map): seq<ChangeEntry> {
    EntriesOf(Diff(a, b))
  }

  /** A client's ledger of path to blob after one change list. */
  function Ledger(m: Map, es: seq<ChangeEntry>): Map {
    if es == [] then m
    else
      var m', e := Ledger(m, es[..|es| - 1]), es[|es| - 1];
      if e.op == Deleted then m' - {e.path} else m'[e.path := e.blob]
  }

  lemma {:induction false} LedgerReplays(m: Map, ds: seq<Delta>)
    ensures Ledger(m, EntriesOf(ds)) == Replay(m, ds)
    decreases |ds|
  {
    if ds != [] {
      assert EntriesOf(ds)[..|ds| - 1] == EntriesOf(ds[..|ds| - 1]);
      LedgerReplays(m, ds[..|ds| - 1]);
    }
  }

  /** The ledger at the old tree, updated by the change list, is the new tree; nothing listed means nothing changed. */
  lemma LedgerFollows(a: Map, b: Map)
    ensures Ledger(a, TreeChanges(a, b)) == b
    ensures TreeChanges(a, b) == [] <==> a == b
  {
    LedgerReplays(a, Diff(a, b));
    ReplayDiff(a, b);
    DiffEmpty(a, b);
  }

  /** A path is listed exactly if the trees differ on it: as added, modified or deleted, with its new blob, or its old one if it is gone. */
  lemma ChangeListMeaning(a: Map, b: Map, e: ChangeEntry)
    ensures e in TreeChanges(a, b) <==>
      || (e.path !in a && e.path in b && e.op == Added && e.blob == b[e.path])
      || (e.path in a && e.path in b && a[e.path] != b[e.path] && e.op == Modified && e.blob == b[e.path])
      || (e.path in a && e.path !in b && e.op == Deleted && e.blob == a[e.path])
  {
    hide Diff;
    var d := Delta(e.path, Find(a, e.path), Find(b, e.path));
    DiffExact(a, b, d);
    var ds := Diff(a, b);
    if e in TreeChanges(a, b) {
      var i :| 0 <= i < |ds| && EntryOf(ds[i]) == e;
      assert ds[i] in ds;
      DiffExact(a, b, ds[i]);
    }
    if d in ds {
      var i :| 0 <= i < |ds| && ds[i] == d;
      assert TreeChanges(a, b)[i] == EntryOf(d);
    }
  }

  /** The list is in path order, so each path is listed once. */
  lemma ChangeListOrdered(a: Map, b: Map)
    ensures forall i, j :: 0 <= i < j < |TreeChanges(a, b)| ==> Less(TreeChanges(a, b)[i].path, TreeChanges(a, b)[j].path)
  {
    hide Diff;
    DiffIncreases(a, b);
    assert forall i :: 0 <= i < |Diff(a, b)| ==> TreeChanges(a, b)[i].path == Diff(a, b)[i].key;
  }

  /** Consecutive change lists compose. */
  lemma LedgerComposes(a: Map, b: Map, c: Map)
    ensures Ledger(a, TreeChanges(a, b) + TreeChanges(b, c)) == c
  {
    var ds, es := Diff(a, b), Diff(b, c);
    assert EntriesOf(ds) + EntriesOf(es) == EntriesOf(ds + es);
    LedgerReplays(a, ds + es);
    ReplayJoin(a, ds, es);
    ReplayDiff(a, b);
    ReplayDiff(b, c);
  }

  // ------------------------------------------------------------ the diff-tree parser

  const NUL: char := 0 as char

  datatype DiffError = UnexpectedRecord | MalformedHeader | MissingPath | UnsupportedStatus

  type Entries = Result<seq<ChangeEntry>, DiffError>

  /** The entry of one header and path. */
  function EntryFrom(header: string, path: string): Result<ChangeEntry, DiffError> {
    var parts := Fields(header[if header == "" then 0 else 1..]);
    if |parts| < 5 then Err(MalformedHeader)
    else if HasPrefix(parts[4], "A") then Ok(ChangeEntry(path, Added, parts[3]))
    else if HasPrefix(parts[4], "D") then Ok(ChangeEntry(path, Deleted, parts[2]))
    else if HasPrefix(parts[4], "M") || HasPrefix(parts[4], "T") then Ok(ChangeEntry(path, Modified, parts[3]))
    else Err(UnsupportedStatus)
  }

  /** What the parser makes of the fields from here on. */
  function ParseFields(fields: seq<string>): Entries
    decreases |fields|
  {
    if fields == [] then Ok([])
    else if fields[0] == "" then ParseFields(fields[1..])
    else if fields[0][0] != ':' then Err(UnexpectedRecord)
    else if |Fields(fields[0][1..])| < 5 then Err(MalformedHeader)
    else if |fields| == 1 then Err(MissingPath)
    else
      match EntryFrom(fields[0], fields[1])
      case Err(e) => Err(e)
      case Ok(entry) =>
        match ParseFields(fields[2..])
        case Err(e) => Err(e)
        case Ok(rest) => Ok([entry] + rest)
  }

  function Parsed(raw: string): Entries {
    if raw == "" then Ok([]) else ParseFields(Split(TrimRightOf(raw, NUL), NUL))
  }

  function Prepend(out: seq<ChangeEntry>, r: Entries): Entries {
    match r case Ok(es) => Ok(out + es) case Err(e) => Err(e)
  }

  /** `parseDiffTreeZ`. */
  method ParseDiffTreeZ(raw: string) returns (r: Entries)
    ensures r == Parsed(raw)
  {
    hide Fields, Split, TrimRightOf;
    if |raw| == 0 { return Ok([]); }
    var fields := Split(TrimRightOf(raw, NUL), NUL);
    var out: seq<ChangeEntry> := [];
    PrependNone(ParseFields(fields));
    var i := 0;
    assert fields[i..] == fields;
    while i < |fields|
      invariant i <= |fields|
      invariant Prepend(out, ParseFields(fields[i..])) == ParseFields(fields)
    {
      var header := fields[i];
      assert fields[i..][1..] == fields[i + 1..];
      if header == "" {
        i := i + 1;
        continue;
      }
      if header[0] != ':' { return Err(UnexpectedRecord); }
      var parts := Fields(header[1..]);
      if |parts| < 5 { return Err(MalformedHeader); }
      var oldSha, newSha, status := parts[2], parts[3], parts[4];
      if i + 1 >= |fields| { return Err(MissingPath); }
      assert fields[i..][2..] == fields[i + 2..];
      var path := fields[i + 1];
      i := i + 2;
      var entry;
      if HasPrefix(status, "A") { entry := ChangeEntry(path, Added, newSha); }
      else if HasPrefix(status, "D") { entry := ChangeEntry(path, Deleted, oldSha); }
      else if HasPrefix(status, "M") || HasPrefix(status, "T") { entry := ChangeEntry(path, Modified, newSha); }
      else { return Err(UnsupportedStatus); }
      assert EntryFrom(header, path) == Ok(entry);
      ghost var rest := ParseFields(fields[i..]);
      assert rest.Ok? ==> (out + [entry]) + rest.value == out + ([entry] + rest.value);
      out := out + [entry];
    }
    assert fields[i..] == [] && out + [] == out;
    return Ok(out);
  }

  lemma PrependNone(r: Entries)
    ensures Prepend([], r) == r
  {
    if r.Ok? { assert [] + r.value == r.value; }
  }

  /** One record of `git diff-tree --raw -z`. */
  datatype RawRecord = RawRecord(oldMode: string, newMode: string, oldSha: string, newSha: string, status: string, path: string)

  ghost predicate Clean(s: string) { IsWord(s) && NUL !in s }

  ghost predicate WellFormed(r: RawRecord) {
    && Clean(r.oldMode) && Clean(r.newMode) && Clean(r.oldSha) && Clean(r.newSha)
    && Clean(r.status) && r.status[0] in "AMTD"
    && r.path != "" && NUL !in r.path
  }

  function Header(r: RawRecord): string {
    ":" + (r.oldMode + (" " + (r.newMode + (" " + (r.oldSha + (" " + (r.newSha + (" " + (r.status + "")))))))))
  }

  /** The records as git prints them. */
  function Rendered(rs: seq<RawRecord>): string {
    if rs == [] then "" else Header(rs[0]) + [NUL] + rs[0].path + [NUL] + Rendered(rs[1..])
  }

  function EntryFor(r: RawRecord): ChangeEntry {
    if HasPrefix(r.status, "A") then ChangeEntry(r.path, Added, r.newSha)
    else if HasPrefix(r.status, "D") then ChangeEntry(r.path, Deleted, r.oldSha)
    else ChangeEntry(r.path, Modified, r.newSha)
  }

  function EntriesFor(rs: seq<RawRecord>): seq<ChangeEntry> {
    seq(|rs|, i requires 0 <= i < |rs| => EntryFor(rs[i]))
  }

  lemma HeaderFields(r: RawRecord)
    requires WellFormed(r)
    ensures Header(r) != "" && Header(r)[0] == ':' && NUL !in Header(r)
    ensures Fields(Header(r)[1..]) == [r.oldMode, r.newMode, r.oldSha, r.newSha, r.status]
  {
    hide Fields;
    var e := r.status + "";
    var d := r.newSha + (" " + e);
    var c := r.oldSha + (" " + d);
    var b := r.newMode + (" " + c);
    var a := r.oldMode + (" " + b);
    assert Header(r)[1..] == a;
    FieldsEnd();
    FieldsWord(r.status, "");
    NextWord(r.newSha, e);
    NextWord(r.oldSha, d);
    NextWord(r.newMode, c);
    NextWord(r.oldMode, b);
  }

  lemma FieldsEnd()
    ensures Fields("") == []
  {
  }

  lemma NextWord(w: string, rest: string)
    requires IsWord(w)
    ensures Fields(w + (" " + rest)) == [w] + Fields(rest)
  {
    FieldsWord(w, " " + rest);
    assert (" " + rest)[1..] == rest;
  }

  lemma HeaderEntry(r: RawRecord)
    requires WellFormed(r)
    ensures EntryFrom(Header(r), r.path) == Ok(EntryFor(r))
  {
    hide Fields, Header;
    HeaderFields(r);
    assert r.status[..1] == [r.status[0]];
  }

  /** The fields between the separators. */
  function FieldList(rs: seq<RawRecord>): seq<string> {
    if rs == [] then [] else [Header(rs[0]), rs[0].path] + FieldList(rs[1..])
  }

  ghost predicate AllWellFormed(rs: seq<RawRecord>) {
    forall i :: 0 <= i < |rs| ==> WellFormed(rs[i])
  }

  lemma {:induction false} RenderedSplit(rs: seq<RawRecord>)
    requires rs != [] && AllWellFormed(rs)
    ensures |Rendered(rs)| >= 2 && Rendered(rs)[|Rendered(rs)| - 1] == NUL && Rendered(rs)[|Rendered(rs)| - 2] != NUL
    ensures Split(Rendered(rs)[..|Rendered(rs)| - 1], NUL) == FieldList(rs)
    decreases |rs|
  {
    hide Split, Header, WellFormed, Rendered;
    var h, p := Header(rs[0]), rs[0].path;
    assert WellFormed(rs[0]);
    RecordText(rs[0]);
    SplitPlain(h, NUL);
    SplitPlain(p, NUL);
    RenderedStep(rs);
    if |rs| == 1 {
      assert FieldList(rs[1..]) == [];
      assert Rendered(rs)[..|Rendered(rs)| - 1] == h + [NUL] + p;
      SplitJoin(h, p, NUL);
    } else {
      var rest := Rendered(rs[1..]);
      RenderedSplit(rs[1..]);
      var tail := rest[..|rest| - 1];
      ButLast(h + [NUL] + p + [NUL], rest);
      assert h + [NUL] + p + [NUL] + tail == h + [NUL] + (p + [NUL] + tail);
      SplitJoin(p, tail, NUL);
      SplitJoin(h, p + [NUL] + tail, NUL);
      assert [h] + ([p] + FieldList(rs[1..])) == FieldList(rs);
    }
  }

  lemma RenderedStep(rs: seq<RawRecord>)
    requires rs != []
    ensures Rendered(rs) == Header(rs[0]) + [NUL] + rs[0].path + [NUL] + Rendered(rs[1..])
    ensures |rs| == 1 ==> Rendered(rs) == Header(rs[0]) + [NUL] + rs[0].path + [NUL]
  {
    hide Header;
  }

  lemma ButLast(a: string, b: string)
    requires |b| >= 2
    ensures (a + b)[..|a + b| - 1] == a + b[..|b| - 1]
    ensures (a + b)[|a + b| - 1] == b[|b| - 1] && (a + b)[|a + b| - 2] == b[|b| - 2]
  {
  }

  lemma RecordText(r: RawRecord)
    requires WellFormed(r)
    ensures r.path != "" && NUL !in r.path && NUL !in Header(r)
  {
    HeaderFields(r);
  }

  lemma {:induction false} FieldListParses(rs: seq<RawRecord>)
    requires AllWellFormed(rs)
    ensures ParseFields(FieldList(rs)) == Ok(EntriesFor(rs))
    decreases |rs|
  {
    hide Fields, Header, WellFormed, EntryFor, EntryFrom;
    if rs == [] {
      NoEntries();
    } else {
      var fields := FieldList(rs);
      FieldListParses(rs[1..]);
      assert WellFormed(rs[0]);
      HeaderFields(rs[0]);
      HeaderEntry(rs[0]);
      assert fields[2..] == FieldList(rs[1..]);
      assert EntriesFor(rs) == [EntryFor(rs[0])] + EntriesFor(rs[1..]);
    }
  }

  /** The parser recovers every well-formed list of records. */
  lemma ParserRecovers(rs: seq<RawRecord>)
    requires AllWellFormed(rs)
    ensures Parsed(Rendered(rs)) == Ok(EntriesFor(rs))
  {
    hide ParseFields, Split, AllWellFormed, EntriesFor;
    if rs == [] {
      assert EntriesFor(rs) == [] by { NoEntries(); }
    } else {
      var raw := Rendered(rs);
      RenderedSplit(rs);
      assert TrimRightOf(raw[..|raw| - 1], NUL) == raw[..|raw| - 1];
      FieldListParses(rs);
    }
  }

  /** One record alone, letter by letter of its status. */
  lemma RecordMeaning(r: RawRecord)
    requires WellFormed(r)
    ensures Parsed(Rendered([r])) == Ok([ChangeEntry(r.path,
              if r.status[0] == 'A' then Added else if r.status[0] == 'D' then Deleted else Modified,
              if r.status[0] == 'D' then r.oldSha else r.newSha)])
  {
    hide Rendered, Parsed;
    ParserRecovers([r]);
    assert r.status[..1] == [r.status[0]];
    assert EntriesFor([r]) == [EntryFor(r)];
  }

  lemma {:induction false} AfterRecords(rs: seq<RawRecord>, tail: seq<string>)
    requires AllWellFormed(rs) && ParseFields(tail).Err?
    ensures ParseFields(FieldList(rs) + tail) == ParseFields(tail)
    decreases |rs|
  {
    hide Header, EntryFrom, EntryFor, Fields;
    if rs == [] {
      assert FieldList(rs) + tail == tail;
    } else {
      var r := rs[0];
      var all := FieldList(rs) + tail;
      AfterRecords(rs[1..], tail);
      assert all[0] == Header(r) && all[1] == r.path && all[2..] == FieldList(rs[1..]) + tail;
      HeaderFields(r);
      HeaderEntry(r);
    }
  }

  /** Whatever well-formed records come before it, a bad header is refused, each kind with its own error. */
  lemma BadHeaderRefused(rs: seq<RawRecord>, header: string, rest: seq<string>)
    requires AllWellFormed(rs) && header != ""
    ensures var r, words := ParseFields(FieldList(rs) + ([header] + rest)), Fields(header[1..]);
            if header[0] != ':' then r == Err(UnexpectedRecord)
            else if |words| < 5 then r == Err(MalformedHeader)
            else if rest == [] then r == Err(MissingPath)
            else words[4] != "" && words[4][0] !in "AMTD" ==> r == Err(UnsupportedStatus)
  {
    hide Fields;
    var tail := [header] + rest;
    var words := Fields(header[1..]);
    assert tail[0] == header && (rest != [] ==> tail[1] == rest[0]);
    if |words| >= 5 && words[4] != "" { assert words[4][..1] == [words[4][0]]; }
    if ParseFields(tail).Err? { AfterRecords(rs, tail); }
  }

  lemma NoEntries()
    ensures EntriesFor([]) == []
  {
  }

  // ------------------------------------------------------------ from trees through git's text

  /** How git prints one difference: `sha` names blobs, `mode` files, and an absent side is all zeros. */
  function RawOf(sha: string -> string, d: Delta): RawRecord {
    var zero, file := "000000", "100644";
    match (d.before, d.after)
    case (None, Some(x)) => RawRecord(zero, file, "0000000", sha(x), "A", d.key)
    case (Some(x), None) => RawRecord(file, zero, sha(x), "0000000", "D", d.key)
    case (Some(x), Some(y)) => RawRecord(file, file, sha(x), sha(y), "M", d.key)
    case (None, None) => RawRecord(zero, zero, "0000000", "0000000", "D", d.key)
  }

  function RawDiff(sha: string -> string, a: Map, b: Map): seq<RawRecord> {
    var ds := Diff(a, b);
    seq(|ds|, i requires 0 <= i < |ds| => RawOf(sha, ds[i]))
  }

  function Hashed(sha: string -> string, e: ChangeEntry): ChangeEntry { e.(blob := sha(e.blob)) }

  /**
   `diffTreeChanges`: through git's printed form and the parser the client
   gets the change list between the two trees, with blobs named by hash.
   */
  lemma DiffTreeChanges(sha: string -> string, a: Map, b: Map)
    requires forall x :: Clean(sha(x))
    requires forall p :: p in a || p in b ==> p != "" && NUL !in p
    ensures var es := TreeChanges(a, b);
            Parsed(Rendered(RawDiff(sha, a, b))) == Ok(seq(|es|, i requires 0 <= i < |es| => Hashed(sha, es[i])))
  {
    hide Rendered, Parsed, Diff, WellFormed;
    var ds, rs, es := Diff(a, b), RawDiff(sha, a, b), TreeChanges(a, b);
    forall i | 0 <= i < |ds| ensures WellFormed(rs[i]) && EntryFor(rs[i]) == Hashed(sha, es[i]) {
      assert ds[i] in ds;
      DiffExact(a, b, ds[i]);
      RawEntry(sha, ds[i]);
    }
    ParserRecovers(rs);
    assert EntriesFor(rs) == seq(|es|, i requires 0 <= i < |es| => Hashed(sha, es[i]));
  }

  lemma RawEntry(sha: string -> string, d: Delta)
    requires forall x :: Clean(sha(x))
    requires d.key != "" && NUL !in d.key && (d.before.Some? || d.after.Some?)
    ensures WellFormed(RawOf(sha, d)) && EntryFor(RawOf(sha, d)) == Hashed(sha, EntryOf(d))
  {
    assert IsWord("000000") && IsWord("100644") && IsWord("0000000") && IsWord("A") && IsWord("D") && IsWord("M");
  }

  // ------------------------------------------------------------ ref movements

  datatype RefChangeKind = RefCreated | RefUpdated | RefDeleted

  datatype RefChange = RefChange(ref: string, oldSha: string, newSha: string, kind: RefChangeKind)

  function RefChangeOf(d: Delta): RefChange {
    match (d.before, d.after)
    case (None, Some(x)) => RefChange(d.key, "", x, RefCreated)
    case (Some(x), Some(y)) => RefChange(d.key, x, y, RefUpdated)
    case (Some(x), None) => RefChange(d.key, x, "", RefDeleted)
    case (None, None) => RefChange(d.key, "", "", RefDeleted)
  }

  function RefChangesOf(ds: seq<Delta>): seq<RefChange> {
    seq(|ds|, i requires 0 <= i < |ds| => RefChangeOf(ds[i]))
  }

  /** `DiffRefSnapshots`. */
  method DiffRefSnapshots(before: Map, after: Map) returns (changes: seq<RefChange>)
    ensures changes == RefChangesOf(Diff(before, after))
    ensures forall ref, x :: RefChange(ref, "", x, RefCreated) in changes <==> ref !in before && ref in after && after[ref] == x
    ensures forall ref, x :: RefChange(ref, x, "", RefDeleted) in changes <==> ref in before && ref !in after && before[ref] == x
    ensures forall ref, x, y :: RefChange(ref, x, y, RefUpdated) in changes
                           <==> ref in before && ref in after && before[ref] == x && after[ref] == y && x != y
    ensures forall c :: c in changes && c.kind == RefCreated ==> c.oldSha == ""
    ensures forall c :: c in changes && c.kind == RefDeleted ==> c.newSha == ""
  {
    hide Find, RefChangesOf;
    var refs := Sorted(before.Keys + after.Keys);
    changes := [];
    RefChangesSnoc([], []);
    for i := 0 to |refs|
      invariant changes == RefChangesOf(DiffIn(before, after, refs[..i]))
    {
      PrefixStep(refs, i);
      var ref := refs[i];
      FindIs(before, ref);
      FindIs(after, ref);
      RefChangesSnoc(DiffIn(before, after, refs[..i]), DeltaAt(before, after, ref));
      if ref !in before && ref in after {
        changes := changes + [RefChange(ref, "", after[ref], RefCreated)];
      } else if ref in before && ref !in after {
        changes := changes + [RefChange(ref, before[ref], "", RefDeleted)];
      } else if ref in before && ref in after && before[ref] != after[ref] {
        changes := changes + [RefChange(ref, before[ref], after[ref], RefUpdated)];
      }
    }
    PrefixAll(refs);
    forall c ensures c in changes <==> IsRefChange(before, after, c) { RefChangeMeaning(before, after, c); }
  }

  /** One ref that differs: its two values, empty where there is none, and how it moved. */
  ghost predicate IsRefChange(before: Map, after: Map, c: RefChange) {
    || (c.kind == RefCreated && c.ref !in before && c.ref in after && c.oldSha == "" && c.newSha == after[c.ref])
    || (c.kind == RefDeleted && c.ref in before && c.ref !in after && c.oldSha == before[c.ref] && c.newSha == "")
    || (c.kind == RefUpdated && c.ref in before && c.ref in after && before[c.ref] != after[c.ref]
        && c.oldSha == before[c.ref] && c.newSha == after[c.ref])
  }

  /** The list holds just these. */
  lemma RefChangeMeaning(before: Map, after: Map, c: RefChange)
    ensures c in RefChangesOf(Diff(before, after)) <==> IsRefChange(before, after, c)
  {
    hide Diff;
    var ds := Diff(before, after);
    var d := Delta(c.ref, Find(before, c.ref), Find(after, c.ref));
    DiffExact(before, after, d);
    if c in RefChangesOf(ds) {
      var i :| 0 <= i < |ds| && RefChangeOf(ds[i]) == c;
      assert ds[i] in ds;
      DiffExact(before, after, ds[i]);
    }
    if IsRefChange(before, after, c) {
      var i :| 0 <= i < |ds| && ds[i] == d;
      assert RefChangesOf(ds)[i] == c;
    }
  }

  lemma FindIs(m: Map, k: string)
    ensures Find(m, k) == if k in m then Some(m[k]) else None
  {
  }

  lemma RefChangesSnoc(ds: seq<Delta>, es: seq<Delta>)
    ensures RefChangesOf([]) == []
    ensures |es| <= 1 ==> RefChangesOf(ds + es) == RefChangesOf(ds) + if es == [] then [] else [RefChangeOf(es[0])]
  {
    if es == [] { assert ds + es == ds; }
  }

  /** A reader of the ref changes brings its snapshot up to date. */
  function Moved(m: Map, cs: seq<RefChange>): Map {
    if cs == [] then m
    else
      var m', c := Moved(m, cs[..|cs| - 1]), cs[|cs| - 1];
      if c.kind == RefDeleted then m' - {c.ref} else m'[c.ref := c.newSha]
  }

  lemma {:induction false} MovedReplays(m: Map, ds: seq<Delta>)
    ensures Moved(m, RefChangesOf(ds)) == Replay(m, ds)
    decreases |ds|
  {
    if ds != [] {
      assert RefChangesOf(ds)[..|ds| - 1] == RefChangesOf(ds[..|ds| - 1]);
      MovedReplays(m, ds[..|ds| - 1]);
    }
  }

  /**
   For all snapshots: the listed changes turn before into after, each listed
   ref really differs and shows its two values, refs are strictly increasing,
   and the list is empty exactly when the snapshots are equal.
   */
  lemma RefChangesExact(before: Map, after: Map)
    ensures var cs := RefChangesOf(Diff(before, after));
            && Moved(before, cs) == after
            && (cs == [] <==> before == after)
            && (forall i, j :: 0 <= i < j < |cs| ==> Less(cs[i].ref, cs[j].ref))
            && (forall i :: 0 <= i < |cs| ==>
                  Find(before, cs[i].ref) != Find(after, cs[i].ref)
                  && (cs[i].kind == RefCreated <==> cs[i].ref !in before)
                  && (cs[i].kind == RefDeleted <==> cs[i].ref !in after)
                  && (cs[i].ref in before ==> cs[i].oldSha == before[cs[i].ref])
                  && (cs[i].ref in after ==> cs[i].newSha == after[cs[i].ref]))
  {
    hide Diff;
    var ds := Diff(before, after);
    MovedReplays(before, ds);
    ReplayDiff(before, after);
    DiffEmpty(before, after);
    DiffIncreases(before, after);
    forall i | 0 <= i < |ds| ensures ds[i] in ds && Find(before, ds[i].key) != Find(after, ds[i].key)
                                     && ds[i].before == Find(before, ds[i].key) && ds[i].after == Find(after, ds[i].key)
    {
      DiffExact(before, after, ds[i]);
    }
  }
}
