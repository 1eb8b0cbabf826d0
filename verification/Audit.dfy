/**
 The audit chain (internal/git/audit.go): any number of racing appends, the
 chain they leave, and seeding it from the commit log.
 */
module Audit {
  import opened Base
  import opened Cas
  import opened Dag
  import opened Strings

  const EVENT_PATH: Path := "event.json"

  /** The commit an append tries: one event on top of the head it read, or a root while the ref does not exist. */
  function Entry(body: Blob, on: Ref, info: string): Commit {
    Commit(map[EVENT_PATH := body], if on.Some? then [on.value] else [], info)
  }

  /** An `AppendAudit` call as a writer: it never refuses. The zero SHA guards the first write. */
  function AuditPlan(body: Blob, infos: nat -> string): Plan<()> {
    (ref: Ref, n: nat) => Try(Entry(body, ref, infos(n)))
  }

  ghost predicate IsAppend(plan: Plan<()>) {
    exists body: Blob, infos: nat -> string :: plan == AuditPlan(body, infos)
  }

  // ------------------------------------------------------------ the chain

  /** The commits met walking first parents, oldest first. */
  function Chain(c: Commit): seq<Commit> {
    if c.parents == [] then [c] else Chain(c.parents[0]) + [c]
  }

  function ChainOf(ref: Ref): seq<Commit> {
    match ref case None => [] case Some(c) => Chain(c)
  }

  /** No commit of the history has two parents: the walk is the whole history. */
  predicate Linear(c: Commit) {
    |c.parents| <= 1 && (c.parents != [] ==> Linear(c.parents[0]))
  }

  lemma {:induction false} ChainIsHistory(c: Commit, a: Commit)
    requires Linear(c)
    ensures Ancestor(a, c) <==> a in Chain(c)
    ensures Chain(c)[0].parents == []
    ensures forall i :: 0 < i < |Chain(c)| ==> Chain(c)[i].parents == [Chain(c)[i - 1]]
    ensures Chain(c)[|Chain(c)| - 1] == c
  {
    if c.parents != [] {
      ChainIsHistory(c.parents[0], a);
      assert c.parents == [c.parents[0]];
      assert Ancestor(a, c) <==> a == c || Ancestor(a, c.parents[0]);
    }
  }

  function Commits(log: seq<Move>): seq<Commit> {
    if log == [] then []
    else
      var front, last := log[..|log| - 1], log[|log| - 1];
      if last.to.Some? then Commits(front) + [last.to.value] else Commits(front)
  }

  ghost predicate Stacked(first: Ref, log: seq<Move>) {
    forall i :: 0 <= i < |log| ==>
      log[i].to.Some?
      && log[i].to.value.parents == if RefAt(first, log, i).Some? then [RefAt(first, log, i).value] else []
  }

  /** One more commit on top of a linear history. */
  lemma OnTop(on: Ref, c: Commit)
    requires (on.Some? ==> Linear(on.value)) && c.parents == if on.Some? then [on.value] else []
    ensures Linear(c) && ChainOf(Some(c)) == ChainOf(on) + [c]
  {
  }

  lemma StackedFront(first: Ref, log: seq<Move>)
    requires Stacked(first, log) && log != []
    ensures var k := |log| - 1;
            && Stacked(first, log[..k]) && RefAt(first, log[..k], k) == RefAt(first, log, k)
            && log[k].to.Some? && RefAt(first, log, |log|) == log[k].to
            && log[k].to.value.parents == if RefAt(first, log, k).Some? then [RefAt(first, log, k).value] else []
  {
    var k := |log| - 1;
    forall i | 0 <= i <= k ensures RefAt(first, log[..k], i) == RefAt(first, log, i) {}
  }

  lemma {:induction false} StackedChain(first: Ref, log: seq<Move>)
    requires Stacked(first, log) && (first.Some? ==> Linear(first.value))
    ensures ChainOf(RefAt(first, log, |log|)) == ChainOf(first) + Commits(log)
    ensures RefAt(first, log, |log|).Some? ==> Linear(RefAt(first, log, |log|).value)
    ensures |Commits(log)| == |log| && forall i :: 0 <= i < |log| ==> log[i].to == Some(Commits(log)[i])
    decreases |log|
  {
    hide Linear, ChainOf, Stacked;
    if log != [] {
      var k := |log| - 1;
      StackedFront(first, log);
      StackedChain(first, log[..k]);
      OnTop(RefAt(first, log, k), log[k].to.value);
    }
  }

  lemma AppendsStack(first: Ref, acts: seq<Action<()>>)
    requires OnlyWriters(acts, IsAppend)
    ensures Stacked(first, Run(Init(first), acts).log)
  {
    hide Run, IsAppend;
    WritersOnly(Init<()>(first), acts, IsAppend);
    RunExtends(Init<()>(first), acts);
    var s := Run(Init(first), acts);
    forall i | 0 <= i < |s.log|
      ensures s.log[i].to.Some?
              && s.log[i].to.value.parents == if RefAt(first, s.log, i).Some? then [RefAt(first, s.log, i).value] else []
    {
      MovesFollowPlans(first, acts, i);
      var plan := s.writers[s.log[i].who.value].plan;
      var n: nat :| n < MAX_ATTEMPTS && plan(RefAt(s.first, s.log, i), n) == Try(s.log[i].to.value);
      AppendOnTop(plan, RefAt(s.first, s.log, i), n);
    }
  }

  lemma AppendOnTop(plan: Plan<()>, ref: Ref, n: nat)
    requires IsAppend(plan)
    ensures plan(ref, n).Try? && plan(ref, n).next.parents == if ref.Some? then [ref.value] else []
  {
    var body: Blob, infos: nat -> string :| plan == AuditPlan(body, infos);
    assert plan(ref, n) == Try(Entry(body, ref, infos(n)));
  }

  /**
   Over every interleaving of appends, racing first writes included: the
   audit ref heads one chain with one root, which is the old chain followed
   by one commit per successful call, in the order of the swaps.
   */
  lemma AuditChain(first: Ref, acts: seq<Action<()>>)
    requires OnlyWriters(acts, IsAppend) && (first.Some? ==> Linear(first.value))
    ensures var s := Run(Init(first), acts);
            && (Current(s).Some? ==> Linear(Current(s).value))
            && ChainOf(Current(s)) == ChainOf(first) + Commits(s.log)
            && |Commits(s.log)| == |s.log|
            && (forall i :: 0 <= i < |s.log| ==> s.log[i].to == Some(Commits(s.log)[i]))
  {
    hide Run;
    AppendsStack(first, acts);
    RunExtends(Init<()>(first), acts);
    StackedChain(first, Run(Init(first), acts).log);
  }

  /** A successful append is in the chain exactly once, with its own event; a failed one is not there at all. */
  lemma EventOnce(first: Ref, acts: seq<Action<()>>, w: Wid, body: Blob, infos: nat -> string)
    requires OnlyWriters(acts, IsAppend)
    requires var s := Run(Init(first), acts);
             w in s.writers && s.writers[w].plan == AuditPlan(body, infos)
    ensures var s := Run(Init(first), acts);
            && (s.writers[w].phase.Won? <==> exists i :: 0 <= i < |s.log| && s.log[i].who == Some(w))
            && (forall i, j :: 0 <= i < j < |s.log| ==> !(s.log[i].who == Some(w) && s.log[j].who == Some(w)))
            && (forall i :: 0 <= i < |s.log| && s.log[i].who == Some(w) ==>
                  s.log[i].to.Some? && s.log[i].to.value.tree == map[EVENT_PATH := body])
  {
    hide Run;
    OneMovePerCall(first, acts, w);
    var s := Run(Init(first), acts);
    forall i | 0 <= i < |s.log| && s.log[i].who == Some(w)
      ensures s.log[i].to.Some? && s.log[i].to.value.tree == map[EVENT_PATH := body]
    {
      MovesFollowPlans(first, acts, i);
      var n: nat :| n < MAX_ATTEMPTS && s.writers[w].plan(RefAt(s.first, s.log, i), n) == Try(s.log[i].to.value);
      assert AuditPlan(body, infos)(RefAt(s.first, s.log, i), n) == Try(Entry(body, RefAt(s.first, s.log, i), infos(n)));
    }
  }

  lemma {:induction false} ChainPrefix(c: Commit, i: nat)
    requires Linear(c) && i < |Chain(c)|
    ensures Chain(Chain(c)[i]) == Chain(c)[..i + 1]
  {
    if i + 1 < |Chain(c)| { ChainPrefix(c.parents[0], i); }
    else { assert Chain(c)[i] == c; }
  }

  /** No commit occurs twice in a chain. */
  lemma ChainDistinct(c: Commit, i: nat, j: nat)
    requires Linear(c) && i < |Chain(c)| && j < |Chain(c)| && Chain(c)[i] == Chain(c)[j]
    ensures i == j
  {
    ChainPrefix(c, i);
    ChainPrefix(c, j);
    assert |Chain(c)[..i + 1]| == |Chain(c)[..j + 1]|;
  }

  /** Walking the chain meets the commit of a successful append exactly once, behind everything that was there before. */
  lemma SuccessOnceInChain(first: Ref, acts: seq<Action<()>>, w: Wid)
    requires OnlyWriters(acts, IsAppend) && (first.Some? ==> Linear(first.value))
    requires var s := Run(Init(first), acts); w in s.writers && s.writers[w].phase.Won?
    ensures var s := Run(Init(first), acts);
            var chain, v := ChainOf(Current(s)), s.writers[w].phase.version;
            && (exists i :: |ChainOf(first)| <= i < |chain| && chain[i] == v)
            && (forall i, j :: 0 <= i < |chain| && 0 <= j < |chain| && chain[i] == v && chain[j] == v ==> i == j)
  {
    hide Run, ChainOf, Commits, IsAppend, OnlyWriters, RefAt;
    AuditChain(first, acts);
    OneMovePerCall(first, acts, w);
    var s := Run(Init(first), acts);
    var chain, v := ChainOf(Current(s)), s.writers[w].phase.version;
    var n :| 0 <= n < |s.log| && s.log[n] == Move(Some(w), Some(v));
    assert chain[|ChainOf(first)| + n] == v;
    ChainOfDistinct(Current(s));
  }

  lemma ChainOfDistinct(ref: Ref)
    requires ref.Some? ==> Linear(ref.value)
    ensures forall i, j :: 0 <= i < |ChainOf(ref)| && 0 <= j < |ChainOf(ref)| && ChainOf(ref)[i] == ChainOf(ref)[j] ==> i == j
  {
    hide Chain, Linear;
    forall i, j | 0 <= i < |ChainOf(ref)| && 0 <= j < |ChainOf(ref)| && ChainOf(ref)[i] == ChainOf(ref)[j] ensures i == j {
      ChainDistinct(ref.value, i, j);
    }
  }

  // ------------------------------------------------------------ the log of the default branch

  datatype AuditActor = AuditActor(id: string, username: string, provider: string)

  /** `time` counts from Go's zero time; `kind` is the source's `Type`. */
  datatype AuditEvent = AuditEvent(time: int, kind: string, actor: AuditActor, ref: string, sha: string, notes: string)

  /** `strings.SplitN` on one character. */
  function SplitN(s: string, sep: char, n: nat): (r: seq<string>)
    requires n > 0
    ensures 0 < |r| <= n
  {
    if n == 1 || sep !in s then [s]
    else
      var i := First(s, sep);
      [s[..i]] + SplitN(s[i + 1..], sep, n - 1)
  }

  function First(s: string, c: char): (i: nat)
    requires c in s
    ensures i < |s| && s[i] == c && c !in s[..i]
  {
    if s[0] == c then 0 else
      var i := 1 + First(s[1..], c);
      assert s[..i] == [s[0]] + s[1..][..i - 1];
      i
  }

  /** `time.Parse(time.RFC3339, s)`, the clock, and the JSON form of an event. */
  datatype Lib = Lib(parseTime: string -> Option<int>, now: int, encode: AuditEvent -> Blob)

  /** The event of one log line; a line of fewer than four fields gives none. */
  function EventOf(lib: Lib, line: string): Option<AuditEvent> {
    var parts := SplitN(line, '|', 4);
    if line == "" || |parts| < 4 then None
    else
      var time := match lib.parseTime(parts[2]) case Some(t) => t case None => lib.now;
      Some(AuditEvent(time, "commit", AuditActor("", parts[1], "backfill"), "", parts[0], parts[3]))
  }

  function EventsOf(lib: Lib, lines: seq<string>): seq<AuditEvent> {
    if lines == [] then []
    else
      var rest := EventsOf(lib, lines[..|lines| - 1]);
      match EventOf(lib, lines[|lines| - 1])
      case None => rest
      case Some(e) => rest + [e]
  }

  function LinesOf(out: string): seq<string> { Split(TrimRightOf(out, '\n'), '\n') }

  /** One commit as `git log --format=%H|%an|%aI|%s` prints it. */
  datatype LogEntry = LogEntry(sha: string, author: string, date: string, subject: string)

  function LineOf(e: LogEntry): string { e.sha + ("|" + (e.author + ("|" + (e.date + ("|" + e.subject))))) }

  function Printed(es: seq<LogEntry>): string {
    if es == [] then "" else LineOf(es[0]) + "\n" + Printed(es[1..])
  }

  ghost predicate Printable(e: LogEntry) {
    e.sha != "" && '|' !in e.sha && '\n' !in LineOf(e)
  }

  lemma {:induction false} FirstAfter(a: string, rest: string, c: char)
    requires c !in a
    ensures First(a + ([c] + rest), c) == |a|
  {
    var s := a + ([c] + rest);
    if a == "" {
      assert s[0] == c;
    } else {
      assert s[0] == a[0] && s[1..] == a[1..] + ([c] + rest);
      FirstAfter(a[1..], rest, c);
    }
  }

  lemma SplitNStep(a: string, rest: string, n: nat)
    requires '|' !in a && n > 1
    ensures SplitN(a + ("|" + rest), '|', n) == [a] + SplitN(rest, '|', n - 1)
  {
    FirstAfter(a, rest, '|');
    var s := a + ("|" + rest);
    assert s[..|a|] == a && s[|a| + 1..] == rest;
  }

  lemma {:induction false} SplitNFills(s: string, n: nat)
    requires n > 0 && n <= 1 + Count(s)
    ensures |SplitN(s, '|', n)| == n
    decreases n
  {
    if n > 1 {
      CountFirst(s);
      SplitNFills(s[First(s, '|') + 1..], n - 1);
    }
  }

  function Count(s: string): nat {
    if s == "" then 0 else (if s[0] == '|' then 1 else 0) + Count(s[1..])
  }

  lemma {:induction false} CountFirst(s: string)
    requires Count(s) > 0
    ensures '|' in s && Count(s[First(s, '|') + 1..]) == Count(s) - 1
  {
    if s[0] != '|' {
      CountFirst(s[1..]);
      assert s[First(s, '|') + 1..] == s[1..][First(s[1..], '|') + 1..];
    }
  }

  lemma {:induction false} CountJoin(a: string, b: string)
    ensures Count(a + ("|" + b)) == Count(a) + 1 + Count(b)
  {
    if a == "" {
      assert (a + ("|" + b))[1..] == b;
    } else {
      assert (a + ("|" + b))[1..] == a[1..] + ("|" + b);
      CountJoin(a[1..], b);
    }
  }

  /** The event a listed commit stands for. */
  function Backfill(lib: Lib, e: LogEntry): AuditEvent {
    AuditEvent(match lib.parseTime(e.date) case Some(t) => t case None => lib.now,
               "commit", AuditActor("", e.author, "backfill"), "", e.sha, e.subject)
  }

  /** The event carries the commit's id, and all its fields exactly if no bar in author or date shifts them. */
  predicate Stands(lib: Lib, e: LogEntry, event: AuditEvent) {
    event.sha == e.sha && event.kind == "commit" && (event == Backfill(lib, e) <==> '|' !in e.author && '|' !in e.date)
  }

  /** No piece but the last holds a separator. */
  lemma {:induction false} PiecesPlain(s: string, sep: char, n: nat)
    requires n > 0
    ensures forall i :: 0 <= i < |SplitN(s, sep, n)| - 1 ==> sep !in SplitN(s, sep, n)[i]
    decreases n
  {
    if n > 1 && sep in s { PiecesPlain(s[First(s, sep) + 1..], sep, n - 1); }
  }

  /** A bar in the front part moves the split forward, and the rest grows. */
  lemma SplitEarly(a: string, b: string)
    requires '|' in a
    ensures var parts := SplitN(a + ("|" + b), '|', 2);
            |parts| == 2 && |parts[1]| > |b|
  {
    var s := a + ("|" + b);
    FirstInFront(a, "|" + b);
    SplitNOne(s[First(s, '|') + 1..]);
  }

  lemma {:induction false} FirstInFront(a: string, b: string)
    requires '|' in a
    ensures First(a + b, '|') < |a|
  {
    var s := a + b;
    assert s[0] == a[0];
    if a[0] != '|' {
      assert s[1..] == a[1..] + b;
      FirstInFront(a[1..], b);
    }
  }

  /**
   A printed line has four pieces, the first of them the id. Author and
   subject come out as printed exactly if neither author nor date holds a
   bar, and then the date does too.
   */
  lemma LinePieces(e: LogEntry)
    requires Printable(e)
    ensures var parts := SplitN(LineOf(e), '|', 4);
            && |parts| == 4 && parts[0] == e.sha
            && (parts[1] == e.author && parts[3] == e.subject <==> '|' !in e.author && '|' !in e.date)
            && ('|' !in e.author && '|' !in e.date ==> parts[2] == e.date)
  {
    hide SplitN, Count;
    var c := e.date + ("|" + e.subject);
    var b := e.author + ("|" + c);
    CountJoin(e.date, e.subject);
    CountJoin(e.author, c);
    SplitNStep(e.sha, b, 4);
    SplitNFills(b, 3);
    if '|' in e.author {
      PiecesPlain(b, '|', 3);
    } else {
      SplitNStep(e.author, c, 3);
      if '|' in e.date {
        SplitEarly(e.date, e.subject);
      } else {
        SplitNStep(e.date, e.subject, 2);
        SplitNOne(e.subject);
      }
    }
  }

  lemma SplitNOne(s: string)
    ensures SplitN(s, '|', 1) == [s]
  {
  }

  /** Every printed commit gives one event, with its own id, whatever its author and subject contain. */
  lemma LineGivesEvent(lib: Lib, e: LogEntry)
    requires Printable(e)
    ensures EventOf(lib, LineOf(e)).Some? && Stands(lib, e, EventOf(lib, LineOf(e)).value)
  {
    hide SplitN;
    LinePieces(e);
  }

  /** The backfilled event is the listed commit's, exactly if neither author nor date holds a bar. */
  lemma BackfillExact(lib: Lib, e: LogEntry)
    requires Printable(e)
    ensures EventOf(lib, LineOf(e))
            == Some(AuditEvent(if lib.parseTime(e.date).Some? then lib.parseTime(e.date).value else lib.now,
                               "commit", AuditActor("", e.author, "backfill"), "", e.sha, e.subject))
       <==> '|' !in e.author && '|' !in e.date
  {
    hide EventOf, Printable, LineOf;
    LineGivesEvent(lib, e);
  }

  lemma {:induction false} CountBars(s: string)
    ensures Count(s) == multiset(s)['|']
  {
    if s != "" {
      CountBars(s[1..]);
      assert s == [s[0]] + s[1..];
    }
  }

  lemma {:induction false} FewPieces(s: string, n: nat)
    requires n > 0 && Count(s) < n
    ensures |SplitN(s, '|', n)| == Count(s) + 1
    decreases n
  {
    CountNone(s);
    if '|' in s {
      CountSome(s);
      CountFirst(s);
      FewPieces(s[First(s, '|') + 1..], n - 1);
    }
  }

  lemma {:induction false} CountNone(s: string)
    ensures '|' !in s ==> Count(s) == 0
  {
    if s != "" { CountNone(s[1..]); }
  }

  lemma {:induction false} CountSome(s: string)
    ensures '|' in s ==> Count(s) > 0
  {
    if s != "" { CountSome(s[1..]); }
  }

  /** A line gives an event exactly if it holds three bars or more; any other is skipped. */
  lemma LineCounts(lib: Lib, line: string)
    ensures EventOf(lib, line).Some? <==> multiset(line)['|'] >= 3
  {
    hide SplitN, Count;
    CountBars(line);
    if Count(line) >= 3 { SplitNFills(line, 4); } else { FewPieces(line, 4); }
  }

  /** A commit by "A|B" is recorded as one by "A", and what follows moves one field on. */
  lemma BarredAuthor(lib: Lib)
    requires lib.parseTime("B") == None
    ensures var e := LogEntry("c0", "A|B", "2026-01-01T00:00:00Z", "first");
            EventOf(lib, LineOf(e))
            == Some(AuditEvent(lib.now, "commit", AuditActor("", "A", "backfill"), "", "c0", "2026-01-01T00:00:00Z|first"))
  {
    hide SplitN;
    var tail := "2026-01-01T00:00:00Z|first";
    var e := LogEntry("c0", "A|B", "2026-01-01T00:00:00Z", "first");
    assert LineOf(e) == "c0" + ("|" + ("A" + ("|" + ("B" + ("|" + tail)))));
    SplitNStep("c0", "A" + ("|" + ("B" + ("|" + tail))), 4);
    SplitNStep("A", "B" + ("|" + tail), 3);
    SplitNStep("B", tail, 2);
    SplitNOne(tail);
  }

  function LineSeq(es: seq<LogEntry>): seq<string> {
    if es == [] then [] else [LineOf(es[0])] + LineSeq(es[1..])
  }

  lemma {:induction false} PrintedLines(es: seq<LogEntry>)
    requires es != [] && forall i :: 0 <= i < |es| ==> Printable(es[i])
    ensures |Printed(es)| >= 2 && Printed(es)[|Printed(es)| - 1] == '\n' && Printed(es)[|Printed(es)| - 2] != '\n'
    ensures Split(Printed(es)[..|Printed(es)| - 1], '\n') == LineSeq(es)
    decreases |es|
  {
    hide Split, LineOf;
    var l := LineOf(es[0]);
    LineShape(es[0]);
    SplitPlain(l, '\n');
    if |es| == 1 {
      assert es[1..] == [];
      assert Printed(es) == l + "\n";
      assert Printed(es)[..|Printed(es)| - 1] == l;
    } else {
      PrintedLines(es[1..]);
      var rest := Printed(es[1..]);
      var tail := rest[..|rest| - 1];
      assert Printed(es) == l + "\n" + rest;
      assert Printed(es)[..|Printed(es)| - 1] == l + ['\n'] + tail;
      SplitJoin(l, tail, '\n');
    }
  }

  lemma LineShape(e: LogEntry)
    requires Printable(e)
    ensures LineOf(e) != "" && '\n' !in LineOf(e)
  {
  }

  /** One event per listed commit, in the order listed. */
  lemma LogGivesEvents(lib: Lib, es: seq<LogEntry>)
    requires es != [] && forall i :: 0 <= i < |es| ==> Printable(es[i])
    ensures var events := EventsOf(lib, LinesOf(Printed(es)));
            |events| == |es| && forall i :: 0 <= i < |es| ==> Stands(lib, es[i], events[i])
  {
    hide Split, EventsOf, Printable, Stands;
    var out := Printed(es);
    PrintedLines(es);
    assert TrimRightOf(out[..|out| - 1], '\n') == out[..|out| - 1];
    LineSeqEvents(lib, es);
  }

  lemma {:induction false} LineSeqAt(es: seq<LogEntry>)
    ensures |LineSeq(es)| == |es| && forall i :: 0 <= i < |es| ==> LineSeq(es)[i] == LineOf(es[i])
  {
    hide LineOf;
    if es != [] { LineSeqAt(es[1..]); }
  }

  lemma LineSeqEvents(lib: Lib, es: seq<LogEntry>)
    requires forall i :: 0 <= i < |es| ==> Printable(es[i])
    ensures var events := EventsOf(lib, LineSeq(es));
            |events| == |es| && forall i :: 0 <= i < |es| ==> Stands(lib, es[i], events[i])
  {
    hide LineOf, EventOf, EventsOf, Stands;
    LineSeqAt(es);
    LinesEvents(lib, LineSeq(es), es);
  }

  lemma {:induction false} LinesEvents(lib: Lib, lines: seq<string>, es: seq<LogEntry>)
    requires |lines| == |es| && forall i :: 0 <= i < |es| ==> Printable(es[i]) && lines[i] == LineOf(es[i])
    ensures var events := EventsOf(lib, lines);
            |events| == |es| && forall i :: 0 <= i < |es| ==> Stands(lib, es[i], events[i])
    decreases |es|
  {
    hide LineOf, EventOf, Printable, Stands;
    if es != [] {
      var k := |es| - 1;
      LinesEvents(lib, lines[..k], es[..k]);
      LineGivesEvent(lib, es[k]);
    }
  }
}
