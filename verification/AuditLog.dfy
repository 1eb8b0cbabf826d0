/**
 `AppendAudit` and `SeedAuditFromHistory` as the source writes them: loops
 run by one caller on an audit ref that others may move meanwhile.
 */
module AuditLog {
  import opened Audit
  import opened Base
  import opened Cas
  import opened Dag

  datatype AuditError = TypeRequired | GaveUpRetries | LogFailed

  /** An event without a time gets the clock's. */
  function Stamped(lib: Lib, e: AuditEvent): AuditEvent {
    if e.time == 0 then e.(time := lib.now) else e
  }

  function BodyOf(lib: Lib, e: AuditEvent): Blob { lib.encode(Stamped(lib, e)) }

  /** The files a list of events leaves, one tree per commit. */
  function TreesOf(lib: Lib, es: seq<AuditEvent>): seq<Tree> {
    seq(|es|, i requires 0 <= i < |es| => map[EVENT_PATH := BodyOf(lib, es[i])])
  }

  function Trees(cs: seq<Commit>): seq<Tree> {
    seq(|cs|, i requires 0 <= i < |cs| => cs[i].tree)
  }

  /** The head that the entries of `es` make, one on top of the other; `labels` marks the n-th entry on its first attempt. */
  function Seeded(lib: Lib, labels: nat -> nat -> string, es: seq<AuditEvent>): Ref {
    if es == [] then None
    else
      var k := |es| - 1;
      Some(Entry(BodyOf(lib, es[k]), Seeded(lib, labels, es[..k]), labels(k)(0)))
  }

  predicate LinearRef(ref: Ref) { ref.Some? ==> Linear(ref.value) }

  /** An entry lengthens the chain by itself. */
  lemma EntryChains(body: Blob, on: Ref, info: string)
    requires LinearRef(on)
    ensures var e := Entry(body, on, info);
            Linear(e) && ChainOf(Some(e)) == ChainOf(on) + [e] && e.tree == map[EVENT_PATH := body]
  {
  }

  lemma {:induction false} FreshWriter(used: set<Wid>) returns (w: Wid)
    ensures w !in used
    ensures forall u :: u in used ==> u < w
    decreases |used|
  {
    w := 0;
    if used != {} {
      var u :| u in used;
      w := FreshWriter(used - {u});
      if w <= u { w := u + 1; }
      forall v | v in used ensures v < w { assert v == u || v in used - {u}; }
    }
  }

  /** The calls named by `ids` succeeded, one for each event, in this order. */
  ghost predicate Recorded(s: Sys<()>, lib: Lib, labels: nat -> nat -> string, ids: seq<Wid>, es: seq<AuditEvent>) {
    && |ids| == |es|
    && (forall i :: 0 <= i < |ids| ==> Recording(s, lib, labels(i), ids[i], es[i]))
    && (forall i, j :: 0 <= i < j < |ids| ==> s.writers[ids[i]].phase.at < s.writers[ids[j]].phase.at)
  }

  ghost predicate Recording(s: Sys<()>, lib: Lib, infos: nat -> string, w: Wid, e: AuditEvent) {
    w in s.writers && s.writers[w].phase.Won? && s.writers[w].plan == AuditPlan(BodyOf(lib, e), infos)
  }

  lemma RecordedLater(first: Ref, before: seq<Action<()>>, after: seq<Action<()>>, lib: Lib, labels: nat -> nat -> string,
                      ids: seq<Wid>, es: seq<AuditEvent>)
    requires before <= after && Recorded(Run(Init(first), before), lib, labels, ids, es)
    ensures Recorded(Run(Init(first), after), lib, labels, ids, es)
  {
    hide Run, BodyOf, AuditPlan;
    assert after[..|before|] == before;
    RunInTwo(Init<()>(first), after, |before|);
    RunExtends(Run(Init(first), before), after[|before|..]);
    forall i | 0 <= i < |ids| ensures Recording(Run(Init(first), after), lib, labels(i), ids[i], es[i]) {
      assert Recording(Run(Init(first), before), lib, labels(i), ids[i], es[i]);
    }
  }

  lemma LateStep(s: Sys<()>, a: Action<()>, w: Wid)
    ensures w in s.writers ==> w in Next(s, a).writers && Next(s, a).writers[w].startAt == s.writers[w].startAt
    ensures w !in s.writers && w in Next(s, a).writers ==> Next(s, a).writers[w].startAt == |s.log|
  {
  }

  /** A call that joins later starts later. */
  lemma {:induction false} LateStart(s: Sys<()>, acts: seq<Action<()>>, w: Wid)
    requires w !in s.writers && w in Run(s, acts).writers
    ensures |s.log| <= Run(s, acts).writers[w].startAt
    decreases |acts|
  {
    hide Next;
    if acts != [] {
      var k := |acts| - 1;
      RunExtends(s, acts[..k]);
      LateStep(Run(s, acts[..k]), acts[k], w);
      if w in Run(s, acts[..k]).writers { LateStart(s, acts[..k], w); }
    }
  }

  lemma WonAt(first: Ref, acts: seq<Action<()>>, w: Wid)
    requires var s := Run(Init(first), acts); w in s.writers && s.writers[w].phase.Won?
    ensures var s := Run(Init(first), acts); s.writers[w].startAt <= s.writers[w].phase.at < |s.log|
  {
    hide Run;
    InitInv<()>(first);
    RunKeepsInv(Init(first), acts);
    var s := Run(Init(first), acts);
    assert WriterFits(s.first, s.log, w, s.writers[w]);
  }

  lemma RecordedSnoc(first: Ref, before: seq<Action<()>>, after: seq<Action<()>>, lib: Lib, labels: nat -> nat -> string,
                     ids: seq<Wid>, es: seq<AuditEvent>, w: Wid, e: AuditEvent)
    requires before <= after && Recorded(Run(Init(first), before), lib, labels, ids, es)
    requires w !in Run(Init(first), before).writers && Recording(Run(Init(first), after), lib, labels(|ids|), w, e)
    ensures Recorded(Run(Init(first), after), lib, labels, ids + [w], es + [e])
  {
    hide Run, Recording;
    var s, s' := Run(Init(first), before), Run(Init(first), after);
    RecordedLater(first, before, after, lib, labels, ids, es);
    assert after[..|before|] == before;
    RunInTwo(Init<()>(first), after, |before|);
    RunExtends(s, after[|before|..]);
    RecordingWon(s', lib, labels(|ids|), w, e);
    LateStart(s, after[|before|..], w);
    WonAt(first, after, w);
    forall i | 0 <= i < |ids|
      ensures ids[i] in s'.writers && s'.writers[ids[i]].phase.Won? && s'.writers[ids[i]].phase.at < s'.writers[w].phase.at
    {
      RecordingWon(s, lib, labels(i), ids[i], es[i]);
      WonAt(first, before, ids[i]);
    }
  }

  lemma RecordingWon(s: Sys<()>, lib: Lib, infos: nat -> string, w: Wid, e: AuditEvent)
    requires Recording(s, lib, infos, w, e)
    ensures w in s.writers && s.writers[w].phase.Won?
  {
  }

  lemma {:induction false} EventsPrefix(lib: Lib, lines: seq<string>, k: nat)
    requires k <= |lines|
    ensures EventsOf(lib, lines[..k]) <= EventsOf(lib, lines)
    decreases |lines|
  {
    if k == |lines| { PrefixAll(lines); }
    else {
      var n := |lines| - 1;
      EventsPrefix(lib, lines[..n], k);
      assert lines[..n][..k] == lines[..k];
    }
  }

  lemma EventsStep(lib: Lib, lines: seq<string>, k: nat)
    requires k < |lines|
    ensures EventsOf(lib, lines[..k + 1])
            == EventsOf(lib, lines[..k]) + match EventOf(lib, lines[k]) case None => [] case Some(e) => [e]
    ensures EventOf(lib, lines[k]).Some? ==> EventOf(lib, lines[k]).value.kind != ""
  {
    PrefixStep(lines, k);
  }

  lemma NothingRecorded(s: Sys<()>, lib: Lib, labels: nat -> nat -> string)
    ensures EventsOf(lib, []) == [] && Recorded(s, lib, labels, [], []) && Seeded(lib, labels, []) == None
  {
  }

  lemma SeededSnoc(lib: Lib, labels: nat -> nat -> string, es: seq<AuditEvent>, e: AuditEvent)
    ensures Seeded(lib, labels, es + [e]) == Some(Entry(BodyOf(lib, e), Seeded(lib, labels, es), labels(|es|)(0)))
  {
    assert (es + [e])[..|es|] == es;
  }

  /** The chain of a seeded head is one entry per event, in order. */
  lemma {:induction false} SeededChain(lib: Lib, labels: nat -> nat -> string, es: seq<AuditEvent>)
    ensures LinearRef(Seeded(lib, labels, es)) && Trees(ChainOf(Seeded(lib, labels, es))) == TreesOf(lib, es)
    decreases |es|
  {
    hide Chain, Linear, BodyOf, Entry;
    if es != [] {
      var k := |es| - 1;
      var front := Seeded(lib, labels, es[..k]);
      SeededChain(lib, labels, es[..k]);
      EntryChains(BodyOf(lib, es[k]), front, labels(k)(0));
      var entry := Entry(BodyOf(lib, es[k]), front, labels(k)(0));
      assert Trees(ChainOf(front) + [entry]) == Trees(ChainOf(front)) + [entry.tree];
      assert TreesOf(lib, es) == TreesOf(lib, es[..k]) + [map[EVENT_PATH := BodyOf(lib, es[k])]];
    }
  }

  /** The entry's one file is the event itself, or the event at the clock's time if it has none. */
  ghost predicate Holds(lib: Lib, c: Commit, event: AuditEvent) {
    && (event.time != 0 ==> c.tree == map["event.json" := lib.encode(event)])
    && (event.time == 0 ==> c.tree == map["event.json" := lib.encode(event.(time := lib.now))])
  }

  ghost predicate EntryFor(lib: Lib, c: Commit, e: LogEntry) {
    exists event :: Stands(lib, e, event) && Holds(lib, c, event)
  }

  /** One entry for each listed commit, in the order listed. */
  ghost predicate EntriesFor(lib: Lib, cs: seq<Commit>, es: seq<LogEntry>) {
    |cs| == |es| && forall i :: 0 <= i < |es| ==> EntryFor(lib, cs[i], es[i])
  }

  lemma BodyHeld(lib: Lib, c: Commit, event: AuditEvent)
    ensures c.tree == map[EVENT_PATH := BodyOf(lib, event)] <==> Holds(lib, c, event)
  {
    assert forall x, y: Blob :: map[EVENT_PATH := x] == map[EVENT_PATH := y] ==> x == y by {
      forall x, y: Blob | map[EVENT_PATH := x] == map[EVENT_PATH := y] ensures x == y { assert map[EVENT_PATH := x][EVENT_PATH] == x; }
    }
  }

  ghost predicate IsLog(out: string, es: seq<LogEntry>) {
    es != [] && (forall i :: 0 <= i < |es| ==> Printable(es[i])) && out == Printed(es)
  }

  lemma SeededHolds(lib: Lib, labels: nat -> nat -> string, es: seq<AuditEvent>)
    ensures |ChainOf(Seeded(lib, labels, es))| == |es|
    ensures forall i :: 0 <= i < |es| ==> Holds(lib, ChainOf(Seeded(lib, labels, es))[i], es[i])
  {
    hide Seeded, ChainOf, BodyOf;
    SeededChain(lib, labels, es);
    var chain := ChainOf(Seeded(lib, labels, es));
    assert |Trees(chain)| == |TreesOf(lib, es)|;
    forall i | 0 <= i < |es| ensures Holds(lib, chain[i], es[i]) {
      assert Trees(chain)[i] == TreesOf(lib, es)[i];
      BodyHeld(lib, chain[i], es[i]);
    }
  }

  /** The chain seeded from a printed log stands for the commits listed there. */
  lemma SeededFromLog(lib: Lib, labels: nat -> nat -> string, out: string, es: seq<LogEntry>)
    requires IsLog(out, es)
    ensures var events := EventsOf(lib, LinesOf(out));
            |events| == |es| && EntriesFor(lib, ChainOf(Seeded(lib, labels, events)), es)
  {
    hide Seeded, ChainOf, EventsOf, LinesOf, Stands, BodyOf, Printable;
    var events := EventsOf(lib, LinesOf(out));
    LogGivesEvents(lib, es);
    SeededChain(lib, labels, events);
    var chain := ChainOf(Seeded(lib, labels, events));
    assert |Trees(chain)| == |TreesOf(lib, events)|;
    forall i | 0 <= i < |es| ensures EntryFor(lib, chain[i], es[i]) {
      assert Trees(chain)[i] == TreesOf(lib, events)[i];
      BodyHeld(lib, chain[i], events[i]);
      assert Stands(lib, es[i], events[i]);
    }
  }

  class AuditRefStore {
    var head: Ref

    // The ref at the start of the record, and every protocol step since.
    ghost var first: Ref
    ghost var past: seq<Action<()>>

    ghost function State(): Sys<()>
      reads this
    {
      Run(Init(first), past)
    }

    ghost predicate Valid()
      reads this
    {
      head == Current(State())
    }

    /** What others may do between two steps of the call `w`: any of their own steps. Alone, nothing. */
    method Others(ghost w: Wid, ghost alone: bool)
      requires Valid()
      modifies this
      ensures Valid() && first == old(first) && old(past) <= past
      ensures forall i :: |old(past)| <= i < |past| ==> !Concerns(past[i], w)
      ensures alone ==> past == old(past) && head == old(head)
      ensures w in State().writers <==> w in old(State().writers)
      ensures w in State().writers ==> State().writers[w] == old(State()).writers[w]
    {
    }

    ghost method Join(w: Wid, plan: Plan<()>)
      requires Valid() && w !in State().writers
      modifies this`past
      ensures Valid() && past == old(past) + [Start(w, plan)]
      ensures w in State().writers && State().writers[w] == Writer(plan, |old(State()).log|, [], Reading)
    {
      RunSnoc(Init(first), past, Start(w, plan));
      past := past + [Start(w, plan)];
    }

    /** `AuditHead` within the retry loop. */
    method ReadHead(ghost w: Wid) returns (seen: Ref)
      requires Valid() && w in State().writers && State().writers[w].phase.Reading?
      modifies this`past
      ensures Valid() && past == old(past) + [Turn(w)] && seen == head
      ensures w in State().writers && State().writers[w] == ReadStep(old(State()), old(State()).writers[w])
      ensures Current(State()) == head
    {
      seen := head;
      RunSnoc(Init(first), past, Turn(w));
      past := past + [Turn(w)];
    }

    /** `updateRefCASAny`: expecting nothing means the ref must not exist. */
    method UpdateRefAny(ghost w: Wid, next: Commit, want: Ref) returns (ok: bool)
      requires Valid() && w in State().writers
      requires State().writers[w].phase.Swapping? && State().writers[w].phase.seen == want && State().writers[w].phase.next == next
      modifies this`past, this`head
      ensures Valid() && past == old(past) + [Turn(w)]
      ensures ok <==> old(head) == want
      ensures head == if ok then Some(next) else old(head)
      ensures w in State().writers && State().writers[w].plan == old(State()).writers[w].plan
      ensures ok ==> State().writers[w].phase.Won? && State().writers[w].phase.version == next
      ensures !ok ==> State().writers[w] == LoseStep(old(State()), old(State()).writers[w])
    {
      RunSnoc(Init(first), past, Turn(w));
      past := past + [Turn(w)];
      ok := head == want;
      if ok { head := Some(next); }
    }

    /**
     `AppendAudit`. An event without a type is refused; otherwise the call
     takes part as one writer and ends as that writer ends. Undisturbed, it
     puts one entry on the head it found.
     */
    method AppendAudit(ghost w: Wid, ghost alone: bool, lib: Lib, event: AuditEvent, infos: nat -> string)
      returns (r: Result<Commit, AuditError>)
      requires Valid() && w !in State().writers
      modifies this
      ensures Valid() && first == old(first) && old(past) <= past
      ensures event.kind == "" <==> r == Err(TypeRequired)
      ensures event.kind == "" ==> past == old(past) && head == old(head)
      ensures event.kind != "" ==>
                && w in State().writers && State().writers[w].plan == AuditPlan(BodyOf(lib, event), infos)
                && (r.Ok? ==> State().writers[w].phase.Won? && State().writers[w].phase.version == r.value && head == Some(r.value))
                && (r.Err? ==> r == Err(GaveUpRetries) && State().writers[w].phase.GaveUp?)
      ensures event.kind != "" && alone ==> head == Some(Entry(BodyOf(lib, event), old(head), infos(0))) && r.Ok?
      ensures event.kind != "" && alone ==>
                head == Some(Commit(map["event.json" := lib.encode(if event.time == 0 then event.(time := lib.now) else event)],
                                    if old(head).Some? then [old(head).value] else [], infos(0)))
      ensures r.Ok? ==> r.value.tree == map["event.json" := lib.encode(if event.time == 0 then event.(time := lib.now) else event)]
    {
      hide Run;
      if event.kind == "" { return Err(TypeRequired); }
      var body := lib.encode(if event.time == 0 then event.(time := lib.now) else event);
      ghost var plan := AuditPlan(body, infos);
      Join(w, plan);
      var attempt := 0;
      while attempt < MAX_ATTEMPTS
        invariant attempt <= MAX_ATTEMPTS
        invariant Valid() && first == old(first) && old(past) <= past
        invariant w in State().writers && State().writers[w].plan == plan && |State().writers[w].lost| == attempt
        invariant if attempt < MAX_ATTEMPTS then State().writers[w].phase.Reading? else State().writers[w].phase.GaveUp?
        invariant alone ==> attempt == 0 && head == old(head)
      {
        Others(w, alone);
        var seen := ReadHead(w);
        var parents := if seen.Some? then [seen.value] else [];
        var next := Commit(map[EVENT_PATH := body], parents, infos(attempt));
        assert next == Entry(body, seen, infos(attempt));
        assert plan(seen, attempt) == Try(next);
        Others(w, alone);
        var ok := UpdateRefAny(w, next, seen);
        if ok { return Ok(next); }
        attempt := attempt + 1;
      }
      return Err(GaveUpRetries);
    }

    /**
     `SeedAuditFromHistory` on a repository whose default branch is at
     `branch` and whose commit log reads `out`. It writes nothing when there
     are entries already or nothing to list; otherwise one entry per listed
     event, in order, stopping at the first failure. Undisturbed, the chain
     afterwards is exactly those entries; if `out` lists the commits `es`,
     they stand for these. `labels` marks the n-th entry on each attempt.
     */
    method SeedAuditFromHistory(ghost alone: bool, lib: Lib, branch: Ref, out: Option<string>, labels: nat -> nat -> string, ghost es: seq<LogEntry>)
      returns (count: nat, failure: Option<AuditError>, ghost ids: seq<Wid>)
      requires Valid()
      modifies this
      ensures Valid() && first == old(first) && old(past) <= past
      ensures old(head).Some? || branch.None? || out.None? ==> count == 0 && past == old(past) && head == old(head)
      ensures old(head).Some? || branch.None? ==> failure == None
      ensures old(head).None? && branch.Some? && out.None? ==> failure == Some(LogFailed)
      ensures old(head).None? && branch.Some? && out.Some? ==>
                var events := EventsOf(lib, LinesOf(out.value));
                && count <= |events| && (failure == None <==> count == |events|)
                && Recorded(State(), lib, labels, ids, events[..count])
                && (alone ==> failure == None && head == Seeded(lib, labels, events)
                              && |ChainOf(head)| == |events| && forall i :: 0 <= i < |events| ==> Holds(lib, ChainOf(head)[i], events[i]))
      ensures old(head).None? && branch.Some? && out.Some? && IsLog(out.value, es) ==>
                && count <= |es| && (failure == None <==> count == |es|)
                && (alone ==> count == |es| && LinearRef(head) && EntriesFor(lib, ChainOf(head), es))
    {
      hide EventsOf, LinesOf, Recorded, Seeded, EntriesFor, IsLog, ChainOf, Holds;
      ids := [];
      if head.Some? { return 0, None, []; }
      if branch.None? { return 0, None, []; }
      if out.None? { return 0, Some(LogFailed), []; }
      count, failure, ids := AppendLines(alone, lib, LinesOf(out.value), labels);
      SeededChain(lib, labels, EventsOf(lib, LinesOf(out.value)));
      SeededHolds(lib, labels, EventsOf(lib, LinesOf(out.value)));
      if IsLog(out.value, es) { SeededFromLog(lib, labels, out.value, es); }
    }

    /** One event of the log, recorded by a call of its own. */
    method AppendNext(ghost alone: bool, lib: Lib, event: AuditEvent, labels: nat -> nat -> string, n: nat, ghost ids: seq<Wid>, ghost done: seq<AuditEvent>)
      returns (r: Result<Commit, AuditError>, ghost ids': seq<Wid>)
      requires Valid() && event.kind != "" && Recorded(State(), lib, labels, ids, done) && n == |ids|
      modifies this
      ensures Valid() && first == old(first) && old(past) <= past
      ensures Recorded(State(), lib, labels, ids', if r.Ok? then done + [event] else done)
      ensures alone ==> r.Ok? && head == Some(Entry(BodyOf(lib, event), old(head), labels(n)(0)))
    {
      hide Run, Recorded, BodyOf, AuditPlan;
      ghost var w := FreshWriter(State().writers.Keys);
      r := AppendAudit(w, alone, lib, event, labels(n));
      if r.Ok? {
        assert Recording(State(), lib, labels(n), w, event);
        RecordedSnoc(first, old(past), past, lib, labels, ids, done, w, event);
        ids' := ids + [w];
      } else {
        RecordedLater(first, old(past), past, lib, labels, ids, done);
        ids' := ids;
      }
    }

    /** The loop over the lines of the log. */
    method AppendLines(ghost alone: bool, lib: Lib, lines: seq<string>, labels: nat -> nat -> string)
      returns (count: nat, failure: Option<AuditError>, ghost ids: seq<Wid>)
      requires Valid() && head.None?
      modifies this
      ensures Valid() && first == old(first) && old(past) <= past
      ensures var events := EventsOf(lib, lines);
              && count <= |events| && (failure == None <==> count == |events|)
              && Recorded(State(), lib, labels, ids, events[..count])
              && (alone ==> failure == None && head == Seeded(lib, labels, events))
    {
      hide Run, Recording, Seeded, EventOf, EventsOf, BodyOf, Entry;
      count, failure, ids := 0, None, [];
      NothingRecorded(State(), lib, labels);
      for k := 0 to |lines|
        invariant failure == None
        invariant Valid() && first == old(first) && old(past) <= past
        invariant count == |EventsOf(lib, lines[..k])|
        invariant Recorded(State(), lib, labels, ids, EventsOf(lib, lines[..k]))
        invariant alone ==> head == Seeded(lib, labels, EventsOf(lib, lines[..k]))
      {
        ghost var done := EventsOf(lib, lines[..k]);
        EventsStep(lib, lines, k);
        EventsPrefix(lib, lines, k);
        EventsPrefix(lib, lines, k + 1);
        var event := EventOf(lib, lines[k]);
        assert done + [] == done;
        if event.Some? {
          var r;
          r, ids := AppendNext(alone, lib, event.value, labels, count, ids, done);
          if r.Err? {
            assert EventsOf(lib, lines)[..count] == done;
            return count, Some(r.error), ids;
          }
          SeededSnoc(lib, labels, done, event.value);
          count := count + 1;
        }
      }
      PrefixAll(lines);
      PrefixAll(EventsOf(lib, lines));
    }
  }
}
