/**
 The compare-and-swap protocol shared by `WriteFile`, `Commit` and
 `AppendAudit`: read the ref, decide, swap if the ref still is what was read,
 at most five times. Any number of writers take turns in any order; other
 hands may move the ref at any time.
 */
module Cas {
  import opened Base
  import opened Dag

  type Wid = nat

  /** A ref: the commit it names, or none while it does not exist. */
  type Ref = Option<Commit>

  const MAX_ATTEMPTS: nat := 5

  /** What a writer makes of the ref it has read: a commit to swap in, or an answer that ends the call. */
  datatype Decision<+R> = Try(next: Commit) | Answer(reply: R)

  /** A writer's decision for a ref on its n-th attempt. */
  type Plan<!R> = (Ref, nat) -> Decision<R>

  /** The moves made before a read and before the swap that followed it. */
  datatype Window = Window(read: nat, swap: nat)

  datatype Phase<R> =
    | Reading
    | Swapping(seen: Ref, next: Commit, readAt: nat)
    | Won(version: Commit, at: nat)
    | Refused(reply: R, seenAt: nat)
    | GaveUp

  datatype Writer<!R> = Writer(plan: Plan<R>, startAt: nat, lost: seq<Window>, phase: Phase<R>)

  /** One move of the ref, by a writer or by someone else. */
  datatype Move = Move(who: Option<Wid>, to: Ref)

  datatype Sys<!R> = Sys(first: Ref, log: seq<Move>, writers: map<Wid, Writer<R>>)

  datatype Action<!R> =
    | Start(w: Wid, plan: Plan<R>)
    | Turn(w: Wid)
    | Push(to: Ref)

  /** The ref after the first `n` moves. */
  function RefAt(first: Ref, log: seq<Move>, n: nat): Ref
    requires n <= |log|
  {
    if n == 0 then first else log[n - 1].to
  }

  function Current<R>(s: Sys<R>): Ref { RefAt(s.first, s.log, |s.log|) }

  // ------------------------------------------------------------ steps

  /** Read the ref and decide. */
  function ReadStep<R>(s: Sys<R>, x: Writer<R>): Writer<R> {
    match x.plan(Current(s), |x.lost|)
    case Try(next) => x.(phase := Swapping(Current(s), next, |s.log|))
    case Answer(reply) => x.(phase := Refused(reply, |s.log|))
  }

  /** A lost race: the window closes, and the fifth one ends the call. */
  function LoseStep<R>(s: Sys<R>, x: Writer<R>): Writer<R>
    requires x.phase.Swapping?
  {
    var lost := x.lost + [Window(x.phase.readAt, |s.log|)];
    x.(lost := lost, phase := if |lost| == MAX_ATTEMPTS then GaveUp else Reading)
  }

  /** One step of writer `w`; a finished writer takes no more steps. */
  function TurnOf<R>(s: Sys<R>, w: Wid): Sys<R>
    requires w in s.writers
  {
    var x := s.writers[w];
    match x.phase
    case Reading => s.(writers := s.writers[w := ReadStep(s, x)])
    case Swapping(seen, next, _) =>
      if Current(s) == seen then
        s.(log := s.log + [Move(Some(w), Some(next))], writers := s.writers[w := x.(phase := Won(next, |s.log|))])
      else s.(writers := s.writers[w := LoseStep(s, x)])
    case _ => s
  }

  function Next<R>(s: Sys<R>, a: Action<R>): Sys<R> {
    match a
    case Start(w, plan) =>
      if w in s.writers then s else s.(writers := s.writers[w := Writer(plan, |s.log|, [], Reading)])
    case Turn(w) => if w in s.writers then TurnOf(s, w) else s
    case Push(to) => s.(log := s.log + [Move(None, to)])
  }

  function Run<R>(s: Sys<R>, acts: seq<Action<R>>): Sys<R> {
    if acts == [] then s else Next(Run(s, acts[..|acts| - 1]), acts[|acts| - 1])
  }

  function Init<R>(first: Ref): Sys<R> { Sys(first, [], map[]) }

  // ------------------------------------------------------------ the invariant

  ghost predicate NoMoveBy(log: seq<Move>, w: Wid) {
    forall i :: 0 <= i < |log| ==> log[i].who != Some(w)
  }

  /** The lost windows lie one after the other within the call. */
  ghost predicate WindowsFit(startAt: nat, lost: seq<Window>, end: nat) {
    && (forall i :: 0 <= i < |lost| ==> startAt <= lost[i].read < lost[i].swap <= end)
    && (forall i, j :: 0 <= i < j < |lost| ==> lost[i].swap <= lost[j].read)
  }

  ghost predicate PhaseFits<R>(first: Ref, log: seq<Move>, w: Wid, x: Writer<R>) {
    match x.phase
    case Reading => |x.lost| < MAX_ATTEMPTS && NoMoveBy(log, w)
    case Swapping(seen, next, readAt) =>
      |x.lost| < MAX_ATTEMPTS && NoMoveBy(log, w)
      && x.startAt <= readAt <= |log| && WindowsFit(x.startAt, x.lost, readAt)
      && RefAt(first, log, readAt) == seen && x.plan(seen, |x.lost|) == Try(next)
    case Won(version, at) =>
      x.startAt <= at < |log| && log[at] == Move(Some(w), Some(version))
      && (forall i :: 0 <= i < |log| && log[i].who == Some(w) ==> i == at)
      && |x.lost| < MAX_ATTEMPTS && x.plan(RefAt(first, log, at), |x.lost|) == Try(version)
    case Refused(reply, seenAt) =>
      NoMoveBy(log, w) && x.startAt <= seenAt <= |log|
      && |x.lost| < MAX_ATTEMPTS && x.plan(RefAt(first, log, seenAt), |x.lost|) == Answer(reply)
    case GaveUp => |x.lost| == MAX_ATTEMPTS && NoMoveBy(log, w)
  }

  ghost predicate WriterFits<R>(first: Ref, log: seq<Move>, w: Wid, x: Writer<R>) {
    x.startAt <= |log| && WindowsFit(x.startAt, x.lost, |log|) && PhaseFits(first, log, w, x)
  }

  ghost predicate Inv<R>(s: Sys<R>) {
    && (forall w :: w in s.writers ==> WriterFits(s.first, s.log, w, s.writers[w]))
    && (forall i :: 0 <= i < |s.log| && s.log[i].who.Some? ==> s.log[i].who.value in s.writers)
  }

  /** Another's move leaves a writer's bookkeeping right. */
  lemma OthersMove<R>(first: Ref, log: seq<Move>, w: Wid, x: Writer<R>, m: Move)
    requires WriterFits(first, log, w, x) && m.who != Some(w)
    ensures WriterFits(first, log + [m], w, x)
  {
    forall n | 0 <= n <= |log| ensures RefAt(first, log + [m], n) == RefAt(first, log, n) {}
  }

  lemma ReadFits<R>(s: Sys<R>, w: Wid)
    requires Inv(s) && w in s.writers && s.writers[w].phase.Reading?
    ensures WriterFits(s.first, s.log, w, ReadStep(s, s.writers[w]))
  {
  }

  lemma LoseFits<R>(s: Sys<R>, w: Wid)
    requires Inv(s) && w in s.writers && s.writers[w].phase.Swapping? && Current(s) != s.writers[w].phase.seen
    ensures WriterFits(s.first, s.log, w, LoseStep(s, s.writers[w]))
  {
    hide NoMoveBy;
    var x := s.writers[w];
    assert WriterFits(s.first, s.log, w, x);
    assert x.phase.readAt < |s.log|;
  }

  lemma WinFits<R>(s: Sys<R>, w: Wid)
    requires Inv(s) && w in s.writers && s.writers[w].phase.Swapping? && Current(s) == s.writers[w].phase.seen
    ensures var x := s.writers[w];
            WriterFits(s.first, s.log + [Move(Some(w), Some(x.phase.next))], w, x.(phase := Won(x.phase.next, |s.log|)))
  {
    var x := s.writers[w];
    assert WriterFits(s.first, s.log, w, x);
    var log' := s.log + [Move(Some(w), Some(x.phase.next))];
    assert RefAt(s.first, log', |s.log|) == Current(s);
  }

  lemma NextKeepsInv<R>(s: Sys<R>, a: Action<R>)
    requires Inv(s)
    ensures Inv(Next(s, a))
  {
    hide WriterFits;
    var s' := Next(s, a);
    if a.Start? && a.w !in s.writers {
      FreshFits(s, a.w, a.plan);
    } else if a.Turn? && a.w in s.writers {
      var x := s.writers[a.w];
      if x.phase.Reading? { ReadFits(s, a.w); }
      else if x.phase.Swapping? && Current(s) != x.phase.seen { LoseFits(s, a.w); }
      else if x.phase.Swapping? {
        WinFits(s, a.w);
        var m := Move(Some(a.w), Some(x.phase.next));
        forall w | w in s.writers && w != a.w ensures WriterFits(s.first, s.log + [m], w, s.writers[w]) {
          OthersMove(s.first, s.log, w, s.writers[w], m);
        }
      }
    } else if a.Push? {
      forall w | w in s.writers ensures WriterFits(s.first, s.log + [Move(None, a.to)], w, s.writers[w]) {
        OthersMove(s.first, s.log, w, s.writers[w], Move(None, a.to));
      }
    }
  }

  lemma FreshFits<R>(s: Sys<R>, w: Wid, plan: Plan<R>)
    requires Inv(s) && w !in s.writers
    ensures WriterFits(s.first, s.log, w, Writer(plan, |s.log|, [], Reading))
  {
  }

  /** The invariant holds after every interleaving. */
  lemma {:induction false} RunKeepsInv<R>(s: Sys<R>, acts: seq<Action<R>>)
    requires Inv(s)
    ensures Inv(Run(s, acts))
    decreases |acts|
  {
    hide Inv, Next;
    if acts != [] {
      RunKeepsInv(s, acts[..|acts| - 1]);
      NextKeepsInv(Run(s, acts[..|acts| - 1]), acts[|acts| - 1]);
    }
  }

  lemma InitInv<R>(first: Ref)
    ensures Inv(Init<R>(first))
  {
  }

  // ------------------------------------------------------------ what every run keeps

  /**
   A call moves the ref at most once; it moves it exactly when it returns
   success, to the version it returns; a call answered with an error or given
   up never moves it.
   */
  lemma OneMovePerCall<R>(first: Ref, acts: seq<Action<R>>, w: Wid)
    ensures var s := Run(Init(first), acts);
            && (forall i, j :: 0 <= i < |s.log| && 0 <= j < |s.log| && s.log[i].who == Some(w) && s.log[j].who == Some(w) ==> i == j)
            && ((exists i :: 0 <= i < |s.log| && s.log[i].who == Some(w)) <==> w in s.writers && s.writers[w].phase.Won?)
            && (w in s.writers && s.writers[w].phase.Won? ==>
                  exists i :: 0 <= i < |s.log| && s.log[i] == Move(Some(w), Some(s.writers[w].phase.version)))
  {
    InitInv<R>(first);
    RunKeepsInv(Init(first), acts);
    var s := Run(Init(first), acts);
    if w in s.writers {
      assert WriterFits(s.first, s.log, w, s.writers[w]);
    }
  }

  /** Every swap replaces just the ref its plan was made for. */
  lemma MovesFollowPlans<R>(first: Ref, acts: seq<Action<R>>, i: nat)
    requires i < |Run(Init(first), acts).log|
    ensures var s := Run(Init(first), acts);
            s.log[i].who.Some? ==>
              && s.log[i].who.value in s.writers
              && exists n: nat :: n < MAX_ATTEMPTS && s.log[i].to.Some?
                  && s.writers[s.log[i].who.value].plan(RefAt(s.first, s.log, i), n) == Try(s.log[i].to.value)
  {
    InitInv<R>(first);
    RunKeepsInv(Init(first), acts);
    var s := Run(Init(first), acts);
    if s.log[i].who.Some? {
      var w := s.log[i].who.value;
      var x := s.writers[w];
      assert WriterFits(s.first, s.log, w, x);
      assert x.phase.Won? && x.phase.at == i;
      assert x.plan(RefAt(s.first, s.log, i), |x.lost|) == Try(s.log[i].to.value);
    }
  }

  /** Five read-to-swap windows, one after the other within the call, in each of which somebody else moved the ref. */
  ghost predicate LostFiveRaces(log: seq<Move>, w: Wid, startAt: nat, lost: seq<Window>) {
    && |lost| == 5
    && (forall i :: 0 <= i < 5 ==> startAt <= lost[i].read < lost[i].swap <= |log|)
    && (forall i, j :: 0 <= i < j < 5 ==> lost[i].swap <= lost[j].read)
    && (forall i :: 0 <= i < 5 ==> forall m :: lost[i].read <= m < lost[i].swap ==> log[m].who != Some(w))
  }

  /** A writer gives up only after losing five races, so only if others moved the ref at least five times during its call. */
  lemma GivingUpTakesFiveMoves<R>(first: Ref, acts: seq<Action<R>>, w: Wid)
    requires var s := Run(Init(first), acts);
             w in s.writers && s.writers[w].phase.GaveUp?
    ensures var s := Run(Init(first), acts);
            && LostFiveRaces(s.log, w, s.writers[w].startAt, s.writers[w].lost)
            && s.writers[w].startAt + 5 <= |s.log|
            && forall m :: s.writers[w].startAt <= m < |s.log| ==> s.log[m].who != Some(w)
  {
    InitInv<R>(first);
    RunKeepsInv(Init(first), acts);
    var s := Run(Init(first), acts);
    var x := s.writers[w];
    assert WriterFits(s.first, s.log, w, x);
    assert x.lost[0].swap <= x.lost[1].read;
    assert x.lost[1].swap <= x.lost[2].read;
    assert x.lost[2].swap <= x.lost[3].read;
    assert x.lost[3].swap <= x.lost[4].read;
  }

  lemma {:induction false} RunInTwo<R>(s: Sys<R>, acts: seq<Action<R>>, n: nat)
    requires n <= |acts|
    ensures Run(s, acts) == Run(Run(s, acts[..n]), acts[n..])
    decreases |acts| - n
  {
    hide Next;
    if n == |acts| {
      PrefixAll(acts);
    } else {
      var k := |acts| - 1;
      RunInTwo(s, acts[..k], n);
      assert acts[..k][..n] == acts[..n];
      assert acts[n..][..|acts[n..]| - 1] == acts[..k][n..];
    }
  }

  lemma NextExtends<R>(s: Sys<R>, a: Action<R>)
    ensures s.log <= Next(s, a).log && Next(s, a).first == s.first
    ensures forall w :: w in s.writers ==>
              w in Next(s, a).writers && Next(s, a).writers[w].plan == s.writers[w].plan
              && Next(s, a).writers[w].startAt == s.writers[w].startAt
    ensures forall w :: w in s.writers && (s.writers[w].phase.Won? || s.writers[w].phase.Refused? || s.writers[w].phase.GaveUp?)
              ==> Next(s, a).writers[w] == s.writers[w]
  {
  }

  /** Moves are never undone, and a finished call stays finished. */
  lemma {:induction false} RunExtends<R>(s: Sys<R>, acts: seq<Action<R>>)
    ensures s.log <= Run(s, acts).log && Run(s, acts).first == s.first
    ensures forall w :: w in s.writers ==> w in Run(s, acts).writers
    ensures forall w :: w in s.writers && (s.writers[w].phase.Won? || s.writers[w].phase.Refused? || s.writers[w].phase.GaveUp?)
              ==> Run(s, acts).writers[w] == s.writers[w]
    decreases |acts|
  {
    hide Next;
    if acts != [] {
      var k := |acts| - 1;
      RunExtends(s, acts[..k]);
      NextExtends(Run(s, acts[..k]), acts[k]);
    }
  }

  // ------------------------------------------------------------ one call among others

  /** A step taken by, or starting, the call `w`. */
  predicate Concerns<R>(a: Action<R>, w: Wid) {
    (a.Start? && a.w == w) || (a.Turn? && a.w == w)
  }

  lemma RunSnoc<R>(s: Sys<R>, acts: seq<Action<R>>, a: Action<R>)
    ensures Run(s, acts + [a]) == Next(Run(s, acts), a)
  {
    assert (acts + [a])[..|acts|] == acts;
  }

  /** Steps that do not concern a call leave it as it is. */
  lemma {:induction false} OthersKeep<R>(s: Sys<R>, acts: seq<Action<R>>, w: Wid)
    requires forall i :: 0 <= i < |acts| ==> !Concerns(acts[i], w)
    ensures w in Run(s, acts).writers <==> w in s.writers
    ensures w in s.writers ==> Run(s, acts).writers[w] == s.writers[w]
    decreases |acts|
  {
    if acts != [] {
      var k := |acts| - 1;
      OthersKeep(s, acts[..k], w);
      assert !Concerns(acts[k], w);
    }
  }

  // ------------------------------------------------------------ history

  /** Whatever the writer swaps in has the ref it replaces among its parents. */
  ghost predicate Attaches<R>(plan: Plan<R>) {
    forall h: Commit, n: nat :: plan(Some(h), n).Try? ==> h in plan(Some(h), n).next.parents
  }

  /** Only writers move the ref, and every writer satisfies `p`. */
  ghost predicate OnlyWriters<R>(acts: seq<Action<R>>, p: Plan<R> -> bool) {
    forall i :: 0 <= i < |acts| ==> !acts[i].Push? && (acts[i].Start? ==> p(acts[i].plan))
  }

  ghost predicate AllWriters<R>(s: Sys<R>, p: Plan<R> -> bool) {
    && (forall w :: w in s.writers ==> p(s.writers[w].plan))
    && (forall i :: 0 <= i < |s.log| ==> s.log[i].who.Some?)
  }

  lemma AllWritersStep<R>(s: Sys<R>, a: Action<R>, p: Plan<R> -> bool)
    requires !a.Push? && (a.Start? ==> p(a.plan))
    requires AllWriters(s, p)
    ensures AllWriters(Next(s, a), p)
  {
  }

  lemma {:induction false} WritersOnly<R>(s: Sys<R>, acts: seq<Action<R>>, p: Plan<R> -> bool)
    requires OnlyWriters(acts, p) && AllWriters(s, p)
    ensures AllWriters(Run(s, acts), p)
    decreases |acts|
  {
    hide Next, AllWriters;
    if acts != [] {
      var k := |acts| - 1;
      WritersOnly(s, acts[..k], p);
      AllWritersStep(Run(s, acts[..k]), acts[k], p);
    }
  }

  ghost predicate LinksUp(first: Ref, log: seq<Move>) {
    forall i :: 0 <= i < |log| && RefAt(first, log, i).Some? ==>
      log[i].to.Some? && RefAt(first, log, i).value in log[i].to.value.parents
  }

  /** Each move of the ref goes to a commit that has the old head as a parent. */
  lemma MovesAttach<R>(first: Ref, acts: seq<Action<R>>)
    requires OnlyWriters(acts, (plan: Plan<R>) => Attaches(plan))
    ensures var s := Run(Init(first), acts);
            LinksUp(s.first, s.log)
  {
    hide Run, Attaches;
    WritersOnly(Init<R>(first), acts, (plan: Plan<R>) => Attaches(plan));
    var s := Run(Init(first), acts);
    forall i | 0 <= i < |s.log| && RefAt(s.first, s.log, i).Some?
      ensures s.log[i].to.Some? && RefAt(s.first, s.log, i).value in s.log[i].to.value.parents
    {
      MovesFollowPlans(first, acts, i);
      var plan := s.writers[s.log[i].who.value].plan;
      var n: nat :| n < MAX_ATTEMPTS && plan(RefAt(s.first, s.log, i), n) == Try(s.log[i].to.value);
      AttachedTry(plan, RefAt(s.first, s.log, i).value, n);
    }
  }

  lemma AttachedTry<R>(plan: Plan<R>, h: Commit, n: nat)
    requires Attaches(plan) && plan(Some(h), n).Try?
    ensures h in plan(Some(h), n).next.parents
  {
  }

  /** Once the ref exists it goes on existing, and every earlier head is an ancestor of every later one. */
  lemma {:induction false} HeadsAreAncestors(first: Ref, log: seq<Move>, i: nat, j: nat)
    requires LinksUp(first, log) && i <= j <= |log| && RefAt(first, log, i).Some?
    ensures RefAt(first, log, j).Some? && Ancestor(RefAt(first, log, i).value, RefAt(first, log, j).value)
    decreases j - i
  {
    if i < j {
      HeadsAreAncestors(first, log, i, j - 1);
      var a, b, c := RefAt(first, log, i).value, RefAt(first, log, j - 1).value, log[j - 1].to.value;
      assert b in c.parents;
      var n :| 0 <= n < |c.parents| && c.parents[n] == b;
      assert Ancestor(b, c.parents[n]);
      AncestorTransitive(a, b, c);
    }
  }

  /**
   Over every interleaving: a version returned as success at some point is an
   ancestor of the head at every later point.
   */
  lemma SuccessIsNeverLost<R>(first: Ref, acts: seq<Action<R>>, n: nat, w: Wid)
    requires n <= |acts| && OnlyWriters(acts, (plan: Plan<R>) => Attaches(plan))
    requires var s := Run(Init(first), acts[..n]);
             w in s.writers && s.writers[w].phase.Won?
    ensures var v := Run(Init(first), acts[..n]).writers[w].phase.version;
            var head := Current(Run(Init(first), acts));
            head.Some? && Ancestor(v, head.value)
  {
    hide Run, Attaches, Inv;
    var s, e := Run(Init(first), acts[..n]), Run(Init(first), acts);
    RunInTwo(Init(first), acts, n);
    RunExtends(s, acts[n..]);
    RunExtends(Init<R>(first), acts);
    OneMovePerCall(first, acts, w);
    MovesAttach(first, acts);
    var i :| 0 <= i < |e.log| && e.log[i] == Move(Some(w), Some(e.writers[w].phase.version));
    HeadsAreAncestors(e.first, e.log, i + 1, |e.log|);
  }
}
