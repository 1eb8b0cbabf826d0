/**
 Values that follow the latest writer. A slot is an instant, if one is known,
 and a value, if there is one; writers are absorbed one after another, and the
 value goes to a writer that is not earlier than everyone before it, or that
 is the first to have one. Which values can be left at the end, over all
 orders of the writers, is worked out exactly.
 */
module LastWriter {
  import opened Base

  datatype Slot<+V> = Slot(at: Option<int>, value: Option<V>)

  /** An unknown instant counts as earlier than any known one. */
  predicate Earlier(a: Option<int>, b: Option<int>) {
    b.Some? && (a.None? || a.value < b.value)
  }

  function Later(a: Option<int>, b: Option<int>): Option<int> {
    if Earlier(a, b) then b else a
  }

  function Step<V>(s: Slot<V>, c: Slot<V>): Slot<V> {
    Slot(Later(s.at, c.at), if c.value.Some? && (s.value.None? || !Earlier(c.at, s.at)) then c.value else s.value)
  }

  /** What the slot holds after the writers, one after another. */
  function Kept<T, V>(f: T -> Slot<V>, s: Slot<V>, rs: seq<T>): Slot<V> {
    if rs == [] then s else Step(Kept(f, s, rs[..|rs| - 1]), f(rs[|rs| - 1]))
  }

  lemma {:induction false} KeptJoin<T, V>(f: T -> Slot<V>, s: Slot<V>, a: seq<T>, b: seq<T>)
    ensures Kept(f, s, a + b) == Kept(f, Kept(f, s, a), b)
    decreases |b|
  {
    hide Step;
    if b == [] {
      assert a + b == a;
    } else {
      var k := |b| - 1;
      assert (a + b)[..|a + b| - 1] == a + b[..k];
      KeptJoin(f, s, a, b[..k]);
    }
  }

  lemma KeptSnoc<T, V>(f: T -> Slot<V>, s: Slot<V>, rs: seq<T>, c: T)
    ensures Kept(f, s, rs + [c]) == Step(Kept(f, s, rs), f(c))
  {
    assert (rs + [c])[..|rs|] == rs;
  }

  /** The instant is the latest of all, and there is a value as soon as someone has one. */
  lemma {:induction false} KeptLatest<T, V>(f: T -> Slot<V>, s: Slot<V>, rs: seq<T>)
    ensures var e := Kept(f, s, rs);
            && !Earlier(e.at, s.at) && (forall r :: r in rs ==> !Earlier(e.at, f(r).at))
            && (e.at == s.at || exists r :: r in rs && f(r).at == e.at)
            && (e.value.None? <==> s.value.None? && forall r :: r in rs ==> f(r).value.None?)
    decreases |rs|
  {
    if rs != [] {
      var front, c := rs[..|rs| - 1], rs[|rs| - 1];
      KeptLatest(f, s, front);
      assert rs == front + [c];
    }
  }

  /** Later than every writer that brings a value, a value stays. */
  lemma {:induction false} Undisturbed<T, V>(f: T -> Slot<V>, s: Slot<V>, rs: seq<T>)
    requires s.value.Some? || forall r :: r in rs ==> f(r).value.None?
    requires forall r :: r in rs && f(r).value.Some? ==> Earlier(f(r).at, s.at)
    ensures Kept(f, s, rs).value == s.value
    decreases |rs|
  {
    if rs != [] {
      var front, c := rs[..|rs| - 1], rs[|rs| - 1];
      assert rs == front + [c];
      Undisturbed(f, s, front);
      KeptLatest(f, s, front);
    }
  }

  // ------------------------------------------------------------ who can end up there

  /** Someone without a value is later than every writer with one. */
  ghost predicate Overshadowed<T, V>(f: T -> Slot<V>, s: Slot<V>, rs: seq<T>) {
    || (s.value.None? && forall h :: h in rs && f(h).value.Some? ==> Earlier(f(h).at, s.at))
    || (exists l :: l in rs && Shadows(f, rs, l))
  }

  ghost predicate Shadows<T, V>(f: T -> Slot<V>, rs: seq<T>, l: T) {
    f(l).value.None? && forall h :: h in rs && f(h).value.Some? ==> Earlier(f(h).at, f(l).at)
  }

  /** A writer whose value can be left: not earlier than a slot that is filled, and the latest with a value unless that is overshadowed. */
  ghost predicate Contends<T, V>(f: T -> Slot<V>, s: Slot<V>, rs: seq<T>, x: T) {
    && x in rs && f(x).value.Some? && (s.value.Some? ==> !Earlier(f(x).at, s.at))
    && (Overshadowed(f, s, rs) || forall h :: h in rs && f(h).value.Some? ==> !Earlier(f(x).at, f(h).at))
  }

  /** The value the slot began with can be left. */
  ghost predicate Stays<T, V>(f: T -> Slot<V>, s: Slot<V>, rs: seq<T>) {
    && (s.value.Some? || forall h :: h in rs ==> f(h).value.None?)
    && (Overshadowed(f, s, rs) || forall h :: h in rs && f(h).value.Some? ==> Earlier(f(h).at, s.at))
  }

  ghost predicate CanEnd<T, V>(f: T -> Slot<V>, s: Slot<V>, rs: seq<T>, v: Option<V>) {
    (Stays(f, s, rs) && s.value == v) || exists x :: x in rs && Contends(f, s, rs, x) && f(x).value == v
  }

  /** One more writer: whoever could end there still can, if it keeps its place. */
  lemma OneMore<T, V>(f: T -> Slot<V>, s: Slot<V>, front: seq<T>, c: T)
    requires CanEnd(f, s, front, Kept(f, s, front).value)
    ensures CanEnd(f, s, front + [c], Kept(f, s, front + [c]).value)
  {
    var rs, e := front + [c], Kept(f, s, front);
    KeptLatest(f, s, front);
    KeptSnoc(f, s, front, c);
    assert forall r :: r in rs <==> r in front || r == c;
    if f(c).value.None? {
      KeepsShadow(f, s, front, c);
    } else if e.value.None? || !Earlier(f(c).at, e.at) {
      assert Contends(f, s, rs, c);
    } else {
      PassedOver(f, s, front, c);
    }
  }

  lemma KeepsShadow<T, V>(f: T -> Slot<V>, s: Slot<V>, front: seq<T>, c: T)
    requires f(c).value.None?
    ensures Overshadowed(f, s, front) ==> Overshadowed(f, s, front + [c])
    ensures Stays(f, s, front) ==> Stays(f, s, front + [c])
    ensures forall x :: x in front && Contends(f, s, front, x) ==> Contends(f, s, front + [c], x)
  {
    var rs := front + [c];
    assert forall r :: r in rs <==> r in front || r == c;
    if l :| l in front && Shadows(f, front, l) { assert Shadows(f, rs, l); }
  }

  lemma PassedOver<T, V>(f: T -> Slot<V>, s: Slot<V>, front: seq<T>, c: T)
    requires var e := Kept(f, s, front);
             f(c).value.Some? && e.value.Some? && Earlier(f(c).at, e.at) && CanEnd(f, s, front, e.value)
    ensures CanEnd(f, s, front + [c], Kept(f, s, front).value)
  {
    var rs, e := front + [c], Kept(f, s, front);
    KeptLatest(f, s, front);
    assert forall r :: r in rs <==> r in front || r == c;
  }

  /** Whatever is left at the end is one of these values. */
  lemma {:induction false} EndsInOne<T, V>(f: T -> Slot<V>, s: Slot<V>, rs: seq<T>)
    ensures CanEnd(f, s, rs, Kept(f, s, rs).value)
    decreases |rs|
  {
    hide CanEnd, Step;
    if rs == [] {
      NothingYet(f, s);
    } else {
      var front, c := rs[..|rs| - 1], rs[|rs| - 1];
      EndsInOne(f, s, front);
      OneMore(f, s, front, c);
      assert rs == front + [c];
    }
  }

  lemma NothingYet<T, V>(f: T -> Slot<V>, s: Slot<V>)
    ensures CanEnd(f, s, [], Kept(f, s, []).value)
  {
    assert Stays(f, s, []);
  }

  // ------------------------------------------------------------ and that each of them can

  lemma TakeOut<T>(rs: seq<T>, xs: seq<T>) returns (rest: seq<T>)
    requires multiset(xs) <= multiset(rs)
    ensures multiset(xs + rest) == multiset(rs) && multiset(rest + xs) == multiset(rs)
    ensures forall r :: r in rest ==> r in rs
  {
    rest := Listed(multiset(rs) - multiset(xs));
    forall r | r in rest ensures r in rs { assert r in multiset(rest); }
  }

  lemma TwoIn<T>(rs: seq<T>, x: T, y: T)
    requires x in rs && y in rs && x != y
    ensures multiset([x, y]) <= multiset(rs) && multiset([y, x]) <= multiset(rs)
  {
    assert x in multiset(rs) && y in multiset(rs);
  }

  lemma KeptTwo<T, V>(f: T -> Slot<V>, s: Slot<V>, x: T, y: T)
    ensures Kept(f, s, [x]) == Step(s, f(x)) && Kept(f, s, [x, y]) == Step(Step(s, f(x)), f(y))
  {
    assert [x][..0] == [] && [x, y][..1] == [x];
    assert Kept(f, s, [x]) == Step(s, f(x));
  }

  /** Some order leaves the value the slot began with. */
  lemma StaysReached<T, V>(f: T -> Slot<V>, s: Slot<V>, rs: seq<T>) returns (t: seq<T>)
    requires Stays(f, s, rs)
    ensures multiset(t) == multiset(rs) && Kept(f, s, t).value == s.value
  {
    if s.value.None? || forall h :: h in rs && f(h).value.Some? ==> Earlier(f(h).at, s.at) {
      t := rs;
      Undisturbed(f, s, rs);
    } else {
      var l :| l in rs && Shadows(f, rs, l);
      assert l in multiset(rs);
      var rest := TakeOut(rs, [l]);
      t := [l] + rest;
      KeptTwo(f, s, l, l);
      KeptJoin(f, s, [l], rest);
      Undisturbed(f, Step(s, f(l)), rest);
    }
  }

  /** Some order leaves the value of a given contender. */
  lemma ContenderReached<T, V>(f: T -> Slot<V>, s: Slot<V>, rs: seq<T>, x: T) returns (t: seq<T>)
    requires Contends(f, s, rs, x)
    ensures multiset(t) == multiset(rs) && Kept(f, s, t).value == f(x).value
  {
    assert x in multiset(rs);
    if l :| l in rs && Shadows(f, rs, l) {
      t := PastShadow(f, s, rs, x, l);
    } else if Overshadowed(f, s, rs) {
      var rest := TakeOut(rs, [x]);
      t := [x] + rest;
      KeptTwo(f, s, x, x);
      KeptJoin(f, s, [x], rest);
      Undisturbed(f, Step(s, f(x)), rest);
    } else {
      var rest := TakeOut(rs, [x]);
      t := rest + [x];
      KeptSnoc(f, s, rest, x);
      KeptLatest(f, s, rest);
      forall r | r in rs ensures !Earlier(f(x).at, f(r).at) { assert !Shadows(f, rs, r); }
    }
  }

  /** Behind a contender, or in front of it where nothing is there yet, the one that overshadows keeps the others out. */
  lemma PastShadow<T, V>(f: T -> Slot<V>, s: Slot<V>, rs: seq<T>, x: T, l: T) returns (t: seq<T>)
    requires Contends(f, s, rs, x) && l in rs && Shadows(f, rs, l)
    ensures multiset(t) == multiset(rs) && Kept(f, s, t).value == f(x).value
  {
    TwoIn(rs, x, l);
    var two := if s.value.Some? then [x, l] else [l, x];
    var rest := TakeOut(rs, two);
    t := two + rest;
    KeptTwo(f, s, two[0], two[1]);
    KeptJoin(f, s, two, rest);
    Undisturbed(f, Kept(f, s, two), rest);
  }

  ghost predicate Reachable<T(!new), V>(f: T -> Slot<V>, s: Slot<V>, rs: seq<T>, v: Option<V>) {
    exists t :: multiset(t) == multiset(rs) && Kept(f, s, t).value == v
  }

  lemma CanEndAnyOrder<T, V>(f: T -> Slot<V>, s: Slot<V>, rs: seq<T>, t: seq<T>, v: Option<V>)
    requires multiset(rs) == multiset(t)
    ensures CanEnd(f, s, rs, v) ==> CanEnd(f, s, t, v)
  {
    forall r ensures r in rs <==> r in t { assert r in multiset(rs) <==> r in multiset(t); }
    assert forall l :: l in rs && Shadows(f, rs, l) ==> Shadows(f, t, l);
    assert Overshadowed(f, s, rs) == Overshadowed(f, s, t) by { if l :| l in t && Shadows(f, t, l) { assert Shadows(f, rs, l); } }
    if x :| x in rs && Contends(f, s, rs, x) && f(x).value == v { assert Contends(f, s, t, x); }
  }

  /** Over all orders of the writers, exactly these values can be left at the end. */
  lemma EndingsExactly<T(!new), V>(f: T -> Slot<V>, s: Slot<V>, rs: seq<T>, v: Option<V>)
    ensures Reachable(f, s, rs, v) <==> CanEnd(f, s, rs, v)
  {
    hide Kept, Contends, Stays;
    if t :| multiset(t) == multiset(rs) && Kept(f, s, t).value == v {
      EndsInOne(f, s, t);
      CanEndAnyOrder(f, s, t, rs, v);
    }
    if CanEnd(f, s, rs, v) {
      if Stays(f, s, rs) && s.value == v {
        var t := StaysReached(f, s, rs);
      } else {
        var x :| x in rs && Contends(f, s, rs, x) && f(x).value == v;
        var t := ContenderReached(f, s, rs, x);
      }
    }
  }

  ghost predicate SameInEveryOrder<T(!new), V>(f: T -> Slot<V>, s: Slot<V>, rs: seq<T>) {
    forall t :: multiset(t) == multiset(rs) ==> Kept(f, s, t).value == Kept(f, s, rs).value
  }

  /** No two different values can be left. */
  ghost predicate OneEnding<T, V(!new)>(f: T -> Slot<V>, s: Slot<V>, rs: seq<T>) {
    forall v, w :: CanEnd(f, s, rs, v) && CanEnd(f, s, rs, w) ==> v == w
  }

  /** The order does not matter, exactly if only one value can be left. */
  lemma SameExactly<T(!new), V(!new)>(f: T -> Slot<V>, s: Slot<V>, rs: seq<T>)
    ensures SameInEveryOrder(f, s, rs) <==> OneEnding(f, s, rs)
  {
    hide Kept, CanEnd;
    EndsInOne(f, s, rs);
    if SameInEveryOrder(f, s, rs) {
      forall v, w | CanEnd(f, s, rs, v) && CanEnd(f, s, rs, w) ensures v == w {
        EndingsExactly(f, s, rs, v);
        EndingsExactly(f, s, rs, w);
      }
    } else {
      var t :| multiset(t) == multiset(rs) && Kept(f, s, t).value != Kept(f, s, rs).value;
      EndsInOne(f, s, t);
      CanEndAnyOrder(f, s, t, rs, Kept(f, s, t).value);
    }
  }

  /** Where everyone has a value, it is enough to look at the latest writers. */
  lemma SameAmongLatest<T(!new), V(!new)>(f: T -> Slot<V>, s: Slot<V>, rs: seq<T>)
    requires s.value.Some? && forall r :: r in rs ==> f(r).value.Some?
    ensures SameInEveryOrder(f, s, rs)
       <==> forall x, y :: x in rs && y in rs && AmongLatest(f, s, rs, x) && AmongLatest(f, s, rs, y) ==> f(x).value == f(y).value
  {
    SameExactly(f, s, rs);
    forall x | x in rs ensures Contends(f, s, rs, x) <==> AmongLatest(f, s, rs, x) {}
    KeptLatest(f, s, rs);
    StaysAlone(f, s, rs);
    assert forall x :: x in rs && Contends(f, s, rs, x) ==> CanEnd(f, s, rs, f(x).value);
  }

  /** Not earlier than the slot and any writer. */
  ghost predicate AmongLatest<T, V>(f: T -> Slot<V>, s: Slot<V>, rs: seq<T>, x: T) {
    !Earlier(f(x).at, s.at) && forall r :: r in rs ==> !Earlier(f(x).at, f(r).at)
  }

  lemma StaysAlone<T, V>(f: T -> Slot<V>, s: Slot<V>, rs: seq<T>)
    requires s.value.Some? && forall r :: r in rs ==> f(r).value.Some?
    ensures Stays(f, s, rs) ==> forall x :: x in rs ==> !Contends(f, s, rs, x)
  {
  }
}
