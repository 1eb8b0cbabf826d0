/**
 Record queries (internal/formidable/query.go): the filter condition, the
 in-place insertion sort under a comparator that is not transitive, and the
 limit.
 */
module Query {
  import opened Base
  import opened Json
  import opened Merge
  import opened Schema
  import opened Strings

  // ------------------------------------------------------------ conditions

  datatype Condition = Condition(key: string, op: string, value: string)

  /** `strings.Index`, counted from `from`. */
  function IndexFrom(s: string, sub: string, from: nat): (i: Option<nat>)
    requires from <= |s|
    ensures i.Some? ==> from <= i.value && i.value + |sub| <= |s| && HasPrefix(s[i.value..], sub)
    decreases |s| - from
  {
    if HasPrefix(s[from..], sub) then Some(from)
    else if from == |s| then None
    else IndexFrom(s, sub, from + 1)
  }

  /** The condition read at operator `op`, if `op` occurs behind a non-blank key. */
  function ConditionAt(expr: string, op: string): Option<Condition> {
    match IndexFrom(expr, op, 0)
    case None => None
    case Some(i) =>
      if i == 0 || TrimSpace(expr[..i]) == "" then None
      else Some(Condition(TrimSpace(expr[..i]), op, TrimSpace(expr[i + |op|..])))
  }

  const OPERATORS: seq<string> := [">=", "<=", "!=", "=", ">", "<"]

  /** The first operator, in order of preference, that yields a condition. */
  function FirstCondition(expr: string, ops: seq<string>): Option<Condition> {
    if ops == [] then None
    else if ConditionAt(expr, ops[0]).Some? then ConditionAt(expr, ops[0])
    else FirstCondition(expr, ops[1..])
  }

  ghost predicate StandsAt(expr: string, op: string, n: nat) {
    n + |op| <= |expr| && expr[n..n + |op|] == op
  }

  ghost predicate FirstAt(expr: string, op: string, n: nat) {
    StandsAt(expr, op, n) && forall m: nat :: m < n ==> !StandsAt(expr, op, m)
  }

  /** In front of the first `op` there is a key, which is not blank, and behind it the value; space around them does not count. */
  ghost predicate SplitsInto(expr: string, op: string, key: string, value: string) {
    exists n: nat :: FirstAt(expr, op, n) && key != "" && Trimmed(expr[..n], key) && Trimmed(expr[n + |op|..], value)
  }

  /** `c` is the condition at the operator listed first among those at which there is one. */
  ghost predicate PreferredIn(expr: string, ops: seq<string>, c: Option<Condition>) {
    match c
    case None => forall op, key, value :: op in ops ==> !SplitsInto(expr, op, key, value)
    case Some(d) => exists n :: 0 <= n < |ops| && d.op == ops[n] && SplitsInto(expr, d.op, d.key, d.value)
                      && forall m, key, value :: 0 <= m < n ==> !SplitsInto(expr, ops[m], key, value)
  }

  method ParseCondition(expr: string) returns (c: Option<Condition>)
    ensures c == FirstCondition(expr, OPERATORS)
    ensures PreferredIn(expr, [">=", "<=", "!=", "=", ">", "<"], c)
  {
    FirstConditionMeaning(expr, OPERATORS);
    hide SplitsInto, PreferredIn, TrimSpace, IndexFrom;
    for n := 0 to |OPERATORS|
      invariant FirstCondition(expr, OPERATORS) == FirstCondition(expr, OPERATORS[n..])
    {
      var op := OPERATORS[n];
      var i := IndexFrom(expr, op, 0);
      if i.None? || i.value == 0 { continue; }
      var key := TrimSpace(expr[..i.value]);
      var val := TrimSpace(expr[i.value + |op|..]);
      if key == "" { continue; }
      return Some(Condition(key, op, val));
    }
    return None;
  }

  lemma IndexMeaning(expr: string, op: string, from: nat)
    requires from <= |expr|
    ensures match IndexFrom(expr, op, from)
            case None => forall m :: from <= m ==> !StandsAt(expr, op, m)
            case Some(i) => StandsAt(expr, op, i) && forall m :: from <= m < i ==> !StandsAt(expr, op, m)
    decreases |expr| - from
  {
    if from + |op| <= |expr| { assert expr[from..][..|op|] == expr[from..from + |op|]; }
    if !HasPrefix(expr[from..], op) && from < |expr| { IndexMeaning(expr, op, from + 1); }
  }

  lemma ConditionAtMeaning(expr: string, op: string, key: string, value: string)
    ensures SplitsInto(expr, op, key, value) <==> ConditionAt(expr, op) == Some(Condition(key, op, value))
  {
    hide TrimSpace, Trimmed, IndexFrom;
    forall s, u ensures Trimmed(s, u) <==> TrimSpace(s) == u { TrimMeaning(s, u); }
    assert TrimSpace("") == "" by { BlankTrims(); }
    IndexMeaning(expr, op, 0);
    match IndexFrom(expr, op, 0)
    case None =>
      forall n: nat ensures !FirstAt(expr, op, n) { assert !StandsAt(expr, op, n); }
      NoPlace(expr, op, key, value);
    case Some(i) =>
      assert FirstAt(expr, op, i);
      forall n | FirstAt(expr, op, n) ensures n == i { OneFirst(expr, op, n, i); }
      assert i == 0 ==> expr[..i] == "";
  }

  lemma NoPlace(expr: string, op: string, key: string, value: string)
    requires forall n: nat :: !FirstAt(expr, op, n)
    ensures !SplitsInto(expr, op, key, value)
  {
  }

  lemma BlankTrims()
    ensures TrimSpace("") == ""
  {
  }

  lemma OneFirst(expr: string, op: string, m: nat, n: nat)
    requires FirstAt(expr, op, m) && FirstAt(expr, op, n)
    ensures m == n
  {
  }

  lemma {:induction false} FirstConditionMeaning(expr: string, ops: seq<string>)
    ensures PreferredIn(expr, ops, FirstCondition(expr, ops))
  {
    if ops != [] {
      var op := ops[0];
      forall key, value ensures SplitsInto(expr, op, key, value) <==> ConditionAt(expr, op) == Some(Condition(key, op, value)) {
        ConditionAtMeaning(expr, op, key, value);
      }
      hide SplitsInto;
      FirstConditionMeaning(expr, ops[1..]);
      if ConditionAt(expr, op) == None {
        if FirstCondition(expr, ops[1..]).Some? {
          var d := FirstCondition(expr, ops[1..]).value;
          var n :| 0 <= n < |ops[1..]| && d.op == ops[1..][n] && SplitsInto(expr, d.op, d.key, d.value)
                   && forall m, key, value :: 0 <= m < n ==> !SplitsInto(expr, ops[1..][m], key, value);
          assert d.op == ops[n + 1];
          forall m, key, value | 0 <= m < n + 1 ensures !SplitsInto(expr, ops[m], key, value) {
            if m > 0 { assert ops[m] == ops[1..][m - 1]; }
          }
        }
      }
    }
  }

  predicate IsOperatorChar(c: char) { c == '<' || c == '>' || c == '!' || c == '=' }

  predicate Plain(s: string) {
    TrimSpace(s) == s && forall i :: 0 <= i < |s| ==> !IsOperatorChar(s[i])
  }

  lemma {:induction false} IndexMisses(s: string, op: string, from: nat, until: nat)
    requires from <= until <= |s| && op != ""
    requires forall i :: from <= i < until ==> !HasPrefix(s[i..], op)
    ensures IndexFrom(s, op, from) == IndexFrom(s, op, until)
    decreases until - from
  {
    if from < until { IndexMisses(s, op, from + 1, until); }
  }

  lemma PrefixChars(s: string, i: nat, sub: string)
    requires i <= |s|
    ensures HasPrefix(s[i..], sub) ==> i + |sub| <= |s| && forall n :: 0 <= n < |sub| ==> s[i + n] == sub[n]
  {
    if HasPrefix(s[i..], sub) {
      forall n | 0 <= n < |sub| ensures s[i + n] == sub[n] { assert s[i..][..|sub|][n] == s[i + n]; }
    }
  }

  lemma CharAt(a: string, b: string, c: string, i: nat)
    requires i < |a + b + c|
    ensures (a + b + c)[i]
            == if i < |a| then a[i] else if i < |a| + |b| then b[i - |a|] else c[i - |a| - |b|]
  {
  }

  /** Operator characters of `key op value` are those of `op`. */
  lemma OperatorPlace(key: string, op: string, value: string, i: nat)
    requires Plain(key) && Plain(value)
    requires i < |key + op + value| && IsOperatorChar((key + op + value)[i])
    ensures |key| <= i < |key| + |op| && (key + op + value)[i] == op[i - |key|]
  {
    hide TrimSpace;
    CharAt(key, op, value, i);
  }

  /** Operators before `op` in the order of preference do not occur in `key op value`. */
  lemma EarlierOperatorMisses(key: string, op: string, value: string, other: string)
    requires Plain(key) && Plain(value) && op in OPERATORS && other in OPERATORS
    requires other != op && |op| <= |other|
    ensures IndexFrom(key + op + value, other, 0) == None
  {
    hide Plain, IndexFrom, HasPrefix;
    var s := key + op + value;
    assert |other| == 1 || |other| == 2;
    assert IsOperatorChar(other[0]) && (|other| == 2 ==> IsOperatorChar(other[1]));
    forall i | 0 <= i <= |s| ensures !HasPrefix(s[i..], other) {
      PrefixChars(s, i, other);
      if HasPrefix(s[i..], other) { Misplaced(key, op, value, other, i); }
    }
    IndexMisses(s, other, 0, |s|);
    Exhausted(s, other);
  }

  lemma Exhausted(s: string, op: string)
    requires !HasPrefix(s[|s|..], op)
    ensures IndexFrom(s, op, |s|) == None
  {
  }

  lemma Misplaced(key: string, op: string, value: string, other: string, i: nat)
    requires Plain(key) && Plain(value) && |op| <= |other| && 1 <= |other| <= 2
    requires forall n :: 0 <= n < |other| ==> IsOperatorChar(other[n])
    requires i + |other| <= |key + op + value|
    requires forall n :: 0 <= n < |other| ==> (key + op + value)[i + n] == other[n]
    ensures op == other
  {
    hide Plain;
    var s := key + op + value;
    assert s[i + 0] == other[0];
    OperatorPlace(key, op, value, i);
    if |other| == 2 {
      assert s[i + 1] == other[1];
      OperatorPlace(key, op, value, i + 1);
    }
    assert i == |key| && |op| == |other|;
    forall n | 0 <= n < |op| ensures op[n] == other[n] {
      assert s[i + n] == op[n];
    }
  }

  lemma OperatorFound(key: string, op: string, value: string)
    requires key != "" && Plain(key) && Plain(value) && op in OPERATORS
    ensures ConditionAt(key + op + value, op) == Some(Condition(key, op, value))
  {
    var s := key + op + value;
    forall i | 0 <= i < |key| ensures !HasPrefix(s[i..], op) {
      PrefixChars(s, i, op);
      assert s[i] == key[i];
    }
    IndexMisses(s, op, 0, |key|);
    assert s[|key|..][..|op|] == op;
    assert s[..|key|] == key && s[|key| + |op|..] == value;
  }

  /** `key op value` without operator characters in key or value parses as just that. */
  lemma ConditionRoundTrip(key: string, op: string, value: string)
    requires key != "" && Plain(key) && Plain(value) && op in OPERATORS
    ensures FirstCondition(key + op + value, OPERATORS) == Some(Condition(key, op, value))
  {
    hide Plain, IndexFrom;
    var s := key + op + value;
    OperatorFound(key, op, value);
    var n :| 0 <= n < |OPERATORS| && OPERATORS[n] == op;
    forall m | 0 <= m < n ensures ConditionAt(s, OPERATORS[m]) == None {
      EarlierOperatorMisses(key, op, value, OPERATORS[m]);
    }
    SkipTo(s, OPERATORS, n);
  }

  lemma {:induction false} SkipTo(expr: string, ops: seq<string>, n: nat)
    requires n < |ops|
    requires forall m :: 0 <= m < n ==> ConditionAt(expr, ops[m]) == None
    requires ConditionAt(expr, ops[n]).Some?
    ensures FirstCondition(expr, ops) == ConditionAt(expr, ops[n])
  {
    hide ConditionAt;
    if n > 0 { SkipTo(expr, ops[1..], n - 1); }
  }

  // ------------------------------------------------------------ values

  /** A float64 as far as comparison goes. */
  datatype Float = NaN | NegInf | Finite(r: real) | PosInf

  predicate FloatLess(a: Float, b: Float) {
    match (a, b)
    case (NaN, _) => false
    case (_, NaN) => false
    case (Finite(x), Finite(y)) => x < y
    case (NegInf, _) => b != NegInf
    case (_, PosInf) => a != PosInf
    case _ => false
  }

  /** `strconv.ParseFloat`, and the `%v` form of lists and objects. */
  datatype Numbers = Numbers(parseFloat: string -> Option<Float>, show: Json -> string)

  /** `valueToString`. */
  function Text(lib: Numbers, v: Json): string {
    match v
    case Null => ""
    case Str(s) => s
    case Bool(b) => if b then "true" else "false"
    case Num(t) => t
    case _ => lib.show(v)
  }

  /** `Condition.Match`. */
  predicate Matches(lib: Numbers, c: Condition, r: Record) {
    c.key in r.data
    && var got := Text(lib, r.data[c.key]);
       if c.op == "=" then got == c.value
       else if c.op == "!=" then got != c.value
       else
         match (lib.parseFloat(got), lib.parseFloat(c.value))
         case (Some(x), Some(y)) =>
           if c.op == ">" then FloatLess(y, x)
           else if c.op == ">=" then FloatLess(y, x) || (x == y && x != NaN)
           else if c.op == "<" then FloatLess(x, y)
           else if c.op == "<=" then FloatLess(x, y) || (x == y && x != NaN)
           else false
         case _ => false
  }

  // ------------------------------------------------------------ the comparator

  datatype Order = Order(lib: Numbers, key: string, desc: bool)

  function SortText(o: Order, r: Record): string {
    Text(o.lib, Read(r.data, o.key))
  }

  /** `less`: numeric when both values are numbers, else by text. */
  predicate Before(o: Order, x: Record, y: Record) {
    var a, b := SortText(o, x), SortText(o, y);
    match (o.lib.parseFloat(a), o.lib.parseFloat(b))
    case (Some(p), Some(q)) => if o.desc then FloatLess(q, p) else FloatLess(p, q)
    case _ => if o.desc then Less(b, a) else Less(a, b)
  }

  lemma BeforeAsymmetric(o: Order, x: Record, y: Record)
    requires Before(o, x, y)
    ensures !Before(o, y, x)
  {
    var a, b := SortText(o, x), SortText(o, y);
    if Less(a, b) { LessAsymmetric(a, b); }
    if Less(b, a) { LessAsymmetric(b, a); }
  }

  /** The comparator goes round in a circle on 10, 1a and 9. */
  lemma BeforeNotTransitive(o: Order, x: Record, y: Record, z: Record)
    requires !o.desc
    requires SortText(o, x) == "10" && SortText(o, y) == "1a" && SortText(o, z) == "9"
    requires o.lib.parseFloat("10") == Some(Finite(10.0)) && o.lib.parseFloat("9") == Some(Finite(9.0))
    requires o.lib.parseFloat("1a") == None
    ensures Before(o, x, y) && Before(o, y, z) && Before(o, z, x)
  {
    assert Less("10"[1..], "1a"[1..]);
  }

  // ------------------------------------------------------------ insertion sort

  /** `x` swapped down from the end of `s` while it is before its neighbour. */
  function Insert(o: Order, s: seq<Record>, x: Record): seq<Record> {
    if s == [] || !Before(o, x, s[|s| - 1]) then s + [x]
    else Insert(o, s[..|s| - 1], x) + [s[|s| - 1]]
  }

  function InsertionSorted(o: Order, s: seq<Record>): seq<Record> {
    if s == [] then [] else Insert(o, InsertionSorted(o, s[..|s| - 1]), s[|s| - 1])
  }

  /** `sortRecords`: adjacent swaps in place. */
  method SortRecords(o: Order, a: array<Record>)
    modifies a
    ensures a[..] == InsertionSorted(o, old(a[..]))
  {
    hide Before, InsertionSorted;
    ghost var was := a[..];
    SortedPrefix(o, was);
    var i := 1;
    while i < a.Length
      invariant 1 <= i
      invariant i <= a.Length ==> a[..i] == InsertionSorted(o, was[..i]) && a[i..] == was[i..]
      invariant i > a.Length ==> i == 1
    {
      InsertAt(o, a, i);
      SortedStep(o, was, i);
      i := i + 1;
    }
    if a.Length > 0 { PrefixAll(was); PrefixAll(a[..]); }
  }

  lemma SortedPrefix(o: Order, s: seq<Record>)
    ensures s == [] ==> InsertionSorted(o, s) == []
    ensures s != [] ==> InsertionSorted(o, s[..1]) == s[..1]
  {
    if s != [] {
      assert s[..1] == [s[0]];
      assert s[..1][..0] == [];
      assert InsertionSorted(o, []) == [];
    }
  }

  lemma SortedStep(o: Order, s: seq<Record>, i: nat)
    requires i < |s|
    ensures InsertionSorted(o, s[..i + 1]) == Insert(o, InsertionSorted(o, s[..i]), s[i])
  {
    PrefixStep(s, i);
  }

  lemma InsertStep(o: Order, front: seq<Record>, x: Record, j: nat)
    requires j <= |front|
    ensures j == 0 || !Before(o, x, front[j - 1]) ==> Insert(o, front[..j], x) == front[..j] + [x]
    ensures j > 0 && Before(o, x, front[j - 1]) ==>
              Insert(o, front[..j], x) + front[j..] == Insert(o, front[..j - 1], x) + front[j - 1..]
  {
    hide Before;
    if j > 0 {
      assert front[..j][..j - 1] == front[..j - 1];
      assert front[j - 1..] == [front[j - 1]] + front[j..];
    }
  }

  /** The inner loop: element `i` moves down into the sorted front. */
  method InsertAt(o: Order, a: array<Record>, i: nat)
    requires 0 < i < a.Length
    modifies a
    ensures a[..i + 1] == Insert(o, old(a[..i]), old(a[i]))
    ensures a[i + 1..] == old(a[i + 1..])
  {
    hide Before, Insert;
    ghost var front, x := a[..i], a[i];
    var j := i;
    PrefixAll(front);
    while j > 0 && Before(o, a[j], a[j - 1])
      invariant j <= i
      invariant a[..j] == front[..j] && a[j] == x && a[j + 1..i + 1] == front[j..]
      invariant a[i + 1..] == old(a[i + 1..])
      invariant Insert(o, front, x) == Insert(o, front[..j], x) + front[j..]
    {
      InsertStep(o, front, x, j);
      assert front[j - 1..] == [front[j - 1]] + front[j..];
      a[j], a[j - 1] := a[j - 1], a[j];
      j := j - 1;
    }
    InsertStep(o, front, x, j);
    assert a[..i + 1] == a[..j] + [a[j]] + a[j + 1..i + 1];
  }

  // ------------------------------------------------------------ what the sort guarantees

  /** No record is before the one in front of it. */
  ghost predicate NoNeighbourInverted(o: Order, s: seq<Record>) {
    forall i :: 0 < i < |s| ==> !Before(o, s[i], s[i - 1])
  }

  lemma {:induction false} InsertPermutes(o: Order, s: seq<Record>, x: Record)
    ensures multiset(Insert(o, s, x)) == multiset(s) + multiset{x}
  {
    hide Before;
    if s != [] && Before(o, x, s[|s| - 1]) {
      InsertPermutes(o, s[..|s| - 1], x);
      assert s == s[..|s| - 1] + [s[|s| - 1]];
    }
  }

  /** The sort only rearranges. */
  lemma {:induction false} SortPermutes(o: Order, s: seq<Record>)
    ensures multiset(InsertionSorted(o, s)) == multiset(s)
    ensures |InsertionSorted(o, s)| == |s|
  {
    hide Insert;
    if s != [] {
      SortPermutes(o, s[..|s| - 1]);
      InsertPermutes(o, InsertionSorted(o, s[..|s| - 1]), s[|s| - 1]);
      assert s == s[..|s| - 1] + [s[|s| - 1]];
    }
    assert |multiset(InsertionSorted(o, s))| == |multiset(s)|;
  }

  lemma {:induction false} InsertNeighbours(o: Order, s: seq<Record>, x: Record)
    requires NoNeighbourInverted(o, s)
    ensures NoNeighbourInverted(o, Insert(o, s, x))
    ensures var r := Insert(o, s, x);
            r[|r| - 1] == x || (s != [] && r[|r| - 1] == s[|s| - 1])
    ensures |Insert(o, s, x)| == |s| + 1
  {
    hide Before;
    if s != [] && Before(o, x, s[|s| - 1]) {
      var front, last := s[..|s| - 1], s[|s| - 1];
      InsertNeighbours(o, front, x);
      BeforeAsymmetric(o, x, last);
      var r := Insert(o, front, x);
      assert front != [] ==> front[|front| - 1] == s[|s| - 2];
      assert !Before(o, last, r[|r| - 1]);
    }
  }

  /** Although the comparator is not transitive, no neighbours end up out of order. */
  lemma {:induction false} SortNeighbours(o: Order, s: seq<Record>)
    ensures NoNeighbourInverted(o, InsertionSorted(o, s))
  {
    hide Insert;
    if s != [] {
      SortNeighbours(o, s[..|s| - 1]);
      InsertNeighbours(o, InsertionSorted(o, s[..|s| - 1]), s[|s| - 1]);
    }
  }

  function Select(p: Record -> bool, s: seq<Record>): seq<Record> {
    if s == [] then []
    else Select(p, s[..|s| - 1]) + if p(s[|s| - 1]) then [s[|s| - 1]] else []
  }

  /** Records among which none is before another. */
  ghost predicate Tied(o: Order, p: Record -> bool) {
    forall x, y :: p(x) && p(y) ==> !Before(o, x, y)
  }

  lemma SelectSnoc(p: Record -> bool, s: seq<Record>, x: Record)
    ensures Select(p, s + [x]) == Select(p, s) + if p(x) then [x] else []
  {
    assert (s + [x])[..|s|] == s;
  }

  lemma {:induction false} InsertStable(o: Order, p: Record -> bool, s: seq<Record>, x: Record)
    requires Tied(o, p)
    ensures Select(p, Insert(o, s, x)) == Select(p, s + [x])
  {
    hide Before, Select;
    SelectSnoc(p, s, x);
    if s != [] && Before(o, x, s[|s| - 1]) {
      var front, last := s[..|s| - 1], s[|s| - 1];
      InsertStable(o, p, front, x);
      SelectSnoc(p, front, x);
      SelectSnoc(p, Insert(o, front, x), last);
      SelectSnoc(p, front, last);
      assert s == front + [last];
      if p(x) { assert !p(last); }
    }
  }

  /** Tied records keep the order they came in. */
  lemma {:induction false} SortStable(o: Order, p: Record -> bool, s: seq<Record>)
    requires Tied(o, p)
    ensures Select(p, InsertionSorted(o, s)) == Select(p, s)
  {
    hide Insert, Before;
    if s != [] {
      var front, x := s[..|s| - 1], s[|s| - 1];
      SortStable(o, p, front);
      InsertStable(o, p, InsertionSorted(o, front), x);
      SelectSnoc(p, InsertionSorted(o, front), x);
    }
  }

  /** All sort values are numbers other than NaN, or none is a number. */
  ghost predicate Uniform(o: Order, s: seq<Record>) {
    || (forall r :: r in s ==> o.lib.parseFloat(SortText(o, r)).Some? && o.lib.parseFloat(SortText(o, r)).value != NaN)
    || (forall r :: r in s ==> o.lib.parseFloat(SortText(o, r)) == None)
  }

  /** Among these records "not before" is transitive: the comparator goes round in no circle. */
  ghost predicate NoCircle(o: Order, s: seq<Record>) {
    forall x, y, z :: x in s && y in s && z in s && !Before(o, y, x) && !Before(o, z, y) ==> !Before(o, z, x)
  }

  /** Numbers among themselves, and texts among themselves, make no circle. */
  lemma UniformNoCircle(o: Order, s: seq<Record>)
    requires Uniform(o, s)
    ensures NoCircle(o, s)
  {
    hide Uniform, Before;
    forall x, y, z | x in s && y in s && z in s && !Before(o, y, x) && !Before(o, z, y) ensures !Before(o, z, x) {
      NotBeforeTransitive(o, s, x, y, z);
    }
  }

  lemma NotBeforeTransitive(o: Order, s: seq<Record>, x: Record, y: Record, z: Record)
    requires Uniform(o, s) && x in s && y in s && z in s
    requires !Before(o, y, x) && !Before(o, z, y)
    ensures !Before(o, z, x)
  {
    var a, b, c := SortText(o, x), SortText(o, y), SortText(o, z);
    if o.lib.parseFloat(a) == None {
      LessTotal(a, b);
      LessTotal(b, c);
      if o.desc { NotLessTransitive(c, b, a); } else { NotLessTransitive(a, b, c); }
    }
  }

  lemma NotLessTransitive(a: string, b: string, c: string)
    requires !Less(b, a) && !Less(c, b)
    ensures !Less(c, a)
  {
    LessTotal(a, b);
    LessTotal(b, c);
    if a == b || b == c { } else {
      LessTransitive(a, b, c);
      LessAsymmetric(a, c);
    }
  }

  ghost predicate FullySorted(o: Order, s: seq<Record>) {
    forall i, j :: 0 <= i < j < |s| ==> !Before(o, s[j], s[i])
  }

  lemma {:induction false} NeighboursSuffice(o: Order, s: seq<Record>, i: nat, j: nat)
    requires NoNeighbourInverted(o, s) && NoCircle(o, s) && i < j < |s|
    ensures !Before(o, s[j], s[i])
    decreases j - i
  {
    hide Before;
    if i + 1 < j { NeighboursSuffice(o, s, i, j - 1); }
  }

  /** Where there is no circle the result is sorted throughout. */
  lemma NoCircleSorted(o: Order, s: seq<Record>)
    requires NoCircle(o, s)
    ensures FullySorted(o, InsertionSorted(o, s))
  {
    hide Before, InsertionSorted;
    var r := InsertionSorted(o, s);
    SortPermutes(o, s);
    forall x | x in r ensures x in s { assert x in multiset(r); }
    SortNeighbours(o, s);
    forall i, j | 0 <= i < j < |r| ensures !Before(o, r[j], r[i]) { NeighboursSuffice(o, r, i, j); }
  }

  /** In particular on uniform sort values. */
  lemma UniformSorted(o: Order, s: seq<Record>)
    requires Uniform(o, s)
    ensures FullySorted(o, InsertionSorted(o, s))
  {
    UniformNoCircle(o, s);
    NoCircleSorted(o, s);
  }

  /** `x` stands in front of `z`. */
  ghost predicate InFront(s: seq<Record>, x: Record, z: Record) {
    exists i, j :: 0 <= i < j < |s| && s[i] == x && s[j] == z
  }

  lemma InFrontSnoc(s: seq<Record>, r: Record, x: Record, z: Record)
    ensures InFront(s + [r], x, z) <==> InFront(s, x, z) || (r == z && x in s)
  {
    var t := s + [r];
    if InFront(s, x, z) {
      var i, j :| 0 <= i < j < |s| && s[i] == x && s[j] == z;
      assert t[i] == x && t[j] == z;
    }
    if r == z && x in s {
      var i :| 0 <= i < |s| && s[i] == x;
      assert t[i] == x && t[|s|] == z;
    }
  }

  /** Records already placed keep their relative order. */
  lemma {:induction false} InsertKeepsOrder(o: Order, s: seq<Record>, r: Record, x: Record, z: Record)
    requires InFront(s, x, z)
    ensures InFront(Insert(o, s, r), x, z)
  {
    if s != [] {
      hide Before, InFront;
      var front, last := s[..|s| - 1], s[|s| - 1];
      assert s == front + [last];
      InFrontSnoc(front, last, x, z);
      InFrontSnoc(s, r, x, z);
      InFrontSnoc(Insert(o, front, r), last, x, z);
      InsertPermutes(o, front, r);
      assert x in front ==> x in multiset(Insert(o, front, r));
      if InFront(front, x, z) { InsertKeepsOrder(o, front, r, x, z); }
    }
  }

  lemma {:induction false} SortKeepsOrder(o: Order, t: seq<Record>, n: nat, x: Record, z: Record)
    requires n <= |t| && InFront(InsertionSorted(o, t[..n]), x, z)
    ensures InFront(InsertionSorted(o, t), x, z)
    decreases |t|
  {
    hide Insert, InFront;
    if n == |t| {
      PrefixAll(t);
    } else {
      var k := |t| - 1;
      assert t[..k][..n] == t[..n];
      SortKeepsOrder(o, t[..k], n, x, z);
      InsertKeepsOrder(o, InsertionSorted(o, t[..k]), t[k], x, z);
    }
  }

  /** A circle put first stays as it is: nothing in it is before its neighbour. */
  lemma CircleStays(o: Order, x: Record, y: Record, z: Record)
    requires !Before(o, y, x) && !Before(o, z, y)
    ensures InsertionSorted(o, [x, y, z]) == [x, y, z]
  {
    hide Before;
    assert [x, y, z][..2] == [x, y] && [x, y][..1] == [x] && [x][..0] == [];
    assert InsertionSorted(o, []) == [];
    assert InsertionSorted(o, [x]) == [x];
    assert InsertionSorted(o, [x, y]) == Insert(o, [x], y);
    assert InsertionSorted(o, [x, y, z]) == Insert(o, [x, y], z);
  }

  /** Whatever order these records come in, they come out sorted. */
  ghost predicate AlwaysSorts(o: Order, s: seq<Record>) {
    forall t :: multiset(t) == multiset(s) ==> FullySorted(o, InsertionSorted(o, t))
  }

  /** The same records with three of them first. */
  lemma PutFirst(s: seq<Record>, x: Record, y: Record, z: Record) returns (t: seq<Record>)
    requires x in s && y in s && z in s && x != y && y != z && x != z
    ensures multiset(t) == multiset(s)
    ensures |t| >= 3 && t[..3] == [x, y, z]
  {
    var three := [x, y, z];
    assert x in multiset(s) && y in multiset(s) && z in multiset(s);
    assert multiset(three) <= multiset(s);
    var rest := Listed(multiset(s) - multiset(three));
    t := three + rest;
    assert t[..3] == three;
  }

  lemma CircleFirst(o: Order, s: seq<Record>, x: Record, y: Record, z: Record)
    requires x in s && y in s && z in s
    requires !Before(o, y, x) && !Before(o, z, y) && Before(o, z, x)
    ensures !AlwaysSorts(o, s)
  {
    BeforeAsymmetric(o, z, x);
    hide Before, InsertionSorted, InFront;
    var t := PutFirst(s, x, y, z);
    CircleStays(o, x, y, z);
    ThreeInFront(x, y, z);
    SortKeepsOrder(o, t, 3, x, z);
    OutOfOrder(o, InsertionSorted(o, t), x, z);
  }

  lemma ThreeInFront(x: Record, y: Record, z: Record)
    ensures InFront([x, y, z], x, z)
  {
    assert [x, y, z][0] == x && [x, y, z][2] == z;
  }

  lemma OutOfOrder(o: Order, s: seq<Record>, x: Record, z: Record)
    requires InFront(s, x, z) && Before(o, z, x)
    ensures !FullySorted(o, s)
  {
    hide Before;
  }

  /** The sort is right in every order of the records, exactly if the comparator makes no circle among them. */
  lemma SortsExactly(o: Order, s: seq<Record>)
    ensures AlwaysSorts(o, s) <==> NoCircle(o, s)
  {
    hide Before, InsertionSorted;
    if NoCircle(o, s) {
      forall t | multiset(t) == multiset(s) ensures FullySorted(o, InsertionSorted(o, t)) {
        forall x | x in t ensures x in s { assert x in multiset(t); }
        NoCircleSorted(o, t);
      }
    } else {
      var x, y, z :| x in s && y in s && z in s && !Before(o, y, x) && !Before(o, z, y) && Before(o, z, x);
      CircleFirst(o, s, x, y, z);
    }
  }

  function Valued(v: string): Record { Record(map[], map["size" := Str(v)]) }

  /** Records with the values 10, 1a and 9 come out in just this order, although 9 is before 10. */
  lemma MixedValuesStayUnsorted(lib: Numbers)
    requires lib.parseFloat("10") == Some(Finite(10.0)) && lib.parseFloat("9") == Some(Finite(9.0)) && lib.parseFloat("1a") == None
    ensures var o := Order(lib, "size", false);
            var s := [Valued("10"), Valued("1a"), Valued("9")];
            && InsertionSorted(o, s) == s
            && Before(o, s[2], s[0]) && !FullySorted(o, s)
  {
    var o := Order(lib, "size", false);
    var x, y, z := Valued("10"), Valued("1a"), Valued("9");
    BeforeNotTransitive(o, x, y, z);
    BeforeAsymmetric(o, x, y);
    BeforeAsymmetric(o, y, z);
    CircleStays(o, x, y, z);
  }

  // ------------------------------------------------------------ filtering and limiting

  predicate Wanted(lib: Numbers, where: Option<Condition>, r: Record) {
    where.None? || Matches(lib, where.value, r)
  }

  function OrderOf(lib: Numbers, sortKey: string): Order {
    if HasPrefix(sortKey, "-") then Order(lib, sortKey[1..], true) else Order(lib, sortKey, false)
  }

  function Matching(lib: Numbers, where: Option<Condition>, records: seq<Record>): seq<Record> {
    Select(r => Wanted(lib, where, r), records)
  }

  function Arranged(lib: Numbers, sortKey: string, s: seq<Record>): seq<Record> {
    if sortKey == "" then s else InsertionSorted(OrderOf(lib, sortKey), s)
  }

  function Cut(limit: int, s: seq<Record>): seq<Record> {
    if 0 < limit < |s| then s[..limit] else s
  }

  method FilterRecords(lib: Numbers, records: seq<Record>, where: Option<Condition>, sortKey: string, limit: int)
    returns (out: seq<Record>)
    ensures out == Cut(limit, Arranged(lib, sortKey, Matching(lib, where, records)))
    ensures limit <= 0 ==> forall r :: r in out <==> r in records && (where.None? || Meets(lib, where.value, r))
  {
    hide Wanted, InsertionSorted;
    out := [];
    for i := 0 to |records|
      invariant out == Matching(lib, where, records[..i])
    {
      PrefixStep(records, i);
      if Wanted(lib, where, records[i]) { out := out + [records[i]]; }
    }
    PrefixAll(records);
    if sortKey != "" {
      var a := new Record[|out|](i requires 0 <= i < |out| => out[i]);
      assert a[..] == out;
      SortRecords(OrderOf(lib, sortKey), a);
      out := a[..];
    }
    if limit > 0 && |out| > limit { out := out[..limit]; }
    if limit <= 0 {
      forall r ensures r in out <==> r in records && (where.None? || Meets(lib, where.value, r)) {
        QueryMeaning(lib, records, where, sortKey, limit, r);
      }
    }
  }

  /**
   What a sorted, limited query returns: together with what was cut off it is
   a permutation of the matching records; no kept neighbours are out of
   order; and when the comparator makes no circle among the matching records,
   what is kept is sorted and nothing cut off belongs before anything kept.
   */
  lemma QueryGuarantees(lib: Numbers, records: seq<Record>, where: Option<Condition>, sortKey: string, limit: int)
    requires sortKey != ""
    ensures var o := OrderOf(lib, sortKey);
            var matching := Matching(lib, where, records);
            var all := Arranged(lib, sortKey, matching);
            var kept := Cut(limit, all);
            && kept <= all
            && multiset(kept) + multiset(all[|kept|..]) == multiset(matching)
            && |kept| == (if 0 < limit < |matching| then limit else |matching|)
            && NoNeighbourInverted(o, kept)
            && (NoCircle(o, matching) ==>
                  FullySorted(o, kept)
                  && forall x, y :: x in kept && y in all[|kept|..] ==> !Before(o, y, x))
  {
    hide Before, InsertionSorted, Matching, NoCircle;
    var o := OrderOf(lib, sortKey);
    var matching := Matching(lib, where, records);
    var all := Arranged(lib, sortKey, matching);
    var kept := Cut(limit, all);
    SortPermutes(o, matching);
    SortNeighbours(o, matching);
    assert all == kept + all[|kept|..];
    if NoCircle(o, matching) { NoCircleSorted(o, matching); }
  }

  // ------------------------------------------------------------ what a query means

  /** The text a value shows: itself for texts and numbers, nothing for null, and what the library prints for lists and objects. */
  ghost predicate Shows(lib: Numbers, v: Json, t: string) {
    || (v == Null && t == "") || v == Str(t) || v == Num(t)
    || (v == Bool(true) && t == "true") || (v == Bool(false) && t == "false")
    || ((v.Arr? || v.Obj?) && t == lib.show(v))
  }

  /** `x` is the greater number; NaN is neither greater nor less than anything. */
  ghost predicate Greater(x: Float, y: Float) {
    || (x.Finite? && y.Finite? && x.r > y.r)
    || (x == PosInf && (y.Finite? || y == NegInf))
    || (y == NegInf && x.Finite?)
  }

  ghost predicate Related(op: string, x: Float, y: Float) {
    || (op == ">" && Greater(x, y))
    || (op == "<" && Greater(y, x))
    || (op == ">=" && (Greater(x, y) || (x == y && x != NaN)))
    || (op == "<=" && (Greater(y, x) || (x == y && x != NaN)))
  }

  /** The record has the key, and its value stands in the relation to the value asked for: as texts, or as numbers that both parse. */
  ghost predicate Meets(lib: Numbers, c: Condition, r: Record) {
    && c.key in r.data
    && exists got :: Shows(lib, r.data[c.key], got)
        && if c.op == "=" then got == c.value
           else if c.op == "!=" then got != c.value
           else exists x, y :: lib.parseFloat(got) == Some(x) && lib.parseFloat(c.value) == Some(y) && Related(c.op, x, y)
  }

  lemma TextShows(lib: Numbers, v: Json, t: string)
    ensures Shows(lib, v, t) <==> t == Text(lib, v)
  {
  }

  lemma MatchesMeets(lib: Numbers, c: Condition, r: Record)
    ensures Matches(lib, c, r) <==> Meets(lib, c, r)
  {
    hide Text, Shows;
    if c.key in r.data {
      forall t ensures Shows(lib, r.data[c.key], t) <==> t == Text(lib, r.data[c.key]) { TextShows(lib, r.data[c.key], t); }
      var got := Text(lib, r.data[c.key]);
      if c.op != "=" && c.op != "!=" && lib.parseFloat(got).Some? && lib.parseFloat(c.value).Some? {
        RelatedMeaning(c.op, lib.parseFloat(got).value, lib.parseFloat(c.value).value);
      }
    }
  }

  lemma RelatedMeaning(op: string, x: Float, y: Float)
    ensures FloatLess(y, x) <==> Greater(x, y)
    ensures FloatLess(x, y) <==> Greater(y, x)
  {
  }

  lemma {:induction false} SelectMember(p: Record -> bool, s: seq<Record>, r: Record)
    ensures r in Select(p, s) <==> r in s && p(r)
    ensures multiset(Select(p, s))[r] == if p(r) then multiset(s)[r] else 0
    decreases |s|
  {
    if s != [] {
      var front, last := s[..|s| - 1], s[|s| - 1];
      SelectMember(p, front, r);
      assert s == front + [last];
    }
  }

  /** Without a limit a query returns exactly the records that meet the condition, each as often as it was there. */
  lemma QueryMeaning(lib: Numbers, records: seq<Record>, where: Option<Condition>, sortKey: string, limit: int, r: Record)
    requires limit <= 0
    ensures var out := Cut(limit, Arranged(lib, sortKey, Matching(lib, where, records)));
            && (r in out <==> r in records && (where.None? || Meets(lib, where.value, r)))
            && multiset(out)[r] == if where.None? || Meets(lib, where.value, r) then multiset(records)[r] else 0
  {
    hide Matches, Meets, InsertionSorted;
    if where.Some? { MatchesMeets(lib, where.value, r); }
    SelectMember(x => Wanted(lib, where, x), records, r);
    var matching := Matching(lib, where, records);
    if sortKey != "" { SortPermutes(OrderOf(lib, sortKey), matching); }
    var out := Cut(limit, Arranged(lib, sortKey, matching));
    assert r in out <==> r in multiset(out);
    assert r in matching <==> r in multiset(matching);
  }

  /** Numbers against numbers: each operator by the order of the reals, NaN and texts that do not parse by none. */
  lemma NumericQueryMeaning(lib: Numbers, records: seq<Record>, key: string, op: string, value: string, sortKey: string, r: Record, got: string)
    requires op in [">", ">=", "<", "<="] && r in records && key in r.data && Shows(lib, r.data[key], got)
    ensures var out := Cut(0, Arranged(lib, sortKey, Matching(lib, Some(Condition(key, op, value)), records)));
            && (forall x, y :: lib.parseFloat(got) == Some(Finite(x)) && lib.parseFloat(value) == Some(Finite(y)) ==>
                  (r in out <==> if op == ">" then x > y else if op == ">=" then x >= y else if op == "<" then x < y else x <= y))
            && (lib.parseFloat(got) in {None, Some(NaN)} || lib.parseFloat(value) in {None, Some(NaN)} ==> r !in out)
  {
    hide Shows, Text;
    forall t ensures Shows(lib, r.data[key], t) <==> t == Text(lib, r.data[key]) { TextShows(lib, r.data[key], t); }
    QueryMeaning(lib, records, Some(Condition(key, op, value)), sortKey, 0, r);
  }

  lemma {:induction false} SelectOrder(p: Record -> bool, s: seq<Record>, x: Record, z: Record)
    ensures InFront(Select(p, s), x, z) <==> InFront(s, x, z) && p(x) && p(z)
    decreases |s|
  {
    hide InFront;
    if s == [] {
      NothingInFront(x, z);
    } else {
      var front, last := s[..|s| - 1], s[|s| - 1];
      SelectOrder(p, front, x, z);
      SelectMember(p, front, x);
      InFrontSnoc(front, last, x, z);
      InFrontSnoc(Select(p, front), last, x, z);
      assert s == front + [last] && Select(p, front) + [] == Select(p, front);
    }
  }

  lemma NothingInFront(x: Record, z: Record)
    ensures !InFront([], x, z)
  {
  }

  /** Without a sort key the records keep the order they came in. */
  lemma UnsortedQueryKeepsOrder(lib: Numbers, records: seq<Record>, where: Option<Condition>, x: Record, z: Record)
    requires (where.None? || Meets(lib, where.value, x)) && (where.None? || Meets(lib, where.value, z))
    ensures InFront(Arranged(lib, "", Matching(lib, where, records)), x, z) <==> InFront(records, x, z)
  {
    hide Matches, Meets, InFront;
    if where.Some? {
      MatchesMeets(lib, where.value, x);
      MatchesMeets(lib, where.value, z);
    }
    SelectOrder(r => Wanted(lib, where, r), records, x, z);
  }

  /** The text a record is sorted by: that of its value, and nothing if it lacks the key. */
  ghost predicate SortsBy(lib: Numbers, key: string, r: Record, t: string) {
    if key in r.data then Shows(lib, r.data[key], t) else t == ""
  }

  /**
   A sort key sorts upwards, and downwards behind a minus: numbers by their
   value if all are numbers, texts by their characters if none is.
   */
  lemma SortedQueryMeaning(lib: Numbers, s: seq<Record>, key: string, down: bool, i: nat, j: nat, t: string, u: string)
    requires key != "" && (down || key[0] != '-') && i < j < |s|
    requires Uniform(Order(lib, key, down), s)
    ensures var out := Arranged(lib, if down then "-" + key else key, s);
            |out| == |s| && (SortsBy(lib, key, out[i], t) && SortsBy(lib, key, out[j], u) ==>
              match (lib.parseFloat(t), lib.parseFloat(u))
              case (Some(Finite(x)), Some(Finite(y))) => if down then x >= y else x <= y
              case (None, None) => if down then !Less(t, u) else !Less(u, t)
              case _ => true)
  {
    hide InsertionSorted, Shows, Text, Uniform;
    var o := Order(lib, key, down);
    var sortKey := if down then "-" + key else key;
    assert sortKey[1..] == key || !down;
    SortKeyMeaning(lib, key, down);
    SortPermutes(o, s);
    UniformSorted(o, s);
    var out := InsertionSorted(o, s);
    assert !Before(o, out[j], out[i]);
    SortTextMeaning(o, out[i], t);
    SortTextMeaning(o, out[j], u);
  }

  lemma SortKeyMeaning(lib: Numbers, key: string, down: bool)
    requires key != "" && (down || key[0] != '-')
    ensures OrderOf(lib, if down then "-" + key else key) == Order(lib, key, down)
  {
    if down { assert ("-" + key)[..1] == "-" && ("-" + key)[1..] == key; } else { assert key[..1] == [key[0]]; }
  }

  lemma SortTextMeaning(o: Order, r: Record, t: string)
    ensures SortsBy(o.lib, o.key, r, t) <==> t == SortText(o, r)
  {
    if o.key in r.data { TextShows(o.lib, r.data[o.key], t); }
  }
}
