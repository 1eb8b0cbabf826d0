/**
 The string library the source leans on: the bytewise order behind
 `sort.Strings`, and the `Split`, `Fields` and `Trim` helpers.
 A `char` is a Unicode scalar value; on those, the bytewise order of the
 UTF-8 forms is the code point order used here.
 */
module Strings {
  // ------------------------------------------------------------------ order

  /** Strict lexicographic order. */
  predicate Less(a: string, b: string) {
    b != "" && (a == "" || a[0] < b[0] || (a[0] == b[0] && Less(a[1..], b[1..])))
  }

  lemma {:induction false} LessAsymmetric(a: string, b: string)
    requires Less(a, b)
    ensures !Less(b, a) && a != b
  {
    if a != "" && a[0] == b[0] {
      LessAsymmetric(a[1..], b[1..]);
    }
  }

  lemma {:induction false} LessTransitive(a: string, b: string, c: string)
    requires Less(a, b) && Less(b, c)
    ensures Less(a, c)
  {
    if a != "" && a[0] == b[0] == c[0] {
      LessTransitive(a[1..], b[1..], c[1..]);
    }
  }

  lemma {:induction false} LessTotal(a: string, b: string)
    ensures a == b || Less(a, b) || Less(b, a)
  {
    if a != "" && b != "" && a[0] == b[0] {
      LessTotal(a[1..], b[1..]);
      assert a == [a[0]] + a[1..] && b == [b[0]] + b[1..];
    }
  }

  lemma NoSharedStart(a: string, b: string)
    requires a != "" && b != "" && a[0] != b[0]
    ensures forall n :: 0 < n <= |a| && n <= |b| ==> a[..n] != b[..n]
  {
    forall n | 0 < n <= |a| && n <= |b| ensures a[..n] != b[..n] { assert a[..n][0] == a[0] && b[..n][0] == b[0]; }
  }

  /** At the first place where they differ the left character is smaller, or the left text ends first. */
  lemma {:induction false} LessMeaning(a: string, b: string)
    ensures Less(a, b) <==> exists n :: 0 <= n <= |a| && n < |b| && a[..n] == b[..n] && (n == |a| || a[n] < b[n])
  {
    if b == "" {
    } else if a == "" {
      assert a[..0] == b[..0];
    } else if a[0] != b[0] {
      assert a[..0] == b[..0];
      NoSharedStart(a, b);
    } else {
      LessMeaning(a[1..], b[1..]);
      if n :| 0 <= n <= |a[1..]| && n < |b[1..]| && a[1..][..n] == b[1..][..n] && (n == |a[1..]| || a[1..][n] < b[1..][n]) {
        assert a[..n + 1] == [a[0]] + a[1..][..n] && b[..n + 1] == [b[0]] + b[1..][..n];
      }
      if n :| 0 < n <= |a| && n < |b| && a[..n] == b[..n] && (n == |a| || a[n] < b[n]) {
        assert a[1..][..n - 1] == a[..n][1..] && b[1..][..n - 1] == b[..n][1..];
      }
    }
  }

  ghost predicate StrictlySorted(s: seq<string>) {
    forall i, j :: 0 <= i < j < |s| ==> Less(s[i], s[j])
  }

  predicate IsLeast(m: string, s: set<string>) {
    m in s && forall x :: x in s && x != m ==> Less(m, x)
  }

  lemma {:induction false} LeastExists(s: set<string>) returns (m: string)
    requires s != {}
    ensures IsLeast(m, s)
    decreases |s|
  {
    m :| m in s;
    if s != {m} {
      var rest := s - {m};
      assert s == rest + {m};
      var r := LeastExists(rest);
      LessTotal(m, r);
      if Less(m, r) {
        forall x | x in s && x != m ensures Less(m, x) {
          if x != r { LessTransitive(m, r, x); }
        }
      } else {
        m := r;
      }
    }
  }

  lemma LeastUnique(m: string, n: string, s: set<string>)
    requires IsLeast(m, s) && IsLeast(n, s)
    ensures m == n
  {
    if m != n { LessAsymmetric(m, n); }
  }

  /** The elements of `s` in `sort.Strings` order. */
  function Sorted(s: set<string>): (r: seq<string>)
    decreases |s|
  {
    if s == {} then [] else
      assert exists m :: IsLeast(m, s) by { var m := LeastExists(s); }
      assert forall m, n | IsLeast(m, s) && IsLeast(n, s) :: m == n by {
        forall m, n | IsLeast(m, s) && IsLeast(n, s) ensures m == n { LeastUnique(m, n, s); }
      }
      var m :| IsLeast(m, s);
      [m] + Sorted(s - {m})
  }

  lemma {:induction false} SortedSpec(s: set<string>)
    ensures StrictlySorted(Sorted(s))
    ensures forall x :: x in Sorted(s) <==> x in s
    ensures |Sorted(s)| == |s|
    decreases |s|
  {
    if s != {} {
      var m := SortedStep(s);
      hide Sorted;
      SortedSpec(s - {m});
      LeastFirst(m, Sorted(s - {m}), s);
    }
  }

  lemma SortedStep(s: set<string>) returns (m: string)
    requires s != {}
    ensures IsLeast(m, s) && Sorted(s) == [m] + Sorted(s - {m})
  {
    assert exists n :: IsLeast(n, s) by { var n := LeastExists(s); }
    m := Sorted(s)[0];
  }

  lemma LeastFirst(m: string, rest: seq<string>, s: set<string>)
    requires IsLeast(m, s) && StrictlySorted(rest) && |rest| == |s - {m}|
    requires forall x :: x in rest <==> x in s - {m}
    ensures StrictlySorted([m] + rest) && |[m] + rest| == |s|
    ensures forall x :: x in [m] + rest <==> x in s
  {
    hide Less;
    assert forall j :: 0 <= j < |rest| ==> rest[j] in rest;
    assert |s| == |s - {m}| + 1;
  }

  lemma SortedMembers(s: set<string>)
    ensures forall x :: x in Sorted(s) <==> x in s
  {
    SortedSpec(s);
  }

  lemma SortedStrict(s: set<string>)
    ensures StrictlySorted(Sorted(s))
  {
    SortedSpec(s);
  }

  lemma SomethingShared(a: seq<string>, b: seq<string>)
    requires a != [] && forall x :: x in a ==> x in b
    ensures b != []
  {
    assert a[0] in b;
  }

  /** A strictly sorted sequence is determined by its elements. */
  lemma {:induction false} SortedUnique(a: seq<string>, b: seq<string>)
    requires StrictlySorted(a) && StrictlySorted(b)
    requires forall x :: x in a <==> x in b
    ensures a == b
  {
    if b != [] { SomethingShared(b, a); }
    if a != [] {
      assert a[0] in b;
      var i :| 0 <= i < |b| && b[i] == a[0];
      assert b[0] in a;
      var j :| 0 <= j < |a| && a[j] == b[0];
      if i > 0 {
        assert Less(b[0], b[i]);
        LessAsymmetric(b[0], a[0]);
        assert false;
      }
      forall x ensures x in a[1..] <==> x in b[1..] {
        StrictTail(a, x);
        StrictTail(b, x);
      }
      SortedUnique(a[1..], b[1..]);
      assert a == [a[0]] + a[1..] && b == [b[0]] + b[1..];
    }
  }

  lemma StrictTail(a: seq<string>, x: string)
    requires StrictlySorted(a) && a != []
    ensures x in a[1..] <==> x in a && x != a[0]
  {
    if x in a[1..] {
      var i :| 0 <= i < |a[1..]| && a[1..][i] == x;
      LessAsymmetric(a[0], a[i + 1]);
    }
    if x in a && x != a[0] {
      var i :| 0 <= i < |a| && a[i] == x;
      assert a[1..][i - 1] == x;
    }
  }

  // ------------------------------------------------------- splitting and trimming

  /** `unicode.IsSpace`. */
  predicate IsSpace(c: char) {
    var n := c as int;
    9 <= n <= 13 || n == 0x20 || n == 0x85 || n == 0xA0 || n == 0x1680 || 0x2000 <= n <= 0x200A
    || n == 0x2028 || n == 0x2029 || n == 0x202F || n == 0x205F || n == 0x3000
  }

  function TrimLeft(s: string): string {
    if s != "" && IsSpace(s[0]) then TrimLeft(s[1..]) else s
  }

  function TrimRight(s: string): string {
    if s != "" && IsSpace(s[|s| - 1]) then TrimRight(s[..|s| - 1]) else s
  }

  function TrimSpace(s: string): string {
    TrimRight(TrimLeft(s))
  }

  /** `strings.TrimRight(s, string(c))`. */
  function TrimRightOf(s: string, c: char): string {
    if s != "" && s[|s| - 1] == c then TrimRightOf(s[..|s| - 1], c) else s
  }

  predicate HasPrefix(s: string, p: string) {
    |p| <= |s| && s[..|p|] == p
  }

  /** `strings.Split` on one separator character: never empty. */
  function Split(s: string, sep: char): (r: seq<string>)
    ensures r != []
  {
    if s == "" then [""]
    else
      var rest := Split(s[1..], sep);
      if s[0] == sep then [""] + rest else [[s[0]] + rest[0]] + rest[1..]
  }

  lemma {:induction false} SplitPlain(s: string, sep: char)
    requires sep !in s
    ensures Split(s, sep) == [s]
  {
    if s != "" {
      SplitPlain(s[1..], sep);
      assert s == [s[0]] + s[1..];
    }
  }

  /** A separator between two strings separates their pieces. */
  lemma {:induction false} SplitJoin(a: string, b: string, sep: char)
    ensures Split(a + [sep] + b, sep) == Split(a, sep) + Split(b, sep)
  {
    var s := a + [sep] + b;
    if a == "" {
      assert s[1..] == b;
    } else {
      assert s[1..] == a[1..] + [sep] + b;
      SplitJoin(a[1..], b, sep);
    }
  }

  /** Length of the run of non-space characters at the front of `s`. */
  function WordLength(s: string): (n: nat)
    ensures n <= |s|
    ensures forall i :: 0 <= i < n ==> !IsSpace(s[i])
    ensures n < |s| ==> IsSpace(s[n])
  {
    if s == "" || IsSpace(s[0]) then 0 else 1 + WordLength(s[1..])
  }

  /** `strings.Fields`: the maximal runs of non-space characters. */
  function Fields(s: string): seq<string> {
    if s == "" then []
    else if IsSpace(s[0]) then Fields(s[1..])
    else var n := WordLength(s); [s[..n]] + Fields(s[n..])
  }

  predicate IsWord(s: string) {
    s != "" && forall i :: 0 <= i < |s| ==> !IsSpace(s[i])
  }

  lemma FieldsWord(w: string, rest: string)
    requires IsWord(w) && (rest == "" || IsSpace(rest[0]))
    ensures Fields(w + rest) == [w] + Fields(rest)
  {
    var s := w + rest;
    var n := WordLength(s);
    assert forall i :: 0 <= i < |w| ==> s[i] == w[i];
    assert rest != "" ==> s[|w|] == rest[0];
    assert s[..n] == w && s[n..] == rest;
  }

  /** Space in front does not count, and a blank text has no fields. */
  lemma {:induction false} FieldsBlank(pad: string, rest: string)
    requires forall i :: 0 <= i < |pad| ==> IsSpace(pad[i])
    ensures Fields(pad + rest) == Fields(rest)
    ensures Fields("") == []
  {
    if pad == "" {
      assert pad + rest == rest;
    } else {
      assert (pad + rest)[1..] == pad[1..] + rest;
      FieldsBlank(pad[1..], rest);
    }
  }

  // ------------------------------------------------------- what trimming takes away

  /** The white space of Unicode: controls, the plain and the wide blanks, separators. */
  lemma SpaceMeaning(c: char)
    ensures IsSpace(c) <==>
      || c in "\t\n \r" || c as int in {0xB, 0xC, 0x85, 0xA0, 0x1680, 0x2028, 0x2029, 0x202F, 0x205F, 0x3000}
      || c as int in {0x2000, 0x2001, 0x2002, 0x2003, 0x2004, 0x2005, 0x2006, 0x2007, 0x2008, 0x2009, 0x200A}
  {
  }

  /** `TrimRightOf` takes away every `c` at the end and nothing else. */
  lemma {:induction false} TrimRightOfMeaning(s: string, c: char, u: string)
    ensures TrimRightOf(s, c) == u <==>
      u <= s && (forall i :: |u| <= i < |s| ==> s[i] == c) && (u == "" || u[|u| - 1] != c)
  {
    if s != "" && s[|s| - 1] == c {
      var front := s[..|s| - 1];
      TrimRightOfMeaning(front, c, u);
      if u <= s && u != s { assert u == s[..|u|] == front[..|u|]; }
      if u <= front { assert u == front[..|u|] == s[..|u|]; }
    }
  }

  ghost predicate AllSpace(s: string) { forall i :: 0 <= i < |s| ==> IsSpace(s[i]) }

  /** `u` is `s` without the space on its outside. */
  ghost predicate Trimmed(s: string, u: string) {
    exists l, r :: s == l + u + r && AllSpace(l) && AllSpace(r) && (u == "" || (!IsSpace(u[0]) && !IsSpace(u[|u| - 1])))
  }

  lemma {:induction false} LeftTrimmed(s: string) returns (l: string)
    ensures s == l + TrimLeft(s) && AllSpace(l) && (TrimLeft(s) != "" ==> !IsSpace(TrimLeft(s)[0]))
  {
    l := "";
    if s != "" && IsSpace(s[0]) {
      var rest := LeftTrimmed(s[1..]);
      l := [s[0]] + rest;
    }
  }

  lemma {:induction false} RightTrimmed(s: string) returns (r: string)
    ensures s == TrimRight(s) + r && AllSpace(r) && (TrimRight(s) != "" ==> !IsSpace(TrimRight(s)[|TrimRight(s)| - 1]))
  {
    r := "";
    if s != "" && IsSpace(s[|s| - 1]) {
      var rest := RightTrimmed(s[..|s| - 1]);
      r := rest + [s[|s| - 1]];
    }
  }

  lemma {:induction false} TrimLeftOf(l: string, u: string)
    requires AllSpace(l) && (u == "" || !IsSpace(u[0]))
    ensures TrimLeft(l + u) == u
  {
    if l == "" {
      assert l + u == u;
    } else {
      assert (l + u)[1..] == l[1..] + u;
      TrimLeftOf(l[1..], u);
    }
  }

  lemma {:induction false} TrimRightOfPad(u: string, r: string)
    requires AllSpace(r) && (u == "" || !IsSpace(u[|u| - 1]))
    ensures TrimRight(u + r) == u
  {
    if r == "" {
      assert u + r == u;
    } else {
      assert (u + r)[..|u + r| - 1] == u + r[..|r| - 1];
      TrimRightOfPad(u, r[..|r| - 1]);
    }
  }

  /** `TrimSpace` takes away exactly the space on the outside. */
  lemma TrimExactly(l: string, u: string, r: string)
    requires AllSpace(l) && AllSpace(r) && (u == "" || (!IsSpace(u[0]) && !IsSpace(u[|u| - 1])))
    ensures TrimSpace(l + u + r) == u
  {
    if u == "" {
      assert l + u + r == (l + r) + "";
      TrimLeftOf(l + r, "");
    } else {
      assert l + u + r == l + (u + r);
      TrimLeftOf(l, u + r);
      TrimRightOfPad(u, r);
    }
  }

  lemma {:induction false} TrimKeepsFirst(s: string)
    ensures TrimRight(s) != "" ==> s != "" && TrimRight(s)[0] == s[0]
  {
    if s != "" && IsSpace(s[|s| - 1]) { TrimKeepsFirst(s[..|s| - 1]); }
  }

  lemma TrimMeaning(s: string, u: string)
    ensures Trimmed(s, u) <==> TrimSpace(s) == u
  {
    if Trimmed(s, u) {
      var l, r :| s == l + u + r && AllSpace(l) && AllSpace(r) && (u == "" || (!IsSpace(u[0]) && !IsSpace(u[|u| - 1])));
      TrimExactly(l, u, r);
    }
    if TrimSpace(s) == u {
      var l := LeftTrimmed(s);
      var r := RightTrimmed(TrimLeft(s));
      assert s == l + u + r;
      TrimKeepsFirst(TrimLeft(s));
    }
  }
}
