/**
 * The orders the repository sorts by: strings by code point, tuples of strings by their first difference, and sets of
 * strings as increasing lists, which are unique.
 */
module Order {

  /** Code-point order on strings, as the source language compares them. */
  predicate StrLess(a: string, b: string)
  {
    b != [] && (a == [] || a[0] < b[0] || (a[0] == b[0] && StrLess(a[1..], b[1..])))
  }

  lemma {:induction false} StrLessTransitive(a: string, b: string, c: string)
    requires StrLess(a, b) && StrLess(b, c)
    ensures StrLess(a, c)
  {
    if a != [] && a[0] == b[0] == c[0] {
      StrLessTransitive(a[1..], b[1..], c[1..]);
    }
  }

  lemma {:induction false} StrLessIrreflexive(a: string)
    ensures !StrLess(a, a)
  {
    if a != [] {
      StrLessIrreflexive(a[1..]);
    }
  }

  lemma {:induction false} StrLessAsymmetric(a: string, b: string)
    requires StrLess(a, b)
    ensures !StrLess(b, a) && a != b
  {
    StrLessIrreflexive(a);
    if StrLess(b, a) {
      StrLessTransitive(a, b, a);
    }
  }

  lemma {:induction false} StrLessTotal(a: string, b: string)
    ensures StrLess(a, b) || a == b || StrLess(b, a)
  {
    if a != [] && b != [] && a[0] == b[0] {
      StrLessTotal(a[1..], b[1..]);
      assert a == [a[0]] + a[1..] && b == [b[0]] + b[1..];
    }
  }

  /** Tuple order on sequences of strings. */
  predicate PathLess(p: seq<string>, q: seq<string>)
  {
    q != [] && (p == [] || StrLess(p[0], q[0]) || (p[0] == q[0] && PathLess(p[1..], q[1..])))
  }

  ghost predicate PathLeq(p: seq<string>, q: seq<string>)
  {
    p == q || PathLess(p, q)
  }

  lemma {:induction false} PathLessTransitive(p: seq<string>, q: seq<string>, r: seq<string>)
    requires PathLess(p, q) && PathLess(q, r)
    ensures PathLess(p, r)
  {
    if p != [] {
      if StrLess(p[0], q[0]) && StrLess(q[0], r[0]) {
        StrLessTransitive(p[0], q[0], r[0]);
      } else if p[0] == q[0] == r[0] {
        PathLessTransitive(p[1..], q[1..], r[1..]);
      }
    }
  }

  lemma {:induction false} PathLessIrreflexive(p: seq<string>)
    ensures !PathLess(p, p)
  {
    if p != [] {
      StrLessIrreflexive(p[0]);
      PathLessIrreflexive(p[1..]);
    }
  }

  lemma {:induction false} PathLessTotal(p: seq<string>, q: seq<string>)
    ensures PathLess(p, q) || p == q || PathLess(q, p)
  {
    if p != [] && q != [] {
      StrLessTotal(p[0], q[0]);
      if p[0] == q[0] {
        PathLessTotal(p[1..], q[1..]);
        assert p == [p[0]] + p[1..] && q == [q[0]] + q[1..];
      }
    }
  }

  /** Of two tuples of one length, the order survives appending anything to both. */
  lemma {:induction false} PathLessExtend(p: seq<string>, q: seq<string>, a: string, b: string)
    requires |p| == |q|
    requires PathLess(p, q) || (p == q && StrLess(a, b))
    ensures PathLess(p + [a], q + [b])
  {
    if p != [] {
      assert (p + [a])[1..] == p[1..] + [a] && (q + [b])[1..] == q[1..] + [b];
      if !StrLess(p[0], q[0]) {
        PathLessExtend(p[1..], q[1..], a, b);
      }
    }
  }

  lemma {:induction false} SubsetSize<T>(a: set<T>, b: set<T>)
    requires a <= b
    ensures |a| <= |b|
  {
    if a != {} {
      var x :| x in a;
      SubsetSize(a - {x}, b - {x});
    }
  }

  function Members(s: seq<string>): set<string>
  {
    set x | x in s
  }

  /** Strictly increasing, hence free of duplicates. */
  ghost predicate Increasing(s: seq<string>)
  {
    forall i, j :: 0 <= i < j < |s| ==> StrLess(s[i], s[j])
  }

  ghost predicate IsLeastOf(x: string, s: set<string>)
  {
    x in s && forall y :: y in s && y != x ==> StrLess(x, y)
  }

  lemma {:induction false} LeastExists(s: set<string>)
    requires s != {}
    ensures exists x :: IsLeastOf(x, s)
  {
    var a :| a in s;
    var rest := s - {a};
    if rest == {} {
      assert s == {a};
      assert IsLeastOf(a, s);
    } else {
      LeastExists(rest);
      var b :| IsLeastOf(b, rest);
      StrLessTotal(a, b);
      if StrLess(b, a) {
        assert IsLeastOf(b, s);
      } else {
        forall y | y in s && y != a
          ensures StrLess(a, y)
        {
          if y != b {
            StrLessTransitive(a, b, y);
          }
        }
        assert IsLeastOf(a, s);
      }
    }
  }

  /** `r` lists the members of `s`, each once and in order. */
  ghost predicate IsSorted(r: seq<string>, s: set<string>)
  {
    Increasing(r) && |r| == |s| && Members(r) == s
  }

  /** The sorted list of a set of strings. */
  method SortedNames(s: set<string>) returns (r: seq<string>)
    ensures IsSorted(r, s)
  {
    r := [];
    var rest := s;
    while rest != {}
      invariant Increasing(r)
      invariant rest <= s && |r| + |rest| == |s|
      invariant forall x :: x in r <==> x in s - rest
      invariant forall x, y :: x in r && y in rest ==> StrLess(x, y)
    {
      LeastExists(rest);
      var x :| x in rest && forall y | y in rest :: y != x ==> StrLess(x, y);
      r := r + [x];
      rest := rest - {x};
    }
  }

  /** The least member goes before the sorted others. */
  lemma SortedFirst(x: string, rest: seq<string>, s: set<string>)
    requires IsLeastOf(x, s) && IsSorted(rest, s - {x})
    ensures IsSorted([x] + rest, s)
  {
    var r := [x] + rest;
    forall i, j | 0 <= i < j < |r|
      ensures StrLess(r[i], r[j])
    {
      assert r[j] == rest[j-1] && rest[j-1] in Members(rest);
      if i > 0 {
        assert r[i] == rest[i-1];
      }
    }
    assert forall y :: y in r <==> y == x || y in Members(rest);
    assert Members(r) == {x} + Members(rest);
  }

  lemma {:induction false} SortedExists(s: set<string>) returns (r: seq<string>)
    ensures IsSorted(r, s)
  {
    if s == {} {
      r := [];
    } else {
      LeastExists(s);
      var x :| IsLeastOf(x, s);
      var rest := SortedExists(s - {x});
      SortedFirst(x, rest, s);
      r := [x] + rest;
    }
  }

  /** Two increasing lists with the same members are the same list. */
  lemma {:induction false} IncreasingUnique(r: seq<string>, t: seq<string>)
    requires Increasing(r) && Increasing(t)
    requires forall x :: x in r <==> x in t
    ensures r == t
  {
    assert r != [] ==> r[0] in r;
    assert t != [] ==> t[0] in t;
    if r != [] && t != [] {
      var i :| 0 <= i < |t| && t[i] == r[0];
      var j :| 0 <= j < |r| && r[j] == t[0];
      if i > 0 && j > 0 {
        StrLessAsymmetric(r[0], t[0]);
      }
      StrLessIrreflexive(r[0]);
      forall x
        ensures x in r[1..] <==> x in t[1..]
      {
        if x in r[1..] { assert x in t && x != t[0]; }
        if x in t[1..] { assert x in r && x != r[0]; }
      }
      IncreasingUnique(r[1..], t[1..]);
      assert r == [r[0]] + r[1..] && t == [t[0]] + t[1..];
    }
  }
}
