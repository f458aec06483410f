/** Folding line endings, on characters or on bytes. */
module Crlf {
  /** The source's left-to-right, non-overlapping replacement. */
  function Fold<T(==)>(s: seq<T>, cr: T, lf: T): (r: seq<T>)
    ensures |r| <= |s|
  {
    if s == [] then []
    else if |s| >= 2 && s[0] == cr && s[1] == lf then [lf] + Fold(s[2..], cr, lf)
    else [s[0]] + Fold(s[1..], cr, lf)
  }

  predicate PairAt<T(==)>(s: seq<T>, cr: T, lf: T, i: nat)
  {
    i + 1 < |s| && s[i] == cr && s[i + 1] == lf
  }

  ghost predicate HasPair<T>(s: seq<T>, cr: T, lf: T)
  {
    exists i: nat :: PairAt(s, cr, lf, i)
  }

  /** A pair with one more carriage return before it. */
  predicate DoubledAt<T(==)>(s: seq<T>, cr: T, lf: T, i: nat)
  {
    PairAt(s, cr, lf, i + 1) && s[i] == cr
  }

  ghost predicate HasDoubled<T>(s: seq<T>, cr: T, lf: T)
  {
    exists i: nat :: DoubledAt(s, cr, lf, i)
  }

  /** Prefixing one element that does not start a pair. */
  lemma PairBehind<T>(x: T, s: seq<T>, cr: T, lf: T)
    ensures HasPair([x] + s, cr, lf) <==> PairAt([x] + s, cr, lf, 0) || HasPair(s, cr, lf)
  {
    if HasPair([x] + s, cr, lf) && !PairAt([x] + s, cr, lf, 0) {
      var i: nat :| PairAt([x] + s, cr, lf, i);
      assert PairAt(s, cr, lf, i - 1);
    }
    if HasPair(s, cr, lf) {
      var i: nat :| PairAt(s, cr, lf, i);
      assert PairAt([x] + s, cr, lf, i + 1);
    }
  }

  lemma DoubledBehind<T>(x: T, s: seq<T>, cr: T, lf: T)
    ensures HasDoubled([x] + s, cr, lf) <==> DoubledAt([x] + s, cr, lf, 0) || HasDoubled(s, cr, lf)
  {
    if HasDoubled([x] + s, cr, lf) && !DoubledAt([x] + s, cr, lf, 0) {
      var i: nat :| DoubledAt([x] + s, cr, lf, i);
      assert DoubledAt(s, cr, lf, i - 1);
    }
    if HasDoubled(s, cr, lf) {
      var i: nat :| DoubledAt(s, cr, lf, i);
      assert DoubledAt([x] + s, cr, lf, i + 1);
    }
  }

  /** One pass is not always enough: a pair is left exactly where one was preceded by another carriage return. */
  lemma {:induction false} PairLeft<T>(s: seq<T>, cr: T, lf: T)
    requires cr != lf
    ensures HasPair(Fold(s, cr, lf), cr, lf) <==> HasDoubled(s, cr, lf)
    decreases |s|
  {
    if s == [] {
    } else if PairAt(s, cr, lf, 0) {
      PairLeft(s[2..], cr, lf);
      PairBehind(lf, Fold(s[2..], cr, lf), cr, lf);
      assert s == [cr] + ([lf] + s[2..]);
      DoubledBehind(cr, [lf] + s[2..], cr, lf);
      DoubledBehind(lf, s[2..], cr, lf);
    } else {
      PairLeft(s[1..], cr, lf);
      PairBehind(s[0], Fold(s[1..], cr, lf), cr, lf);
      assert s == [s[0]] + s[1..];
      DoubledBehind(s[0], s[1..], cr, lf);
      var rest := Fold(s[1..], cr, lf);
      assert s[0] == cr && rest != [] && rest[0] == lf ==> DoubledAt(s, cr, lf, 0);
      if DoubledAt(s, cr, lf, 0) {
        assert PairAt(s[1..], cr, lf, 0);
        assert PairAt([s[0]] + rest, cr, lf, 0);
      }
    }
  }

  /** The shortest input on which one pass leaves a pair. */
  lemma PairSurvives<T>(cr: T, lf: T)
    requires cr != lf
    ensures Fold([cr, cr, lf], cr, lf) == [cr, lf] && HasPair([cr, lf], cr, lf)
  {
    assert [cr, cr, lf][1..] == [cr, lf] && [cr, lf][2..] == [];
    assert Fold([cr, lf], cr, lf) == [lf];
    assert PairAt([cr, lf], cr, lf, 0);
  }

  /** Text without pairs, and no other, is left alone. */
  lemma {:induction false} FoldKeeps<T>(s: seq<T>, cr: T, lf: T)
    ensures Fold(s, cr, lf) == s <==> !HasPair(s, cr, lf)
  {
    if s != [] {
      assert s == [s[0]] + s[1..];
      PairBehind(s[0], s[1..], cr, lf);
      FoldKeeps(s[1..], cr, lf);
      if PairAt(s, cr, lf, 0) {
        assert |Fold(s, cr, lf)| < |s|;
      } else {
        assert Fold(s, cr, lf)[1..] == Fold(s[1..], cr, lf);
      }
    }
  }

  /** A second pass changes something exactly where a carriage return stood before a pair. */
  lemma {:induction false} FoldTwice<T>(s: seq<T>, cr: T, lf: T)
    requires cr != lf
    ensures Fold(Fold(s, cr, lf), cr, lf) == Fold(s, cr, lf) <==> !HasDoubled(s, cr, lf)
  {
    hide Fold, HasPair, HasDoubled;
    PairLeft(s, cr, lf);
    FoldKeeps(Fold(s, cr, lf), cr, lf);
  }
}
