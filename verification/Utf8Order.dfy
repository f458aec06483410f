/** Sorting by UTF-8 bytes is sorting by characters. */
module Utf8Order {
  import opened Utf8
  import Order

  predicate BytesLess(a: Bytes, b: Bytes)
  {
    b != [] && (a == [] || a[0] < b[0] || (a[0] == b[0] && BytesLess(a[1..], b[1..])))
  }

  lemma {:induction false} BytesLessAsymmetric(a: Bytes, b: Bytes)
    requires BytesLess(a, b)
    ensures !BytesLess(b, a) && a != b
  {
    if a != [] && a[0] == b[0] {
      BytesLessAsymmetric(a[1..], b[1..]);
    }
  }

  /** Decided at the first byte that differs. */
  lemma {:induction false} LessAt(a: Bytes, b: Bytes, k: nat)
    requires k < |a| && k < |b| && a[..k] == b[..k] && a[k] < b[k]
    ensures BytesLess(a, b)
  {
    if k > 0 {
      assert a[..k][0] == a[0] && b[..k][0] == b[0];
      assert a[1..][..k - 1] == a[..k][1..] && b[1..][..k - 1] == b[..k][1..];
      LessAt(a[1..], b[1..], k - 1);
    }
  }

  lemma {:induction false} LessBehind(p: Bytes, a: Bytes, b: Bytes)
    ensures BytesLess(p + a, p + b) <==> BytesLess(a, b)
  {
    if p == [] {
      assert p + a == a && p + b == b;
    } else {
      assert (p + a)[1..] == p[1..] + a && (p + b)[1..] == p[1..] + b;
      LessBehind(p[1..], a, b);
    }
  }

  /** The position at which the bytes of two characters first differ. */
  lemma FirstDifference(c: char, d: char) returns (k: nat)
    requires c < d
    ensures k < |EncodeOne(c)| && k < |EncodeOne(d)|
    ensures EncodeOne(c)[..k] == EncodeOne(d)[..k] && EncodeOne(c)[k] < EncodeOne(d)[k]
  {
    var a, b := EncodeOne(c), EncodeOne(d);
    if a[0] != b[0] {
      k := 0;
    } else if a[1] != b[1] {
      k := 1;
    } else if a[2] != b[2] {
      k := 2;
    } else {
      k := 3;
    }
  }

  lemma {:induction false} CharactersOrdered(c: char, x: Bytes, d: char, y: Bytes)
    requires c < d
    ensures BytesLess(EncodeOne(c) + x, EncodeOne(d) + y)
  {
    hide EncodeOne;
    var k := FirstDifference(c, d);
    var a, b := EncodeOne(c) + x, EncodeOne(d) + y;
    assert a[..k] == EncodeOne(c)[..k] && b[..k] == EncodeOne(d)[..k];
    LessAt(a, b, k);
  }

  lemma {:induction false} TextsOrdered(s: Text, t: Text)
    requires Order.StrLess(s, t)
    ensures BytesLess(Encode(s), Encode(t))
  {
    hide EncodeOne;
    if s == [] {
    } else if s[0] < t[0] {
      CharactersOrdered(s[0], Encode(s[1..]), t[0], Encode(t[1..]));
    } else {
      TextsOrdered(s[1..], t[1..]);
      LessBehind(EncodeOne(s[0]), Encode(s[1..]), Encode(t[1..]));
    }
  }

  /** The order section 1 of RFC 3629 promises: sorting bytes is sorting characters. */
  lemma {:induction false} SameOrder(s: Text, t: Text)
    ensures BytesLess(Encode(s), Encode(t)) <==> Order.StrLess(s, t)
  {
    hide *;
    Order.StrLessTotal(s, t);
    if Order.StrLess(s, t) {
      TextsOrdered(s, t);
    } else if Order.StrLess(t, s) {
      TextsOrdered(t, s);
      BytesLessAsymmetric(Encode(t), Encode(s));
    } else if BytesLess(Encode(s), Encode(t)) {
      BytesLessAsymmetric(Encode(s), Encode(t));
    }
  }
}
