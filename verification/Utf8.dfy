/** UTF-8, and truncation that never splits a character. */
module Utf8 {
  import opened Wrappers
  import Crlf

  type Byte = b: int | 0 <= b < 256

  /** Unicode scalar values, which are what Dafny's characters are. */
  type Text = string

  type Bytes = seq<Byte>

  /** A continuation byte carrying six bits. */
  function Tail(digit: int): Byte
    requires 0 <= digit < 64
  {
    0x80 + digit
  }

  /** The bytes of one character, section 3 of RFC 3629. */
  function EncodeOne(character: char): (b: Bytes)
    ensures 1 <= |b| <= 4
  {
    var c := character as int;
    var q := c / 64;
    var r := q / 64;
    if c < 0x80 then [c]
    else if c < 0x800 then [0xC0 + q, Tail(c % 64)]
    else if c < 0x1_0000 then [0xE0 + r, Tail(q % 64), Tail(c % 64)]
    else [0xF0 + r / 64, Tail(r % 64), Tail(q % 64), Tail(c % 64)]
  }

  function Encode(s: Text): (b: Bytes)
    ensures |b| >= |s|
  {
    if s == [] then [] else EncodeOne(s[0]) + Encode(s[1..])
  }

  predicate Continuation(b: Byte)
  {
    0x80 <= b < 0xC0
  }

  /** Six more bits from a continuation byte. */
  function SixMore(high: int, b: Byte): int
  {
    high * 64 + (b - 0x80)
  }

  /** The character at the front of `b` and the number of its bytes; overlong forms and surrogates are refused. */
  function DecodeOne(b: Bytes): (r: Option<(char, nat)>)
    ensures r.Some? ==> 1 <= r.value.1 <= |b|
  {
    if |b| >= 1 && b[0] < 0x80 then Some((b[0] as char, 1))
    else if |b| >= 2 && 0xC2 <= b[0] < 0xE0 && Continuation(b[1]) then Some((SixMore(b[0] - 0xC0, b[1]) as char, 2))
    else if |b| >= 3 && 0xE0 <= b[0] < 0xF0 && Continuation(b[1]) && Continuation(b[2]) then
      var c := SixMore(SixMore(b[0] - 0xE0, b[1]), b[2]);
      if c < 0x800 || 0xD800 <= c <= 0xDFFF then None else Some((c as char, 3))
    else if |b| >= 4 && 0xF0 <= b[0] < 0xF5 && Continuation(b[1]) && Continuation(b[2]) && Continuation(b[3]) then
      var c := SixMore(SixMore(SixMore(b[0] - 0xF0, b[1]), b[2]), b[3]);
      if c < 0x1_0000 || c > 0x10FFFF then None else Some((c as char, 4))
    else None
  }

  /** Strict decoding: the text, or nothing when some part of `b` is no character. */
  function Decode(b: Bytes): Option<Text>
    decreases |b|
  {
    if b == [] then Some([]) else
    match DecodeOne(b)
    case None => None
    case Some((c, n)) =>
      match Decode(b[n..])
      case None => None
      case Some(rest) => Some([c] + rest)
  }

  lemma SixBits(high: int, b: Byte)
    requires Continuation(b)
    ensures SixMore(high, b) / 64 == high && Tail(SixMore(high, b) % 64) == b
  {
  }

  /** Whatever follows, a character's bytes decode to that character. */
  lemma DecodeEncodedOne(character: char, rest: Bytes)
    ensures DecodeOne(EncodeOne(character) + rest) == Some((character, |EncodeOne(character)|))
  {
  }

  /** A decoded character is encoded by exactly the bytes read. */
  lemma EncodeDecodedOne(b: Bytes)
    requires DecodeOne(b).Some?
    ensures EncodeOne(DecodeOne(b).value.0) == b[..DecodeOne(b).value.1]
  {
    var (c, n) := DecodeOne(b).value;
    if n == 2 {
      SixBits(b[0] - 0xC0, b[1]);
    } else if n == 3 {
      SixBits(b[0] - 0xE0, b[1]);
      SixBits(SixMore(b[0] - 0xE0, b[1]), b[2]);
    } else if n == 4 {
      SixBits(b[0] - 0xF0, b[1]);
      SixBits(SixMore(b[0] - 0xF0, b[1]), b[2]);
      SixBits(SixMore(SixMore(b[0] - 0xF0, b[1]), b[2]), b[3]);
    }
  }

  lemma {:induction false} DecodeEncoded(s: Text)
    ensures Decode(Encode(s)) == Some(s)
  {
    hide DecodeOne, EncodeOne;
    if s != [] {
      DecodeEncodedOne(s[0], Encode(s[1..]));
      assert Encode(s)[|EncodeOne(s[0])|..] == Encode(s[1..]);
      DecodeEncoded(s[1..]);
      assert s == [s[0]] + s[1..];
    }
  }

  lemma {:induction false} EncodeDecoded(b: Bytes)
    requires Decode(b).Some?
    ensures Encode(Decode(b).value) == b
    decreases |b|
  {
    hide DecodeOne, EncodeOne;
    if b != [] {
      EncodeDecodedOne(b);
      var (c, n) := DecodeOne(b).value;
      EncodeDecoded(b[n..]);
      var s := Decode(b).value;
      assert s[0] == c && s[1..] == Decode(b[n..]).value;
      assert b == b[..n] + b[n..];
    }
  }

  /** No text's bytes start another text's bytes unless the texts agree that far. */
  lemma {:induction false} EncodingPrefix(t: Text, s: Text)
    requires Encode(t) <= Encode(s)
    ensures t <= s
  {
    hide DecodeOne, EncodeOne;
    if t != [] {
      var rest := Encode(s)[|Encode(t)|..];
      assert Encode(s) == EncodeOne(t[0]) + (Encode(t[1..]) + rest);
      DecodeEncodedOne(t[0], Encode(t[1..]) + rest);
      DecodeEncodedOne(s[0], Encode(s[1..]));
      assert Encode(s)[|EncodeOne(s[0])|..] == Encode(s[1..]);
      EncodingPrefix(t[1..], s[1..]);
    }
  }

  /** The number of leading characters whose bytes fit in `maximum`. */
  function FitCount(s: Text, maximum: nat): (k: nat)
    ensures k <= |s|
  {
    if s == [] || |EncodeOne(s[0])| > maximum then 0 else 1 + FitCount(s[1..], maximum - |EncodeOne(s[0])|)
  }

  lemma Associative(a: Bytes, b: Bytes, c: Bytes)
    ensures (a + b) + c == a + (b + c)
  {
  }

  lemma {:induction false} EncodeAppend(s: Text, t: Text)
    ensures Encode(s + t) == Encode(s) + Encode(t)
  {
    hide EncodeOne;
    if s == [] {
      assert s + t == t;
      assert Encode(s) == [];
    } else {
      EncodeAppend(s[1..], t);
      assert (s + t)[1..] == s[1..] + t && (s + t)[0] == s[0];
      assert Encode(s + t) == EncodeOne(s[0]) + Encode(s[1..] + t);
      Associative(EncodeOne(s[0]), Encode(s[1..]), Encode(t));
    }
  }

  /** A prefix fits exactly when it has no more than `FitCount` characters. */
  lemma {:induction false} FitCountLongest(s: Text, maximum: nat, k: nat)
    requires k <= |s|
    ensures |Encode(s[..k])| <= maximum <==> k <= FitCount(s, maximum)
  {
    hide EncodeOne;
    if k > 0 {
      assert s[..k][1..] == s[1..][..k - 1];
      if |EncodeOne(s[0])| <= maximum {
        FitCountLongest(s[1..], maximum - |EncodeOne(s[0])|, k - 1);
      }
    }
  }

  /** When not everything fits, fewer than four bytes of the budget stay unused. */
  lemma {:induction false} FitCountTight(s: Text, maximum: nat)
    requires |Encode(s)| > maximum
    ensures maximum - 3 <= |Encode(s[..FitCount(s, maximum)])| <= maximum
  {
    hide EncodeOne;
    if |EncodeOne(s[0])| <= maximum {
      FitCountTight(s[1..], maximum - |EncodeOne(s[0])|);
      var k := FitCount(s, maximum);
      assert s[..k][1..] == s[1..][..k - 1];
    }
  }

  lemma SumExtends(a: Bytes, b: Bytes, whole: Bytes)
    requires whole == a + b
    ensures a <= whole
  {
  }

  lemma {:induction false} PrefixBytes(s: Text, k: nat)
    requires k <= |s|
    ensures Encode(s[..k]) <= Encode(s)
  {
    hide *;
    assert s == s[..k] + s[k..];
    EncodeAppend(s[..k], s[k..]);
    SumExtends(Encode(s[..k]), Encode(s[k..]), Encode(s));
  }

  /** A byte prefix is valid UTF-8 exactly when it ends between two characters. */
  lemma {:induction false} PrefixDecodes(s: Text, n: nat)
    requires n <= |Encode(s)|
    ensures Decode(Encode(s)[..n]).Some? <==> exists k: nat :: k <= |s| && |Encode(s[..k])| == n
    ensures Decode(Encode(s)[..n]).Some? ==> Decode(Encode(s)[..n]).value <= s
    ensures Decode(Encode(s)[..n]).Some? ==> |Encode(Decode(Encode(s)[..n]).value)| == n
  {
    hide EncodeOne, DecodeOne;
    var b := Encode(s)[..n];
    if Decode(b).Some? {
      var t := Decode(b).value;
      EncodeDecoded(b);
      EncodingPrefix(t, s);
      assert s[..|t|] == t;
    }
    forall k: nat | k <= |s| && |Encode(s[..k])| == n
      ensures Decode(b).Some?
    {
      PrefixBytes(s, k);
      assert b == Encode(s[..k]);
      DecodeEncoded(s[..k]);
    }
  }

  function FoldLines(s: Text): Text
  {
    Crlf.Fold(s, '\r', '\n')
  }

  /** Folding never lengthens the bytes. */
  lemma {:induction false} FoldShrinks(s: Text)
    ensures |Encode(FoldLines(s))| <= |Encode(s)|
    decreases |s|
  {
    hide EncodeOne;
    if s == [] {
    } else if |s| >= 2 && s[0] == '\r' && s[1] == '\n' {
      FoldShrinks(s[2..]);
      assert s[1..][1..] == s[2..];
      assert FoldLines(s)[1..] == FoldLines(s[2..]);
    } else {
      FoldShrinks(s[1..]);
      assert FoldLines(s)[1..] == FoldLines(s[1..]);
    }
  }

  /** Every longer byte prefix within the limit cuts a character. */
  lemma {:induction false} LongerCuts(s: Text, maximum: nat, n: nat)
    requires |Encode(s[..FitCount(s, maximum)])| < n <= maximum < |Encode(s)|
    ensures Decode(Encode(s)[..n]).None?
  {
    hide *;
    PrefixDecodes(s, n);
    if k: nat :| k <= |s| && |Encode(s[..k])| == n {
      FitCountLongest(s, maximum, k);
      assert s[..FitCount(s, maximum)][..k] == s[..k];
      PrefixBytes(s[..FitCount(s, maximum)], k);
    }
  }

  /** What is left after cutting bytes until the rest decodes. */
  method LongestDecodable(value: Text, maximum: nat) returns (kept: Text)
    requires |Encode(value)| > maximum
    ensures kept == value[..FitCount(value, maximum)]
  {
    hide EncodeOne, DecodeOne, FitCount;
    var encoded := Encode(value);
    var shortened := encoded[..maximum];
    ghost var boundary := Encode(value[..FitCount(value, maximum)]);
    FitCountTight(value, maximum);
    PrefixBytes(value, FitCount(value, maximum));
    DecodeEncoded(value[..FitCount(value, maximum)]);
    assert encoded[..|boundary|] == boundary;
    while |shortened| > 0
      invariant |boundary| <= |shortened| <= maximum && shortened == encoded[..|shortened|]
      decreases |shortened|
    {
      if |shortened| > |boundary| {
        LongerCuts(value, maximum, |shortened|);
      }
      var decoded := Decode(shortened);
      if decoded.Some? {
        kept := decoded.value;
        return;
      }
      shortened := shortened[..|shortened| - 1];
    }
    kept := [];
  }

  /** The longest whole-character prefix within `maximum` bytes, line endings folded, and whether anything was cut. */
  method TruncateUtf8(value: Text, maximum: nat) returns (kept: Text, truncated: bool)
    ensures truncated <==> |Encode(value)| > maximum
    ensures kept == FoldLines(value[..FitCount(value, maximum)])
    ensures |Encode(kept)| <= maximum
  {
    FitCountLongest(value, maximum, FitCount(value, maximum));
    FitCountLongest(value, maximum, |value|);
    assert value[..|value|] == value;
    FoldShrinks(value[..FitCount(value, maximum)]);
    var encoded := Encode(value);
    if |encoded| <= maximum {
      return FoldLines(value), false;
    }
    kept := LongestDecodable(value, maximum);
    return FoldLines(kept), true;
  }

  const MAX_SEMANTIC_TEXT_BYTES := 4_096

  /** The semantic text bound: the same cut, nothing folded; the error the source raises for no text never comes up. */
  method BoundedUtf8(value: Text) returns (kept: Text, truncated: bool)
    ensures truncated <==> |Encode(value)| > 4_096
    ensures kept == value[..FitCount(value, 4_096)]
    ensures truncated ==> kept != []
  {
    FitCountLongest(value, MAX_SEMANTIC_TEXT_BYTES, |value|);
    assert value[..|value|] == value;
    var encoded := Encode(value);
    if |encoded| <= MAX_SEMANTIC_TEXT_BYTES {
      return value, false;
    }
    FitCountTight(value, MAX_SEMANTIC_TEXT_BYTES);
    kept := LongestDecodable(value, MAX_SEMANTIC_TEXT_BYTES);
    return kept, true;
  }
}
