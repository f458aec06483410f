/**
 * Strings cut at a separator character, and paths as lists of segments: cutting and joining undo each other wherever
 * no segment holds the separator.
 */
module Segments {
  /** A path with forward slashes only. */
  function Slashes(s: string): (r: string)
    ensures |r| == |s|
  {
    if s == "" then "" else [if s[0] == '\\' then '/' else s[0]] + Slashes(s[1..])
  }

  lemma {:induction false} SlashesAt(s: string, i: nat)
    requires i < |s|
    ensures Slashes(s)[i] == if s[i] == '\\' then '/' else s[i]
  {
    if i > 0 {
      SlashesAt(s[1..], i - 1);
    }
  }

  /** The pieces between separators, empty ones included. */
  function Split(s: string, separator: char): (parts: seq<string>)
    ensures |parts| >= 1
  {
    if s == "" then [""]
    else if s[0] == separator then [""] + Split(s[1..], separator)
    else var rest := Split(s[1..], separator); [[s[0]] + rest[0]] + rest[1..]
  }

  function Join(parts: seq<string>, separator: char): string
  {
    if parts == [] then "" else if |parts| == 1 then parts[0]
    else parts[0] + [separator] + Join(parts[1..], separator)
  }

  lemma {:induction false} SplitFree(s: string, separator: char)
    ensures forall part :: part in Split(s, separator) ==> separator !in part
  {
    if s != "" {
      SplitFree(s[1..], separator);
    }
  }

  lemma {:induction false} SplitFirst(part: string, rest: string, separator: char)
    requires separator !in part
    ensures Split(part + [separator] + rest, separator) == [part] + Split(rest, separator)
    ensures Split(part, separator) == [part]
  {
    if part == "" {
      assert part + [separator] + rest == [separator] + rest;
      assert ([separator] + rest)[1..] == rest;
    } else {
      SplitFirst(part[1..], rest, separator);
      assert (part + [separator] + rest)[1..] == part[1..] + [separator] + rest;
      assert part == [part[0]] + part[1..];
    }
  }

  lemma {:induction false} SplitJoined(parts: seq<string>, separator: char)
    requires parts != [] && forall part :: part in parts ==> separator !in part
    ensures Split(Join(parts, separator), separator) == parts
  {
    SplitFirst(parts[0], Join(parts[1..], separator), separator);
    if |parts| > 1 {
      SplitJoined(parts[1..], separator);
    }
    assert parts == [parts[0]] + parts[1..];
  }

  lemma Concat(a: string, b: string, c: string)
    ensures (a + b) + c == a + (b + c)
  {
  }

  lemma {:induction false} JoinSplit(s: string, separator: char)
    ensures Join(Split(s, separator), separator) == s
  {
    if s != "" {
      JoinSplit(s[1..], separator);
      var rest := Split(s[1..], separator);
      if s[0] == separator {
        assert ([""] + rest)[1..] == rest;
      } else {
        assert Split(s, separator)[1..] == rest[1..];
        if |rest| > 1 {
          Concat([s[0]], rest[0], [separator] + Join(rest[1..], separator));
          Concat(rest[0], [separator], Join(rest[1..], separator));
          Concat([s[0]] + rest[0], [separator], Join(rest[1..], separator));
        }
      }
    }
  }

  /** A pure path drops empty and current-directory segments. */
  function Kept(parts: seq<string>): seq<string>
  {
    if parts == [] then []
    else (if parts[0] in {"", "."} then [] else [parts[0]]) + Kept(parts[1..])
  }

  /** Segment by segment, in order. */
  lemma {:induction false} KeptJoined(a: seq<string>, b: seq<string>)
    ensures Kept(a + b) == Kept(a) + Kept(b)
  {
    if a == [] {
      assert a + b == b;
    } else {
      assert (a + b)[1..] == a[1..] + b;
      KeptJoined(a[1..], b);
    }
  }

  lemma KeptOne(part: string)
    ensures Kept([part]) == if part == "" || part == "." then [] else [part]
  {
    assert [part][1..] == [];
  }

  /** Positions `a` to `b` hold one piece: no separator in it, and one or an end of the string on either side. */
  ghost predicate PieceAt(s: string, separator: char, a: nat, b: nat)
  {
    && a <= b <= |s|
    && (a > 0 ==> s[a - 1] == separator)
    && (b < |s| ==> s[b] == separator)
    && (forall i :: a <= i < b ==> s[i] != separator)
  }

  /** The pieces are what stands between separators. */
  lemma {:induction false} PiecesMean(s: string, separator: char, piece: string)
    ensures piece in Split(s, separator) <==> exists a: nat, b: nat :: PieceAt(s, separator, a, b) && s[a..b] == piece
  {
    if exists k :: 0 <= k < |Split(s, separator)| && Split(s, separator)[k] == piece {
      var k :| 0 <= k < |Split(s, separator)| && Split(s, separator)[k] == piece;
      var a, b := PiecePlace(s, separator, k);
    }
    if a: nat, b: nat :| PieceAt(s, separator, a, b) && s[a..b] == piece {
      PieceListed(s, separator, a, b);
    }
  }

  lemma PieceFurther(s: string, separator: char, a: nat, b: nat)
    requires s != "" && PieceAt(s[1..], separator, a, b) && (a > 0 || s[0] == separator)
    ensures PieceAt(s, separator, a + 1, b + 1) && s[a + 1..b + 1] == s[1..][a..b]
  {
    assert forall i :: a + 1 <= i < b + 1 ==> s[i] == s[1..][i - 1];
  }

  lemma PieceLonger(s: string, separator: char, b: nat)
    requires s != "" && PieceAt(s[1..], separator, 0, b) && s[0] != separator
    ensures PieceAt(s, separator, 0, b + 1) && s[0..b + 1] == [s[0]] + s[1..][0..b]
  {
    assert forall i :: 1 <= i < b + 1 ==> s[i] == s[1..][i - 1];
  }

  lemma {:induction false} PiecePlace(s: string, separator: char, k: nat) returns (a: nat, b: nat)
    requires k < |Split(s, separator)|
    ensures PieceAt(s, separator, a, b) && s[a..b] == Split(s, separator)[k] && (k == 0 <==> a == 0)
  {
    hide PieceAt;
    a, b := 0, 0;
    if s == "" || (s[0] == separator && k == 0) {
      EmptyPiece(s, separator);
    } else if s[0] == separator {
      a, b := PiecePlace(s[1..], separator, k - 1);
      PieceFurther(s, separator, a, b);
      a, b := a + 1, b + 1;
    } else if k > 0 {
      a, b := PiecePlace(s[1..], separator, k);
      PieceFurther(s, separator, a, b);
      a, b := a + 1, b + 1;
      assert Split(s, separator)[k] == Split(s[1..], separator)[k];
    } else {
      a, b := PiecePlace(s[1..], separator, 0);
      PieceLonger(s, separator, b);
      b := b + 1;
    }
  }

  lemma EmptyPiece(s: string, separator: char)
    requires s == "" || s[0] == separator
    ensures PieceAt(s, separator, 0, 0) && s[0..0] == ""
  {
  }

  lemma {:induction false} PieceListed(s: string, separator: char, a: nat, b: nat)
    requires PieceAt(s, separator, a, b)
    ensures a == 0 ==> Split(s, separator)[0] == s[a..b]
    ensures a > 0 ==> s[a..b] in Split(s, separator)[1..]
  {
    if s != "" {
      var rest := Split(s[1..], separator);
      if a == 0 {
        if s[0] != separator {
          assert s[1..][0..b - 1] == s[0..b][1..];
          PieceListed(s[1..], separator, 0, b - 1);
        }
      } else {
        assert s[1..][a - 1..b - 1] == s[a..b];
        PieceListed(s[1..], separator, a - 1, b - 1);
        assert s[0] == separator ==> Split(s, separator)[1..] == rest;
        assert s[0] != separator ==> Split(s, separator)[1..] == rest[1..];
      }
    }
  }
}
