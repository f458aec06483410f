/** Patches that add one file, built and read back. */
module Patches {
  import opened Wrappers
  import opened Lines

  const SOURCE_LINE := "--- /dev/null"

  const TARGET_START := "+++ b/"

  const HUNK_START := "@@ -0,0 +1,"

  /** How many characters the break at the front of `s` has. */
  function BreakWidth(s: string): (n: nat)
    requires s != "" && IsBreak(s[0])
    ensures 1 <= n <= 2 && n <= |s|
  {
    if "\r\n" <= s then 2 else 1
  }

  /** The lines of a text with their breaks. */
  function SplitKeep(s: string): (lines: seq<string>)
    ensures lines == [] <==> s == ""
    decreases |s|
  {
    if s == "" then []
    else if IsBreak(s[0]) then [s[..BreakWidth(s)]] + SplitKeep(s[BreakWidth(s)..])
    else if |s| == 1 then [s]
    else var rest := SplitKeep(s[1..]); [[s[0]] + rest[0]] + rest[1..]
  }

  /** Every line marked as added. */
  function Added(lines: seq<string>): string
  {
    if lines == [] then "" else "+" + lines[0] + Added(lines[1..])
  }

  function Digits(n: nat): string
  {
    if n < 10 then ["0123456789"[n]] else Digits(n / 10) + ["0123456789"[n % 10]]
  }

  function Hunk(content: string): string
  {
    HUNK_START + Digits(|SplitKeep(content)|) + " @@"
  }

  function BuildPatch(path: string, content: string): string
  {
    SOURCE_LINE + "\n" + (TARGET_START + path + "\n" + (Hunk(content) + "\n" + Added(SplitKeep(content))))
  }

  function Marked(lines: seq<string>): (r: seq<string>)
    ensures |r| == |lines|
    ensures forall i :: 0 <= i < |lines| ==> r[i] == "+" + lines[i]
  {
    seq(|lines|, i requires 0 <= i < |lines| => "+" + lines[i])
  }

  predicate Addition(line: string)
  {
    "+" <= line && !("+++" <= line)
  }

  /** The runner's reading of a patch. */
  method ContentFromPatch(path: string, patch: string) returns (r: Result<string>)
    ensures r == Read(path, SplitLines(patch))
  {
    var lines := SplitLines(patch);
    if |lines| < 3 || lines[0] != SOURCE_LINE || lines[1] != TARGET_START + path {
      return ValueError;
    }
    var content: seq<string> := [];
    var seenHunk := false;
    for i := 2 to |lines|
      invariant seenHunk <==> i > 2
      invariant i > 2 ==> HUNK_START <= lines[2]
      invariant forall k :: 3 <= k < i ==> Addition(lines[k])
      invariant |content| == if i > 2 then i - 3 else 0
      invariant forall k :: 0 <= k < |content| ==> content[k] == Rest(lines[k + 3])
    {
      var line := lines[i];
      if !seenHunk {
        if !(HUNK_START <= line) {
          return ValueError;
        }
        seenHunk := true;
      } else if "+" <= line && !("+++" <= line) {
        content := content + [line[1..]];
      } else {
        return ValueError;
      }
    }
    assert forall k :: 0 <= k < |lines[3..]| ==> lines[3..][k] == lines[k + 3];
    assert content == Unmarked(lines[3..]);
    r := Ok(Join(content) + "\n");
  }

  function Rest(line: string): string
  {
    if line == "" then "" else line[1..]
  }

  function Unmarked(lines: seq<string>): (r: seq<string>)
    ensures |r| == |lines|
    ensures forall i :: 0 <= i < |lines| ==> r[i] == Rest(lines[i])
  {
    seq(|lines|, i requires 0 <= i < |lines| => Rest(lines[i]))
  }

  /** What reading means: three header lines, then additions only. */
  function Read(path: string, lines: seq<string>): Result<string>
  {
    if |lines| >= 3 && lines[0] == SOURCE_LINE && lines[1] == TARGET_START + path && HUNK_START <= lines[2]
      && (forall i :: 3 <= i < |lines| ==> Addition(lines[i]))
    then Ok(Join(Unmarked(lines[3..])) + "\n")
    else ValueError
  }

  // ---------------------------------------------------------------- the round trip

  /** The added text of a non-empty content, after its first mark. */
  function Body(s: string): (b: string)
    requires s != ""
    ensures b != ""
    decreases |s|
  {
    if IsBreak(s[0]) then s[..BreakWidth(s)] + Added(SplitKeep(s[BreakWidth(s)..]))
    else if |s| == 1 then s
    else [s[0]] + Body(s[1..])
  }

  lemma Joined(a: string, b: string, c: string)
    ensures (a + b) + c == a + (b + c)
  {
  }

  lemma {:induction false} AddedBody(s: string)
    requires s != ""
    ensures Added(SplitKeep(s)) == "+" + Body(s)
    decreases |s|
  {
    hide IsBreak;
    var all := SplitKeep(s);
    var tail := Added(all[1..]);
    Joined("+", all[0], tail);
    if IsBreak(s[0]) {
      assert all[1..] == SplitKeep(s[BreakWidth(s)..]);
    } else if |s| == 1 {
      assert tail == "" && all[0] + tail == s;
    } else {
      AddedBody(s[1..]);
      var rest := SplitKeep(s[1..]);
      assert all[1..] == rest[1..];
      Joined("+", rest[0], tail);
      CutPlus(rest[0] + tail, Body(s[1..]));
      Joined([s[0]], rest[0], tail);
    }
  }

  lemma CutPlus(a: string, b: string)
    requires "+" + a == "+" + b
    ensures a == b
  {
    assert ("+" + a)[1..] == a && ("+" + b)[1..] == b;
  }

  lemma PlusIsNoBreak()
    ensures !IsBreak('+')
  {
  }

  lemma {:induction false} PlusFirst(b: string)
    requires b != ""
    ensures SplitLines("+" + b) == ["+" + SplitLines(b)[0]] + SplitLines(b)[1..]
  {
  }

  /** Reading the added text line by line gives the content's lines, all but the first marked. */
  lemma {:induction false} BodyLines(s: string)
    requires s != ""
    ensures var lines := SplitLines(s); SplitLines(Body(s)) == [lines[0]] + Marked(lines[1..])
    decreases |s|, 0
  {
    PlusIsNoBreak();
    var lines := SplitLines(s);
    if IsBreak(s[0]) {
      var n := BreakWidth(s);
      var tail := Added(SplitKeep(s[n..]));
      AddedLines(s[n..]);
      assert tail != "" ==> tail[0] == '+' by { if s[n..] != "" { AddedBody(s[n..]); } }
      assert ("\r\n" <= Body(s)) == ("\r\n" <= s);
      assert Body(s)[n..] == tail;
      assert lines[1..] == SplitLines(s[n..]);
    } else if |s| > 1 {
      BodyLines(s[1..]);
      assert Body(s)[1..] == Body(s[1..]);
      assert lines[1..] == SplitLines(s[1..])[1..];
    }
  }

  lemma {:induction false} AddedLines(s: string)
    ensures SplitLines(Added(SplitKeep(s))) == Marked(SplitLines(s))
    decreases |s|, 1
  {
    if s != "" {
      AddedBody(s);
      BodyLines(s);
      PlusFirst(Body(s));
      var lines := SplitLines(s);
      hide *;
      assert lines == [lines[0]] + lines[1..];
      assert Marked(lines) == ["+" + lines[0]] + Marked(lines[1..]);
    }
  }

  lemma {:induction false} DigitsUnbroken(n: nat)
    ensures Unbroken(Digits(n))
  {
    if n >= 10 {
      DigitsUnbroken(n / 10);
    }
  }

  lemma HeadersUnbroken(path: string, content: string)
    ensures Unbroken(SOURCE_LINE) && Unbroken(Hunk(content)) && HUNK_START <= Hunk(content)
    ensures Unbroken(TARGET_START + path) <==> Unbroken(path)
  {
    DigitsUnbroken(|SplitKeep(content)|);
    forall c | c in path
      ensures c in TARGET_START + path
    {
    }
  }

  /** The built patch, line by line. */
  lemma {:induction false} PatchLines(path: string, content: string)
    requires Unbroken(path)
    ensures SplitLines(BuildPatch(path, content))
         == ["--- /dev/null", "+++ b/" + path, Hunk(content)] + Marked(SplitLines(content))
  {
    hide Unbroken, SplitLines, SplitKeep, Added, Hunk;
    var added := Added(SplitKeep(content));
    HeadersUnbroken(path, content);
    AddedLines(content);
    SplitFirstLine(Hunk(content), added);
    SplitFirstLine(TARGET_START + path, Hunk(content) + "\n" + added);
    SplitFirstLine(SOURCE_LINE, TARGET_START + path + "\n" + (Hunk(content) + "\n" + added));
  }

  ghost function Decimal(s: string): int
  {
    if s == "" then 0 else 10 * Decimal(s[..|s| - 1]) + (s[|s| - 1] as int - '0' as int)
  }

  lemma {:induction false} DigitsMean(n: nat)
    ensures Decimal(Digits(n)) == n
    ensures Digits(n) != "" && (n > 0 ==> Digits(n)[0] != '0') && forall c :: c in Digits(n) ==> '0' <= c <= '9'
  {
    assert forall i :: 0 <= i < 10 ==> "0123456789"[i] as int == '0' as int + i;
    if n < 10 {
      assert Digits(n)[..0] == "";
    } else {
      DigitsMean(n / 10);
      assert Digits(n)[..|Digits(n)| - 1] == Digits(n / 10);
    }
  }

  lemma {:induction false} SameCount(s: string)
    ensures |SplitKeep(s)| == |SplitLines(s)|
    decreases |s|
  {
    hide IsBreak;
    if s != "" {
      if IsBreak(s[0]) {
        SameCount(s[BreakWidth(s)..]);
      } else if |s| > 1 {
        SameCount(s[1..]);
      }
    }
  }

  /** The third header counts the lines. */
  lemma {:induction false} HunkMeans(content: string)
    ensures exists digits :: Hunk(content) == "@@ -0,0 +1," + digits + " @@"
                             && Decimal(digits) == |SplitLines(content)|
                             && (forall c :: c in digits ==> '0' <= c <= '9')
  {
    SameCount(content);
    DigitsMean(|SplitKeep(content)|);
    assert Hunk(content) == "@@ -0,0 +1," + Digits(|SplitKeep(content)|) + " @@";
  }

  ghost function Concat(lines: seq<string>): string
  {
    if lines == [] then "" else lines[0] + Concat(lines[1..])
  }

  /** The lines with their breaks are the whole text. */
  lemma {:induction false} KeepsText(s: string)
    ensures Concat(SplitKeep(s)) == s
    decreases |s|
  {
    hide IsBreak;
    if s != "" {
      var all := SplitKeep(s);
      if IsBreak(s[0]) {
        KeepsText(s[BreakWidth(s)..]);
      } else if |s| > 1 {
        KeepsText(s[1..]);
        var rest := SplitKeep(s[1..]);
        assert all[1..] == rest[1..];
        Joined([s[0]], rest[0], Concat(rest[1..]));
      }
    }
  }

  /** A line the mark turns into what looks like a file header. */
  predicate Disguised(line: string)
  {
    "++" <= line
  }

  lemma MarkedAddition(line: string)
    ensures Addition("+" + line) <==> !Disguised(line)
    ensures Rest("+" + line) == line
  {
    assert |line| >= 2 ==> ("+" + line)[1] == line[0] && ("+" + line)[2] == line[1];
  }

  /**
   * The runner reads back a built patch exactly when the path is one line and no line of the content starts with two
   * plus signs; what it reads is the content with every line ended by a line feed.
   */
  lemma {:induction false} RoundTrip(path: string, content: string)
    ensures var r := Read(path, SplitLines(BuildPatch(path, content)));
            var lines := SplitLines(content);
            && (r.Ok? <==> Unbroken(path) && forall i :: 0 <= i < |lines| ==> !Disguised(lines[i]))
            && (r.Ok? ==> r.value == Join(lines) + "\n")
  {
    hide SplitLines, BuildPatch, Join, Hunk, Disguised, Addition, Unbroken;
    var lines, all := SplitLines(content), SplitLines(BuildPatch(path, content));
    HeadersUnbroken(path, content);
    LinesUnbroken(BuildPatch(path, content));
    if Unbroken(path) {
      PatchLines(path, content);
      forall i | 0 <= i < |lines|
        ensures all[i + 3] == "+" + lines[i] && Rest(all[i + 3]) == lines[i]
        ensures Addition(all[i + 3]) <==> !Disguised(lines[i])
      {
        MarkedAddition(lines[i]);
      }
      assert Unmarked(all[3..]) == lines;
    } else {
      assert |all| > 1 ==> all[1] in all;
    }
  }

  /** The smallest content that is not read back, whatever the path. */
  lemma PlusesLost(path: string)
    ensures Read(path, SplitLines(BuildPatch(path, "++"))) == ValueError
  {
    hide Read, BuildPatch, SplitLines;
    assert Unbroken("++");
    SplitFirstLine("++", "");
    assert SplitLines("++")[0] == "++" && Disguised("++");
    RoundTrip(path, "++");
  }
}
