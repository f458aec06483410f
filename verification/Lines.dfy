/**
 * The lines of a text as the source language splits them: ten characters break a line, a carriage return and line feed
 * break it once, and a break at the end starts no further line.
 */
module Lines {
  predicate IsBreak(c: char)
  {
    var code := c as int;
    0x0A <= code <= 0x0D || 0x1C <= code <= 0x1E || code == 0x85 || 0x2028 <= code <= 0x2029
  }

  /** The ten characters: four from line feed to carriage return, three separators, and three more. */
  lemma BreaksMean(c: char)
    ensures IsBreak(c) <==> c as int in {10, 11, 12, 13, 28, 29, 30, 0x85, 0x2028, 0x2029}
  {
  }

  /** The source language's line splitting: a break ends a line and does not start another. */
  function SplitLines(s: string): (lines: seq<string>)
    ensures lines == [] <==> s == ""
    decreases |s|
  {
    if s == "" then []
    else if IsBreak(s[0]) then [""] + SplitLines(s[if "\r\n" <= s then 2 else 1..])
    else if |s| == 1 then [s]
    else var rest := SplitLines(s[1..]); [[s[0]] + rest[0]] + rest[1..]
  }

  lemma LineFeedBreaks()
    ensures IsBreak('\n')
  {
  }

  predicate Unbroken(line: string)
  {
    forall c :: c in line ==> !IsBreak(c)
  }

  lemma {:induction false} LinesUnbroken(s: string)
    ensures forall line :: line in SplitLines(s) ==> Unbroken(line)
    decreases |s|
  {
    if s == "" {
    } else if IsBreak(s[0]) {
      LinesUnbroken(s[if "\r\n" <= s then 2 else 1..]);
    } else if |s| > 1 {
      LinesUnbroken(s[1..]);
      var rest := SplitLines(s[1..]);
      assert rest[0] in rest && SplitLines(s)[0] == [s[0]] + rest[0];
    }
  }

  function Join(lines: seq<string>): string
  {
    if lines == [] then "" else if |lines| == 1 then lines[0] else lines[0] + "\n" + Join(lines[1..])
  }

  lemma {:induction false} JoinAppend(lines: seq<string>, line: string)
    requires lines != []
    ensures Join(lines + [line]) == Join(lines) + "\n" + line
  {
    hide IsBreak;
    assert (lines + [line])[1..] == lines[1..] + [line];
    if |lines| > 1 {
      JoinAppend(lines[1..], line);
    }
  }

  lemma Dropped(line: string, rest: string)
    requires line != ""
    ensures (line + "\n" + rest)[1..] == line[1..] + "\n" + rest
  {
  }

  lemma {:induction false} SplitFirstLine(line: string, rest: string)
    requires Unbroken(line)
    ensures SplitLines(line + "\n" + rest) == [line] + SplitLines(rest)
    ensures SplitLines(line) == if line == "" then [] else [line]
  {
    if line == "" {
      assert line + "\n" + rest == "\n" + rest;
      assert ("\n" + rest)[1..] == rest;
    } else {
      assert line[0] in line;
      SplitFirstLine(line[1..], rest);
      Dropped(line, rest);
      assert line == [line[0]] + line[1..];
    }
  }
}
