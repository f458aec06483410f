/** Cutting documents into bounded pieces. */
module Chunking {
  import opened Lines

  const MAX_CHUNK_CHARS := 4_000

  /** A piece of text with its heading and the document lines it shows. */
  datatype Piece = Piece(heading: string, text: string, first: int, last: int)

  ghost function DropBlankEnd(lines: seq<string>): seq<string>
  {
    if lines != [] && lines[|lines| - 1] == "" then lines[..|lines| - 1] else lines
  }

  lemma SingleDrop(line: string)
    ensures DropBlankEnd([line]) == if line == "" then [] else [line]
  {
  }

  lemma DropBehind(line: string, rest: seq<string>)
    requires rest != []
    ensures DropBlankEnd([line] + rest) == [line] + DropBlankEnd(rest)
  {
  }

  /** Joining and splitting again loses at most a blank last line. */
  lemma {:induction false} SplitJoined(lines: seq<string>)
    requires lines != [] && forall line :: line in lines ==> Unbroken(line)
    ensures SplitLines(Join(lines)) == DropBlankEnd(lines)
  {
    hide IsBreak, DropBlankEnd;
    SingleDrop(lines[0]);
    SplitFirstLine(lines[0], Join(lines[1..]));
    assert lines == if |lines| == 1 then [lines[0]] else [lines[0]] + lines[1..];
    if |lines| > 1 {
      SplitJoined(lines[1..]);
      DropBehind(lines[0], lines[1..]);
    }
  }

  /** What is split when a whole text is chunked: its lines, or the empty text itself. */
  function LinesOf(content: string): (lines: seq<string>)
    ensures lines != []
  {
    if SplitLines(content) == [] then [content] else SplitLines(content)
  }

  // ---------------------------------------------------------------- rebuilding

  /** Splitting at line feeds only, which inverts `Join`. */
  ghost function Unjoin(text: string): (lines: seq<string>)
    ensures lines != []
  {
    if text == "" then [""]
    else if text[0] == '\n' then [""] + Unjoin(text[1..])
    else var rest := Unjoin(text[1..]); [[text[0]] + rest[0]] + rest[1..]
  }

  lemma {:induction false} UnjoinFirst(line: string, rest: string)
    requires Unbroken(line)
    ensures Unjoin(line + "\n" + rest) == [line] + Unjoin(rest)
    ensures Unjoin(line) == [line]
  {
    hide IsBreak;
    if line == "" {
      assert line + "\n" + rest == "\n" + rest;
      assert ("\n" + rest)[1..] == rest;
    } else {
      assert line[0] in line && line[0] != '\n' by { LineFeedBreaks(); }
      UnjoinFirst(line[1..], rest);
      assert (line + "\n" + rest)[1..] == line[1..] + "\n" + rest;
      assert line == [line[0]] + line[1..];
    }
  }

  lemma {:induction false} UnjoinJoined(lines: seq<string>)
    requires lines != [] && forall line :: line in lines ==> Unbroken(line)
    ensures Unjoin(Join(lines)) == lines
  {
    hide IsBreak;
    UnjoinFirst(lines[0], Join(lines[1..]));
    if |lines| > 1 {
      UnjoinJoined(lines[1..]);
    }
    assert lines == [lines[0]] + lines[1..];
  }

  /** Whether piece `k` goes on with the line its predecessor ended in. */
  ghost predicate Continues(pieces: seq<Piece>, k: nat)
    requires k < |pieces|
  {
    k > 0 && pieces[k].first == pieces[k - 1].last
  }

  /** Lines, with more text at the end of the last. */
  ghost function ExtendLast(lines: seq<string>, text: string): seq<string>
    requires lines != []
  {
    lines[..|lines| - 1] + [lines[|lines| - 1] + text]
  }

  /** The lines a reader recovers from the pieces alone. */
  ghost function Rebuild(pieces: seq<Piece>): (lines: seq<string>)
    ensures pieces != [] ==> lines != []
  {
    if pieces == [] then [] else
    var k := |pieces| - 1;
    var before := Rebuild(pieces[..k]);
    if Continues(pieces, k) then ExtendLast(before, pieces[k].text)
    else before + Unjoin(pieces[k].text)
  }

  lemma {:induction false} RebuildMore(pieces: seq<Piece>, p: Piece)
    ensures Rebuild(pieces + [p])
         == (if pieces != [] && p.first == pieces[|pieces| - 1].last
             then ExtendLast(Rebuild(pieces), p.text)
             else Rebuild(pieces) + Unjoin(p.text))
  {
  }

  lemma NothingRebuilt()
    ensures Rebuild([]) == []
  {
  }

  /** Piece `k` takes up where the one before it stopped, and shows as many lines as its range says. */
  ghost predicate RangeAt(pieces: seq<Piece>, start: int, k: nat)
    requires k < |pieces|
  {
    var p := pieces[k];
    && |Unjoin(p.text)| == p.last - p.first + 1
    && (k == 0 ==> p.first == start)
    && (k > 0 ==> p.first == pieces[k - 1].last + 1 || (p.first == p.last == pieces[k - 1].last))
  }

  /** The pieces tile the lines from `start` up to but not including `next`. */
  ghost predicate Tiles(pieces: seq<Piece>, start: int, next: int)
  {
    && (forall k: nat :: k < |pieces| ==> RangeAt(pieces, start, k))
    && next == if pieces == [] then start else pieces[|pieces| - 1].last + 1
  }

  ghost predicate Long(lines: seq<string>, i: int)
  {
    0 <= i < |lines| && |lines[i]| > 4_000
  }

  /** At most a full piece of a line, from one character on. */
  ghost function Portion(line: string, from: nat): (text: string)
    requires from <= |line|
    ensures |text| <= 4_000 && |text| <= |line| - from && (from < |line| ==> text != "")
  {
    if |line| - from <= 4_000 then line[from..] else line[from..from + 4_000]
  }

  /** Whether the last line shown is a long one with more characters to show. */
  ghost predicate Unfinished(lines: seq<string>, shown: seq<string>)
  {
    0 < |shown| && Long(lines, |shown| - 1) && |shown[|shown| - 1]| < |lines[|shown| - 1]|
  }

  ghost predicate PortionAt(lines: seq<string>, start: int, p: Piece, i: nat, from: nat)
    requires i < |lines| && from <= |lines[i]|
  {
    p.first == p.last == start + i && p.text == Portion(lines[i], from)
  }

  /** The line after the piece, if there is one, would not fit into it. */
  ghost predicate Full(lines: seq<string>, start: int, p: Piece)
  {
    var j := p.last - start + 1;
    0 <= j < |lines| ==> |p.text| + 1 + |lines[j]| > 4_000
  }

  /**
   * Whole lines from line `i` on. A block that opens the text or follows a long line takes as many lines as fit. A
   * block that follows another block is a single line, since the size the source then goes by still counts the block
   * before.
   */
  ghost predicate BlockAt(lines: seq<string>, start: int, p: Piece, i: nat)
  {
    var j := p.last - start + 1;
    && p.first == start + i && i < j <= |lines|
    && p.text == Join(lines[i..j]) && |p.text| <= 4_000
    && if i == 0 || Long(lines, i - 1) then Full(lines, start, p) else j == i + 1
  }

  /** The one piece that can come after what is shown: the next portion of a long line, or a block. */
  ghost predicate Next(lines: seq<string>, heading: string, start: int, shown: seq<string>, p: Piece)
  {
    && p.heading == heading
    && if Unfinished(lines, shown) then PortionAt(lines, start, p, |shown| - 1, |shown[|shown| - 1]|)
       else if Long(lines, |shown|) then PortionAt(lines, start, p, |shown|, 0)
       else BlockAt(lines, start, p, |shown|)
  }

  ghost predicate NextAt(lines: seq<string>, heading: string, start: int, pieces: seq<Piece>, k: nat)
    requires k < |pieces|
  {
    Next(lines, heading, start, Rebuild(pieces[..k]), pieces[k])
  }

  /** Each piece is the next one after what the pieces before it show. */
  ghost predicate AllNext(lines: seq<string>, heading: string, start: int, pieces: seq<Piece>)
  {
    forall k: nat :: k < |pieces| ==> NextAt(lines, heading, start, pieces, k)
  }

  /** The pieces of `lines`, first line `start`. */
  ghost predicate IsSplit(lines: seq<string>, heading: string, start: int, pieces: seq<Piece>)
  {
    && Rebuild(pieces) == lines
    && Tiles(pieces, start, start + |lines|)
    && AllNext(lines, heading, start, pieces)
  }

  lemma PieceBounded(lines: seq<string>, heading: string, start: int, pieces: seq<Piece>, p: Piece)
    requires AllNext(lines, heading, start, pieces) && p in pieces
    ensures |p.text| <= 4_000 && p.heading == heading
  {
    hide Rebuild, Join, Portion;
    var k: nat :| k < |pieces| && pieces[k] == p;
    assert NextAt(lines, heading, start, pieces, k);
  }

  lemma {:induction false} NextMore(lines: seq<string>, heading: string, start: int, pieces: seq<Piece>, p: Piece)
    requires AllNext(lines, heading, start, pieces) && Next(lines, heading, start, Rebuild(pieces), p)
    ensures AllNext(lines, heading, start, pieces + [p])
  {
    hide Next, Rebuild;
    var more := pieces + [p];
    forall k: nat | k < |more|
      ensures NextAt(lines, heading, start, more, k)
    {
      if k < |pieces| {
        assert NextAt(lines, heading, start, pieces, k) && more[..k] == pieces[..k];
      } else {
        assert more[..k] == pieces;
      }
    }
  }

  /** The first `done` lines are in the pieces. */
  ghost predicate SplitSoFar(lines: seq<string>, heading: string, start: int, pieces: seq<Piece>, done: nat)
  {
    && done <= |lines|
    && Rebuild(pieces) == lines[..done]
    && Tiles(pieces, start, start + done)
    && AllNext(lines, heading, start, pieces)
  }

  lemma TilesMore(pieces: seq<Piece>, start: int, next: int, p: Piece)
    requires Tiles(pieces, start, next)
    requires |Unjoin(p.text)| == p.last - p.first + 1
    requires p.first == next || (pieces != [] && p.first == p.last == next - 1)
    ensures Tiles(pieces + [p], start, p.last + 1)
  {
    hide Unjoin;
    var more := pieces + [p];
    forall k: nat | k < |more|
      ensures RangeAt(more, start, k)
    {
      if k < |pieces| {
        assert RangeAt(pieces, start, k);
      }
    }
  }

  /** A block of whole lines. */
  lemma AddBlock(lines: seq<string>, heading: string, start: int, pieces: seq<Piece>, i: nat, j: nat)
    requires SplitSoFar(lines, heading, start, pieces, i) && i < j <= |lines| && !Long(lines, i)
    requires forall line :: line in lines ==> Unbroken(line)
    requires BlockAt(lines, start, Piece(heading, Join(lines[i..j]), start + i, start + j - 1), i)
    ensures SplitSoFar(lines, heading, start, pieces + [Piece(heading, Join(lines[i..j]), start + i, start + j - 1)], j)
  {
    hide BlockAt, Join, Unjoin;
    var p := Piece(heading, Join(lines[i..j]), start + i, start + j - 1);
    UnjoinJoined(lines[i..j]);
    TilesMore(pieces, start, start + i, p);
    NextMore(lines, heading, start, pieces, p);
    assert (pieces + [p])[..|pieces|] == pieces;
    assert lines[..j] == lines[..i] + lines[i..j];
  }

  // ---------------------------------------------------------------- the loop

  /** What the buffer of lines and its running size say while lines `done..offset` wait in it. */
  ghost predicate Buffered(lines: seq<string>, current: seq<string>, size: nat, done: nat, offset: nat)
  {
    && done <= offset <= |lines| && current == lines[done..offset]
    && (forall i :: done <= i < offset ==> !Long(lines, i))
    && |Join(current)| <= 4_000 && |Join(current)| <= size
    && (current == [] ==> size == 0)
    && (if done == 0 || Long(lines, done - 1) then size == |Join(current)|
        else |current| == 1 && size > 4_000)
  }

  /** One more line: it joins the buffer, or the buffer starts again with it, or it is too long and is cut. */
  lemma BufferMore(lines: seq<string>, current: seq<string>, size: nat, done: nat, offset: nat)
    requires Buffered(lines, current, size, done, offset) && offset < |lines|
    ensures var line := lines[offset];
            var projected := size + |line| + (if current != [] then 1 else 0);
            if |line| > 4_000 then
              && Long(lines, offset) && Buffered(lines, [], 0, offset + 1, offset + 1)
              && (current == [] ==> done == offset)
            else if current != [] && projected > 4_000 then
              Buffered(lines, [line], projected, offset, offset + 1)
            else Buffered(lines, current + [line], projected, done, offset + 1)
  {
    var line := lines[offset];
    if current != [] {
      JoinAppend(current, line);
    }
    assert lines[done..offset + 1] == lines[done..offset] + [line];
    assert lines[offset..offset + 1] == [line];
  }

  /** Like `SplitSoFar`, with the first `shown` characters of the long line `i` in pieces as well. */
  ghost predicate CutSoFar(
    lines: seq<string>, heading: string, start: int, pieces: seq<Piece>, i: nat, shown: nat)
  {
    && i < |lines| && shown <= |lines[i]|
    && AllNext(lines, heading, start, pieces)
    && Tiles(pieces, start, if shown == 0 then start + i else start + i + 1)
    && Rebuild(pieces) == if shown == 0 then lines[..i] else lines[..i] + [lines[i][..shown]]
  }

  lemma PortionUnbroken(line: string, from: nat)
    requires from <= |line| && Unbroken(line)
    ensures Unbroken(Portion(line, from)) && Unjoin(Portion(line, from)) == [Portion(line, from)]
  {
    hide IsBreak, Unjoin;
    assert forall c :: c in Portion(line, from) ==> c in line;
    UnjoinFirst(Portion(line, from), "");
  }

  lemma CutNext(lines: seq<string>, heading: string, start: int, before: seq<string>, i: nat, shown: nat)
    requires Long(lines, i) && shown < |lines[i]|
    requires before == if shown == 0 then lines[..i] else lines[..i] + [lines[i][..shown]]
    ensures Next(lines, heading, start, before, Piece(heading, Portion(lines[i], shown), start + i, start + i))
  {
    hide BlockAt, Portion;
  }

  lemma PortionExtends(line: string, from: nat)
    requires from <= |line|
    ensures line[..from + |Portion(line, from)|] == line[..from] + Portion(line, from)
    ensures from == 0 ==> line[..|Portion(line, from)|] == Portion(line, from)
  {
  }

  lemma {:induction false} NewLineRebuilt(pieces: seq<Piece>, p: Piece, front: seq<string>)
    requires Rebuild(pieces) == front && Unjoin(p.text) == [p.text]
    requires pieces == [] || p.first != pieces[|pieces| - 1].last
    ensures Rebuild(pieces + [p]) == front + [p.text]
  {
    hide *;
    RebuildMore(pieces, p);
  }

  lemma {:induction false} SameLineRebuilt(pieces: seq<Piece>, p: Piece, front: seq<string>, line: string)
    requires Rebuild(pieces) == front + [line] && pieces != [] && p.first == pieces[|pieces| - 1].last
    ensures Rebuild(pieces + [p]) == front + [line + p.text]
  {
    hide Rebuild, Unjoin;
    RebuildMore(pieces, p);
  }

  lemma CutMore(lines: seq<string>, heading: string, start: int, pieces: seq<Piece>, i: nat, shown: nat)
    requires CutSoFar(lines, heading, start, pieces, i, shown) && Long(lines, i)
    requires shown < |lines[i]| && Unbroken(lines[i])
    ensures var text := Portion(lines[i], shown);
            CutSoFar(lines, heading, start, pieces + [Piece(heading, text, start + i, start + i)], i, shown + |text|)
  {
    hide AllNext, Next, Unjoin, Unbroken, RangeAt, Rebuild, Portion;
    var text := Portion(lines[i], shown);
    var p := Piece(heading, text, start + i, start + i);
    PortionUnbroken(lines[i], shown);
    PortionExtends(lines[i], shown);
    NothingRebuilt();
    TilesMore(pieces, start, if shown == 0 then start + i else start + i + 1, p);
    CutNext(lines, heading, start, Rebuild(pieces), i, shown);
    NextMore(lines, heading, start, pieces, p);
    if shown == 0 {
      NewLineRebuilt(pieces, p, lines[..i]);
    } else {
      SameLineRebuilt(pieces, p, lines[..i], lines[i][..shown]);
    }
  }

  /** The buffered lines make a piece of their own once the next line would not fit, or at the end. */
  lemma {:induction false} Flushed(lines: seq<string>, heading: string, start: int, pieces: seq<Piece>,
                current: seq<string>, size: nat, done: nat, offset: nat)
    requires SplitSoFar(lines, heading, start, pieces, done) && Buffered(lines, current, size, done, offset)
    requires forall line :: line in lines ==> Unbroken(line)
    requires current != [] && (offset < |lines| ==> size + |lines[offset]| + 1 > 4_000)
    ensures SplitSoFar(lines, heading, start,
                       pieces + [Piece(heading, Join(current), start + done, start + offset - 1)], offset)
  {
    hide SplitSoFar, Unbroken, Join;
    assert !Long(lines, done);
    AddBlock(lines, heading, start, pieces, done, offset);
  }

  /** The pieces of one long line. */
  method CutLong(lines: seq<string>, heading: string, startLine: int, pieces: seq<Piece>, offset: nat)
    returns (more: seq<Piece>)
    requires SplitSoFar(lines, heading, startLine, pieces, offset) && Long(lines, offset) && Unbroken(lines[offset])
    ensures SplitSoFar(lines, heading, startLine, more, offset + 1)
  {
    hide Rebuild, Tiles, AllNext, Unbroken;
    var line := lines[offset];
    more := pieces;
    var index := 0;
    while index < |line|
      invariant index >= 0
      invariant CutSoFar(lines, heading, startLine, more, offset, if index < |line| then index else |line|)
    {
      var next := if index + MAX_CHUNK_CHARS < |line| then index + MAX_CHUNK_CHARS else |line|;
      CutMore(lines, heading, startLine, more, offset, index);
      assert line[index..next] == Portion(line, index);
      more := more + [Piece(heading, line[index..next], startLine + offset, startLine + offset)];
      index := index + MAX_CHUNK_CHARS;
    }
    assert line[..|line|] == line && lines[..offset + 1] == lines[..offset] + [line];
  }

  lemma Limit()
    ensures MAX_CHUNK_CHARS == 4_000
  {
  }

  method SplitBounded(content: string, heading: string, startLine: int) returns (pieces: seq<Piece>)
    ensures IsSplit(LinesOf(content), heading, startLine, pieces)
  {
    hide *;
    Limit();
    var lines := LinesOf(content);
    LinesOfUnbroken(content);
    NothingSplit(lines, heading, startLine);
    pieces := [];
    var current: seq<string> := [];
    var currentStart := startLine;
    var currentSize: nat := 0;
    ghost var done: nat := 0;
    for offset := 0 to |lines|
      invariant Buffered(lines, current, currentSize, done, offset)
      invariant currentStart == startLine + done
      invariant SplitSoFar(lines, heading, startLine, pieces, done)
    {
      var line := lines[offset];
      var projected := currentSize + |line| + (if current != [] then 1 else 0);
      BufferMore(lines, current, currentSize, done, offset);
      if current != [] && projected > MAX_CHUNK_CHARS {
        Flushed(lines, heading, startLine, pieces, current, currentSize, done, offset);
        pieces := pieces + [Piece(heading, Join(current), currentStart, startLine + offset - 1)];
        current := [];
        assert current + [line] == [line];
        currentStart := startLine + offset;
        currentSize := 0;
        done := offset;
      }
      if |line| > MAX_CHUNK_CHARS {
        // A long line has flushed the buffer above, so the source's second flush here never happens.
        assert current == [];
        pieces := CutLong(lines, heading, startLine, pieces, offset);
        currentStart := startLine + offset + 1;
        currentSize := 0;
        done := offset + 1;
      } else {
        current := current + [line];
        currentSize := projected;
      }
    }
    if current != [] {
      Flushed(lines, heading, startLine, pieces, current, currentSize, done, |lines|);
      pieces := pieces + [Piece(heading, Join(current), currentStart, startLine + |lines| - 1)];
    }
    AllSplit(lines, heading, startLine, pieces, current, currentSize, done);
  }

  lemma LinesOfUnbroken(content: string)
    ensures forall line :: line in LinesOf(content) ==> Unbroken(line)
  {
    LinesUnbroken(content);
  }

  lemma NothingSplit(lines: seq<string>, heading: string, start: int)
    ensures SplitSoFar(lines, heading, start, [], 0) && Buffered(lines, [], 0, 0, 0)
  {
  }

  lemma AllSplit(lines: seq<string>, heading: string, start: int, pieces: seq<Piece>,
                 current: seq<string>, size: nat, done: nat)
    requires Buffered(lines, current, size, done, |lines|)
    requires SplitSoFar(lines, heading, start, pieces, if current == [] then done else |lines|)
    ensures IsSplit(lines, heading, start, pieces)
  {
  }

  // ---------------------------------------------------------------- what the split determines

  lemma {:induction false} JoinGrows(lines: seq<string>, i: nat, j: nat, n: nat)
    requires i < j < n <= |lines|
    ensures |Join(lines[i..n])| >= |Join(lines[i..j])| + 1 + |lines[j]|
    decreases n
  {
    hide Join;
    assert lines[i..n] == lines[i..n - 1] + [lines[n - 1]];
    JoinAppend(lines[i..n - 1], lines[n - 1]);
    if j < n - 1 {
      JoinGrows(lines, i, j, n - 1);
    }
  }

  lemma {:induction false} JoinHolds(lines: seq<string>, i: nat, m: nat, n: nat)
    requires i <= m < n <= |lines|
    ensures |lines[m]| <= |Join(lines[i..n])|
    decreases n
  {
    hide Join;
    if i == n - 1 {
      assert lines[i..n] == [lines[i]];
      JoinOne(lines[i]);
    } else {
      assert lines[i..n] == lines[i..n - 1] + [lines[n - 1]];
      JoinAppend(lines[i..n - 1], lines[n - 1]);
      if m < n - 1 {
        JoinHolds(lines, i, m, n - 1);
      }
    }
  }

  lemma JoinOne(line: string)
    ensures Join([line]) == line
  {
  }

  lemma BlockUnique(lines: seq<string>, start: int, p: Piece, q: Piece, i: nat)
    requires BlockAt(lines, start, p, i) && BlockAt(lines, start, q, i)
    ensures p.first == q.first && p.last == q.last && p.text == q.text
  {
    hide Join;
    var j, n := p.last - start + 1, q.last - start + 1;
    if j < n {
      JoinGrows(lines, i, j, n);
    } else if n < j {
      JoinGrows(lines, i, n, j);
    }
  }

  lemma NextUnique(lines: seq<string>, heading: string, start: int, shown: seq<string>, p: Piece, q: Piece)
    requires Next(lines, heading, start, shown, p) && Next(lines, heading, start, shown, q)
    ensures p == q
  {
    hide BlockAt, Portion;
    if !Unfinished(lines, shown) && !Long(lines, |shown|) {
      BlockUnique(lines, start, p, q, |shown|);
    }
  }

  lemma {:induction false} SamePrefix(
    lines: seq<string>, heading: string, start: int, a: seq<Piece>, b: seq<Piece>, k: nat)
    requires AllNext(lines, heading, start, a) && AllNext(lines, heading, start, b) && k <= |a| && k <= |b|
    ensures a[..k] == b[..k]
  {
    hide Next, Rebuild;
    if k > 0 {
      SamePrefix(lines, heading, start, a, b, k - 1);
      assert NextAt(lines, heading, start, a, k - 1) && NextAt(lines, heading, start, b, k - 1);
      NextUnique(lines, heading, start, Rebuild(a[..k - 1]), a[k - 1], b[k - 1]);
      assert a[..k] == a[..k - 1] + [a[k - 1]] && b[..k] == b[..k - 1] + [b[k - 1]];
    }
  }

  /** Nothing comes after everything is shown. */
  lemma NothingNext(lines: seq<string>, heading: string, start: int, p: Piece)
    ensures !Next(lines, heading, start, lines, p)
  {
  }

  /** The pieces are determined by the lines, the heading and the first line number. */
  lemma SplitUnique(lines: seq<string>, heading: string, start: int, a: seq<Piece>, b: seq<Piece>)
    requires IsSplit(lines, heading, start, a) && IsSplit(lines, heading, start, b)
    ensures a == b
  {
    hide Next, Rebuild, Tiles;
    var k := if |a| < |b| then |a| else |b|;
    SamePrefix(lines, heading, start, a, b, k);
    assert a[..|a|] == a && b[..|b|] == b;
    if |a| < |b| {
      assert NextAt(lines, heading, start, b, k);
      NothingNext(lines, heading, start, b[k]);
    } else if |b| < |a| {
      assert NextAt(lines, heading, start, a, k);
      NothingNext(lines, heading, start, a[k]);
    }
  }

  // ---------------------------------------------------------------- when every block is as long as it could be

  /** Every block is as long as it could be. */
  ghost predicate AllFull(lines: seq<string>, start: int, pieces: seq<Piece>)
  {
    forall p :: p in pieces && !Long(lines, p.first - start) ==> Full(lines, start, p)
  }

  /** Line `s` opens the text or follows a long line, and no line from there to `i` is long. */
  ghost predicate SameRun(lines: seq<string>, s: nat, i: nat)
  {
    && s <= i < |lines|
    && (s == 0 || Long(lines, s - 1))
    && forall m :: s <= m <= i ==> !Long(lines, m)
  }

  /** Line `i` is beyond what a first block of its run can take, and the next line would fit beside it. */
  ghost predicate Wasted(lines: seq<string>, s: nat, i: nat)
  {
    && SameRun(lines, s, i) && i + 1 < |lines|
    && |Join(lines[s..i + 1])| > 4_000
    && |lines[i]| + 1 + |lines[i + 1]| <= 4_000
  }

  ghost predicate NothingWasted(lines: seq<string>)
  {
    forall s: nat, i: nat :: !Wasted(lines, s, i)
  }

  ghost predicate Covers(start: int, p: Piece, i: nat)
  {
    p.first <= start + i <= p.last
  }

  lemma TilesPrefix(pieces: seq<Piece>, start: int, next: int, n: nat)
    requires Tiles(pieces, start, next) && n <= |pieces|
    ensures Tiles(pieces[..n], start, if n == 0 then start else pieces[n - 1].last + 1)
    ensures n < |pieces| ==> RangeAt(pieces, start, n)
  {
    hide Unjoin;
    forall m: nat | m < n
      ensures RangeAt(pieces[..n], start, m)
    {
      assert RangeAt(pieces, start, m);
    }
  }

  /** The pieces show as many lines as they tile. */
  lemma {:induction false} LinesShown(pieces: seq<Piece>, start: int, next: int)
    requires Tiles(pieces, start, next)
    ensures |Rebuild(pieces)| == next - start
  {
    hide Unjoin;
    if pieces != [] {
      var n := |pieces| - 1;
      TilesPrefix(pieces, start, next, n);
      LinesShown(pieces[..n], start, if n == 0 then start else pieces[n - 1].last + 1);
    }
  }

  /** Every line is in some piece. */
  lemma {:induction false} LineCovered(pieces: seq<Piece>, start: int, next: int, i: nat) returns (k: nat)
    requires Tiles(pieces, start, next) && start + i < next
    ensures k < |pieces| && Covers(start, pieces[k], i) && pieces[k].last < next
  {
    hide Unjoin;
    var n := |pieces| - 1;
    assert RangeAt(pieces, start, n);
    if Covers(start, pieces[n], i) {
      k := n;
    } else {
      TilesPrefix(pieces, start, next, n);
      k := LineCovered(pieces[..n], start, pieces[n - 1].last + 1, i);
    }
  }

  /** A piece that starts in a long line stays in it. */
  lemma StaysInLine(lines: seq<string>, heading: string, start: int, pieces: seq<Piece>, k: nat)
    requires IsSplit(lines, heading, start, pieces) && k < |pieces| && Long(lines, pieces[k].first - start)
    ensures pieces[k].first == pieces[k].last
  {
    hide Rebuild, Tiles, Portion, Join;
    assert NextAt(lines, heading, start, pieces, k);
  }

  /** Any other is a block, and the pieces before it tile the lines before it. */
  lemma IsBlock(lines: seq<string>, heading: string, start: int, pieces: seq<Piece>, k: nat)
    requires IsSplit(lines, heading, start, pieces) && k < |pieces| && !Long(lines, pieces[k].first - start)
    ensures pieces[k].first >= start && BlockAt(lines, start, pieces[k], pieces[k].first - start)
    ensures Tiles(pieces[..k], start, pieces[k].first)
  {
    hide Rebuild, Portion, Join, Unjoin;
    assert NextAt(lines, heading, start, pieces, k);
    TilesPrefix(pieces, start, start + |lines|, k);
    LinesShown(pieces[..k], start, if k == 0 then start else pieces[k - 1].last + 1);
  }

  /** No line of a block is long, so a block that covers line `i` starts in the run of line `i`. */
  lemma BlockInRun(lines: seq<string>, start: int, p: Piece, s: nat, i: nat)
    requires p.first >= start && BlockAt(lines, start, p, p.first - start) &&
             SameRun(lines, s, i) && Covers(start, p, i)
    ensures s <= p.first - start
  {
    hide Join;
    if p.first - start < s {
      JoinHolds(lines, p.first - start, s - 1, p.last - start + 1);
    }
  }

  /** The block that covers a line no run's first block can take is that line alone, with the next one beside it. */
  lemma WastedNotFull(lines: seq<string>, heading: string, start: int, pieces: seq<Piece>, s: nat, i: nat)
    requires IsSplit(lines, heading, start, pieces) && Wasted(lines, s, i)
    ensures !AllFull(lines, start, pieces)
  {
    hide IsSplit, Join, Tiles, Rebuild;
    var k := CoveringPiece(lines, heading, start, pieces, i);
    var p := pieces[k];
    var a, j := p.first - start, p.last - start + 1;
    if Long(lines, a) {
      StaysInLine(lines, heading, start, pieces, k);
    } else {
      IsBlock(lines, heading, start, pieces, k);
      BlockInRun(lines, start, p, s, i);
      if a == s {
        if i + 1 < j { JoinGrows(lines, s, i + 1, j); }
      } else {
        JoinOne(lines[i]);
        assert lines[i..i + 1] == [lines[i]];
        assert p in pieces && !Full(lines, start, p);
      }
    }
  }

  lemma CoveringPiece(lines: seq<string>, heading: string, start: int, pieces: seq<Piece>, i: nat) returns (k: nat)
    requires IsSplit(lines, heading, start, pieces) && i < |lines|
    ensures k < |pieces| && Covers(start, pieces[k], i)
  {
    k := LineCovered(pieces, start, start + |lines|, i);
  }

  lemma {:induction false} RunStart(lines: seq<string>, i: nat) returns (s: nat)
    requires i < |lines| && !Long(lines, i)
    ensures SameRun(lines, s, i)
  {
    if i == 0 || Long(lines, i - 1) {
      s := i;
    } else {
      s := RunStart(lines, i - 1);
    }
  }

  /** A block that is not full comes from a wasted line. */
  lemma NotFullWasted(lines: seq<string>, heading: string, start: int, pieces: seq<Piece>, k: nat)
    requires IsSplit(lines, heading, start, pieces) && k < |pieces|
    requires !Long(lines, pieces[k].first - start) && !Full(lines, start, pieces[k])
    ensures !NothingWasted(lines)
  {
    hide IsSplit, Join, Tiles, Rebuild;
    IsBlock(lines, heading, start, pieces, k);
    var i := pieces[k].first - start;
    var s := RunStart(lines, i);
    assert lines[i..i + 1] == [lines[i]];
    JoinOne(lines[i]);
    FirstBlockBefore(lines, heading, start, pieces, k, s, i);
    assert Wasted(lines, s, i);
  }

  /** The first block of the run ends before block `k`, since the line after it did not fit. */
  lemma FirstBlockBefore(lines: seq<string>, heading: string, start: int, pieces: seq<Piece>, k: nat, s: nat, i: nat)
    requires IsSplit(lines, heading, start, pieces) && k < |pieces| && pieces[k].first == start + i
    requires SameRun(lines, s, i) && s < i
    ensures |Join(lines[s..i + 1])| > 4_000
  {
    hide IsSplit, Join, Tiles, Rebuild;
    IsBlock(lines, heading, start, pieces, k);
    var m := LineCovered(pieces[..k], start, start + i, s);
    var q := pieces[m];
    assert q == pieces[..k][m];
    if Long(lines, q.first - start) {
      StaysInLine(lines, heading, start, pieces, m);
    } else {
      IsBlock(lines, heading, start, pieces, m);
      BlockInRun(lines, start, q, s, s);
      JoinGrows(lines, s, q.last - start + 1, i + 1);
    }
  }

  /** Every block of a text is as long as it could be exactly when no line of it is wasted. */
  lemma FullIffNothingWasted(lines: seq<string>, heading: string, start: int, pieces: seq<Piece>)
    requires IsSplit(lines, heading, start, pieces)
    ensures AllFull(lines, start, pieces) <==> NothingWasted(lines)
  {
    hide IsSplit, Full, Wasted;
    if s: nat, i: nat :| Wasted(lines, s, i) {
      WastedNotFull(lines, heading, start, pieces, s, i);
    }
    if p :| p in pieces && !Long(lines, p.first - start) && !Full(lines, start, p) {
      var k: nat :| k < |pieces| && pieces[k] == p;
      NotFullWasted(lines, heading, start, pieces, k);
    }
  }

  lemma ThreeLines(filler: string)
    requires Unbroken(filler) && filler != ""
    ensures LinesOf(filler + "\n" + ("b" + "\n" + "c")) == [filler, "b", "c"]
  {
    hide SplitLines, IsBreak;
    ShortUnbroken();
    SplitFirstLine(filler, "b" + "\n" + "c");
    SplitFirstLine("b", "c");
    SplitFirstLine("c", "");
  }

  lemma ShortUnbroken()
    ensures Unbroken("b") && Unbroken("c")
  {
  }

  lemma EverythingShown(lines: seq<string>, heading: string, start: int, pieces: seq<Piece>)
    requires SplitSoFar(lines, heading, start, pieces, |lines|)
    ensures IsSplit(lines, heading, start, pieces)
  {
  }

  /** Single lines make three blocks where only the first has no room. */
  lemma SingleLines(filler: string, heading: string, start: int)
    requires |filler| == 4_000 && Unbroken(filler)
    ensures IsSplit([filler, "b", "c"], heading, start,
                    [Piece(heading, filler, start, start), Piece(heading, "b", start + 1, start + 1),
                     Piece(heading, "c", start + 2, start + 2)])
  {
    hide SplitSoFar, Unbroken, Rebuild;
    var lines := [filler, "b", "c"];
    ShortUnbroken();
    NothingSplit(lines, heading, start);
    assert lines[0..1] == [filler] && lines[1..2] == ["b"] && lines[2..3] == ["c"];
    AddBlock(lines, heading, start, [], 0, 1);
    var one := [Piece(heading, filler, start, start)];
    assert one == [] + [Piece(heading, Join(lines[0..1]), start + 0, start + 1 - 1)];
    AddBlock(lines, heading, start, one, 1, 2);
    var two := one + [Piece(heading, "b", start + 1, start + 1)];
    AddBlock(lines, heading, start, two, 2, 3);
    var three := two + [Piece(heading, "c", start + 2, start + 2)];
    EverythingShown(lines, heading, start, three);
    assert three == [Piece(heading, filler, start, start), Piece(heading, "b", start + 1, start + 1),
                     Piece(heading, "c", start + 2, start + 2)];
  }

  /** The smallest such text: two short lines after a full one become two pieces. */
  lemma ShortLinesWasted(filler: string, heading: string, start: int, pieces: seq<Piece>)
    requires |filler| == 4_000 && Unbroken(filler)
    requires IsSplit(LinesOf(filler + "\n" + ("b" + "\n" + "c")), heading, start, pieces)
    ensures pieces == [Piece(heading, filler, start, start), Piece(heading, "b", start + 1, start + 1),
                       Piece(heading, "c", start + 2, start + 2)]
    ensures !AllFull([filler, "b", "c"], start, pieces)
  {
    hide IsSplit, LinesOf;
    ThreeLines(filler);
    SingleLines(filler, heading, start);
    SplitUnique([filler, "b", "c"], heading, start, pieces,
                [Piece(heading, filler, start, start), Piece(heading, "b", start + 1, start + 1),
                 Piece(heading, "c", start + 2, start + 2)]);
    assert pieces[1] in pieces && !Full([filler, "b", "c"], start, pieces[1]);
  }
}
