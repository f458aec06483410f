/**
 * Splitting a markdown document at its headings, and then splitting the sections into bounded pieces.
 */
module MarkdownSections {
  import opened Wrappers
  import opened Lines
  import opened Chunking

  const MAX_HEADING_CHARS := 256

  /** The lines from one heading to the next, and the number of the first of them. */
  datatype Section = Section(heading: string, first: int, lines: seq<string>)

  function Cut(heading: string): string
  {
    if |heading| <= MAX_HEADING_CHARS then heading else heading[..MAX_HEADING_CHARS]
  }

  /** One more line, number `k + 1`: a heading opens a section, any other line joins the last one. */
  ghost function Add(sections: seq<Section>, line: string, k: nat, title: string -> Option<string>): seq<Section>
  {
    var found := title(line);
    if found.Some? then sections + [Section(Cut(found.value), k + 1, [line])]
    else if sections == [] then [Section("Document", k + 1, [line])]
    else
      var last := sections[|sections| - 1];
      sections[..|sections| - 1] + [last.(lines := last.lines + [line])]
  }

  /** The sections of a document; `title` is the heading a line carries, if it is one. */
  ghost function Grouped(lines: seq<string>, title: string -> Option<string>): (sections: seq<Section>)
    ensures sections == [] <==> lines == []
  {
    if lines == [] then [] else
    var k := |lines| - 1;
    Add(Grouped(lines[..k], title), lines[k], k, title)
  }

  ghost function Flatten(sections: seq<Section>): seq<string>
  {
    if sections == [] then [] else Flatten(sections[..|sections| - 1]) + sections[|sections| - 1].lines
  }

  /** The heading a line gives its section. */
  ghost predicate Titled(heading: string, line: string, title: string -> Option<string>)
  {
    match title(line)
    case None => heading == "Document"
    case Some(t) => heading == if |t| > 256 then t[..256] else t
  }

  /** Section `k` is numbered and titled right, starts with a heading unless it is the first, and has no other. */
  ghost predicate SectionAt(sections: seq<Section>, title: string -> Option<string>, k: nat)
    requires k < |sections|
  {
    var s := sections[k];
    && s.lines != []
    && s.first == 1 + |Flatten(sections[..k])|
    && Titled(s.heading, s.lines[0], title)
    && (k > 0 ==> title(s.lines[0]).Some?)
    && (forall i :: 0 < i < |s.lines| ==> title(s.lines[i]).None?)
  }

  ghost predicate WellFormed(sections: seq<Section>, title: string -> Option<string>)
  {
    forall k: nat :: k < |sections| ==> SectionAt(sections, title, k)
  }

  lemma WellFormedPrefix(sections: seq<Section>, title: string -> Option<string>, n: nat)
    requires n <= |sections| && forall k: nat :: k < n ==> SectionAt(sections, title, k)
    ensures WellFormed(sections[..n], title)
  {
    forall k: nat | k < n
      ensures SectionAt(sections[..n], title, k)
    {
      assert sections[..n][..k] == sections[..k];
      assert SectionAt(sections, title, k);
    }
  }

  lemma WellFormedAppend(sections: seq<Section>, title: string -> Option<string>, s: Section)
    requires WellFormed(sections, title) && SectionAt(sections + [s], title, |sections|)
    ensures WellFormed(sections + [s], title)
  {
    forall k: nat | k < |sections|
      ensures SectionAt(sections + [s], title, k)
    {
      assert (sections + [s])[..k] == sections[..k];
      assert SectionAt(sections, title, k);
    }
  }

  lemma {:induction false} FlattenAppend(sections: seq<Section>, s: Section)
    ensures Flatten(sections + [s]) == Flatten(sections) + s.lines
  {
  }

  lemma {:induction false} NewSectionKeeps(sections: seq<Section>, s: Section, title: string -> Option<string>)
    requires WellFormed(sections, title) && |s.lines| == 1 && s.first == |Flatten(sections)| + 1
    requires Titled(s.heading, s.lines[0], title)
    requires sections != [] ==> title(s.lines[0]).Some?
    ensures Flatten(sections + [s]) == Flatten(sections) + s.lines && WellFormed(sections + [s], title)
  {
    hide Flatten, WellFormed;
    FlattenAppend(sections, s);
    assert (sections + [s])[..|sections|] == sections;
    WellFormedAppend(sections, title, s);
  }

  lemma LastSectionKeeps(sections: seq<Section>, line: string, title: string -> Option<string>)
    requires WellFormed(sections, title) && sections != [] && title(line).None?
    ensures var n := |sections| - 1;
            var more := sections[..n] + [sections[n].(lines := sections[n].lines + [line])];
            Flatten(more) == Flatten(sections) + [line] && WellFormed(more, title)
  {
    hide Flatten;
    var n := |sections| - 1;
    var last := sections[n];
    var s := last.(lines := last.lines + [line]);
    assert sections == sections[..n] + [last] && SectionAt(sections, title, n);
    FlattenAppend(sections[..n], last);
    FlattenAppend(sections[..n], s);
    WellFormedPrefix(sections, title, n);
    assert (sections[..n] + [s])[..n] == sections[..n];
    WellFormedAppend(sections[..n], title, s);
  }

  lemma {:induction false} AddKeeps(sections: seq<Section>, line: string, title: string -> Option<string>)
    requires WellFormed(sections, title)
    ensures Flatten(Add(sections, line, |Flatten(sections)|, title)) == Flatten(sections) + [line]
    ensures WellFormed(Add(sections, line, |Flatten(sections)|, title), title)
  {
    hide Flatten, WellFormed;
    var found := title(line);
    if found.None? && sections != [] {
      LastSectionKeeps(sections, line, title);
    } else {
      var s := Section(if found.Some? then Cut(found.value) else "Document", |Flatten(sections)| + 1, [line]);
      NewSectionKeeps(sections, s, title);
      assert sections == [] ==> sections + [s] == [s];
    }
  }

  /** The sections are the document's lines, cut at the headings and nowhere else. */
  lemma {:induction false} GroupedKeeps(lines: seq<string>, title: string -> Option<string>)
    ensures Flatten(Grouped(lines, title)) == lines
    ensures WellFormed(Grouped(lines, title), title)
  {
    hide Add, WellFormed;
    if lines == [] {
      NoSections(title);
    } else {
      var k := |lines| - 1;
      GroupedKeeps(lines[..k], title);
      AddKeeps(Grouped(lines[..k], title), lines[k], title);
      assert lines == lines[..k] + [lines[k]];
    }
  }

  lemma NoSections(title: string -> Option<string>)
    ensures WellFormed([], title)
  {
  }

  /** What is left of a section's lines: a section that is one blank line keeps it. */
  ghost function Shown(lines: seq<string>): seq<string>
  {
    if |lines| <= 1 then lines else DropBlankEnd(lines)
  }

  ghost function AllShown(sections: seq<Section>): seq<string>
  {
    if sections == [] then []
    else AllShown(sections[..|sections| - 1]) + Shown(sections[|sections| - 1].lines)
  }

  lemma {:induction false} SectionLines(lines: seq<string>)
    requires lines != [] && forall line :: line in lines ==> Unbroken(line)
    ensures LinesOf(Join(lines)) == Shown(lines)
  {
    SplitJoined(lines);
  }

  function Concat(groups: seq<seq<Piece>>): seq<Piece>
  {
    if groups == [] then [] else Concat(groups[..|groups| - 1]) + groups[|groups| - 1]
  }

  ghost predicate GroupAt(sections: seq<Section>, groups: seq<seq<Piece>>, k: nat)
    requires k < |groups| <= |sections|
  {
    IsSplit(Shown(sections[k].lines), sections[k].heading, sections[k].first, groups[k])
  }

  /** Group `k` of the pieces is the split of section `k`. */
  ghost predicate Chunked(sections: seq<Section>, groups: seq<seq<Piece>>)
  {
    |groups| == |sections| && forall k: nat :: k < |groups| ==> GroupAt(sections, groups, k)
  }

  lemma {:induction false} ChunkedMore(sections: seq<Section>, groups: seq<seq<Piece>>, s: Section, more: seq<Piece>)
    requires Chunked(sections, groups) && IsSplit(Shown(s.lines), s.heading, s.first, more)
    ensures Chunked(sections + [s], groups + [more]) && Concat(groups + [more]) == Concat(groups) + more
  {
    hide IsSplit;
    assert (groups + [more])[..|groups|] == groups;
    forall k: nat | k < |groups|
      ensures GroupAt(sections + [s], groups + [more], k)
    {
      assert GroupAt(sections, groups, k);
    }
  }

  lemma ExtendConcat(a: seq<string>, b: seq<string>, text: string)
    requires b != []
    ensures ExtendLast(a + b, text) == a + ExtendLast(b, text)
  {
  }

  lemma ConcatConcat(a: seq<string>, b: seq<string>, c: seq<string>)
    ensures (a + b) + c == a + (b + c)
  {
  }

  /** Rebuilding splits between two pieces on different lines. */
  lemma {:induction false} RebuildConcat(a: seq<Piece>, b: seq<Piece>)
    requires a == [] || b == [] || b[0].first != a[|a| - 1].last
    ensures Rebuild(a + b) == Rebuild(a) + Rebuild(b)
    decreases |b|
  {
    hide Unjoin, Rebuild, ExtendLast;
    if b == [] {
      assert a + b == a && Rebuild(b) == [] by { NothingRebuilt(); }
    } else {
      var k := |b| - 1;
      var whole := a + b[..k];
      RebuildConcat(a, b[..k]);
      RebuildMore(whole, b[k]);
      RebuildMore(b[..k], b[k]);
      assert b == b[..k] + [b[k]] && a + b == whole + [b[k]];
      assert k > 0 ==> whole[|whole| - 1] == b[..k][k - 1];
      if k > 0 {
        ExtendConcat(Rebuild(a), Rebuild(b[..k]), b[k].text);
      }
      ConcatConcat(Rebuild(a), Rebuild(b[..k]), Unjoin(b[k].text));
    }
  }

  lemma {:induction false} TilesFacts(pieces: seq<Piece>, lines: seq<string>, heading: string, start: int)
    requires IsSplit(lines, heading, start, pieces) && lines != []
    ensures pieces != [] && pieces[0].first == start && pieces[|pieces| - 1].last == start + |lines| - 1
    ensures Rebuild(pieces) == lines
    ensures forall p :: p in pieces ==> |p.text| <= 4_000
  {
    assert RangeAt(pieces, start, 0);
    forall p | p in pieces
      ensures |p.text| <= 4_000
    {
      PieceBounded(lines, heading, start, pieces, p);
    }
  }

  /** One more section's pieces. */
  lemma SectionRebuilds(sections: seq<Section>, title: string -> Option<string>, pieces: seq<Piece>, more: seq<Piece>)
    requires sections != [] && SectionAt(sections, title, |sections| - 1)
    requires var k := |sections| - 1;
             && IsSplit(Shown(sections[k].lines), sections[k].heading, sections[k].first, more)
             && Rebuild(pieces) == AllShown(sections[..k])
             && (pieces != [] ==> pieces[|pieces| - 1].last <= |Flatten(sections[..k])|)
    ensures Rebuild(pieces + more) == AllShown(sections)
    ensures forall p :: p in more ==> |p.text| <= 4_000
    ensures more != [] && (pieces + more)[|pieces + more| - 1].last <= |Flatten(sections)|
  {
    hide IsSplit, Rebuild;
    var s := sections[|sections| - 1];
    TilesFacts(more, Shown(s.lines), s.heading, s.first);
    RebuildConcat(pieces, more);
  }

  lemma LastGroup(sections: seq<Section>, title: string -> Option<string>, groups: seq<seq<Piece>>)
    requires WellFormed(sections, title) && Chunked(sections, groups) && sections != []
    ensures var k := |sections| - 1;
            && WellFormed(sections[..k], title) && SectionAt(sections, title, k)
            && Chunked(sections[..k], groups[..k])
            && IsSplit(Shown(sections[k].lines), sections[k].heading, sections[k].first, groups[k])
  {
    hide IsSplit, SectionAt;
    var k := |sections| - 1;
    WellFormedPrefix(sections, title, k);
    forall i: nat | i < k
      ensures GroupAt(sections[..k], groups[..k], i)
    {
      assert GroupAt(sections, groups, i);
    }
    assert GroupAt(sections, groups, k);
  }

  /** Every line of every section comes back from the pieces once and in order, a section's blank last line apart. */
  lemma {:induction false} ChunkedRebuilds(
    sections: seq<Section>, title: string -> Option<string>, groups: seq<seq<Piece>>)
    requires WellFormed(sections, title) && Chunked(sections, groups)
    ensures Rebuild(Concat(groups)) == AllShown(sections)
    ensures forall p :: p in Concat(groups) ==> |p.text| <= 4_000
    ensures groups != [] ==> Concat(groups) != [] && Concat(groups)[|Concat(groups)| - 1].last <= |Flatten(sections)|
  {
    assert |groups| == |sections|;
    if sections == [] {
    } else {
      hide *;
      var k := |sections| - 1;
      LastGroup(sections, title, groups);
      ChunkedRebuilds(sections[..k], title, groups[..k]);
      assert Concat(groups) == Concat(groups[..k]) + groups[k] by { ConcatLast(groups); }
      SectionRebuilds(sections, title, Concat(groups[..k]), groups[k]);
    }
  }

  lemma {:induction false} ConcatLast(groups: seq<seq<Piece>>)
    requires groups != []
    ensures Concat(groups) == Concat(groups[..|groups| - 1]) + groups[|groups| - 1]
  {
  }

  /** The pieces of a document, grouped by section. */
  method SplitDocument(content: string, title: string -> Option<string>)
    returns (pieces: seq<Piece>, ghost groups: seq<seq<Piece>>)
    ensures Chunked(Grouped(SplitLines(content), title), groups) && pieces == Concat(groups)
    ensures Rebuild(pieces) == AllShown(Grouped(SplitLines(content), title))
    ensures forall p :: p in pieces ==> |p.text| <= 4_000
  {
    hide *;
    var all := SplitLines(content);
    LinesUnbroken(content);
    pieces, groups := [], [];
    var heading := "Document";
    var startLine := 1;
    var lines: seq<string> := [];
    NothingPending(title);
    for i := 0 to |all|
      invariant Pending(all[..i], title, heading, startLine, lines, groups) && pieces == Concat(groups)
      invariant forall line :: line in lines ==> Unbroken(line)
    {
      var line := all[i];
      assert all[..i + 1] == all[..i] + [line];
      var found := title(line);
      PendingMore(all[..i], title, heading, startLine, lines, groups, line);
      if found.Some? && lines != [] {
        SectionLines(lines);
        var more := SplitBounded(Join(lines), heading, startLine);
        FlushPending(all[..i], title, heading, startLine, lines, groups, more);
        FlushedMore(all[..i], title, groups + [more], line);
        pieces, groups := pieces + more, groups + [more];
        lines := [];
      }
      if found.Some? {
        heading := Cut(found.value);
        startLine := i + 1;
      }
      lines := lines + [line];
    }
    assert all[..|all|] == all;
    if lines != [] {
      SectionLines(lines);
      var more := SplitBounded(Join(lines), heading, startLine);
      FlushPending(all, title, heading, startLine, lines, groups, more);
      pieces, groups := pieces + more, groups + [more];
    } else {
      NoLines(all, title, heading, startLine, groups);
    }
    GroupedKeeps(all, title);
    ChunkedRebuilds(Grouped(all, title), title, groups);
  }

  /** All sections but the last are in the groups, and the last one waits in `lines`. */
  ghost predicate Pending(all: seq<string>, title: string -> Option<string>,
                          heading: string, startLine: int, lines: seq<string>, groups: seq<seq<Piece>>)
  {
    var sections := Grouped(all, title);
    var n := |sections| - 1;
    if sections == [] then lines == [] && groups == [] && heading == "Document" && startLine == 1
    else sections[n] == Section(heading, startLine, lines) && lines != [] && Chunked(sections[..n], groups)
  }

  lemma NothingPending(title: string -> Option<string>)
    ensures Pending([], title, "Document", 1, [], []) && Concat([]) == []
  {
  }

  lemma {:induction false} NoLines(all: seq<string>, title: string -> Option<string>,
                heading: string, startLine: int, groups: seq<seq<Piece>>)
    requires Pending(all, title, heading, startLine, [], groups)
    ensures Chunked(Grouped(all, title), groups)
  {
  }

  lemma {:induction false} GroupedMore(all: seq<string>, line: string, title: string -> Option<string>)
    ensures Grouped(all + [line], title) == Add(Grouped(all, title), line, |all|, title)
  {
  }

  /** A line that is no heading, or the first line, joins the waiting ones. */
  lemma PendingMore(all: seq<string>, title: string -> Option<string>,
                    heading: string, startLine: int, lines: seq<string>, groups: seq<seq<Piece>>, line: string)
    requires Pending(all, title, heading, startLine, lines, groups)
    ensures title(line).None? ==> Pending(all + [line], title, heading, startLine, lines + [line], groups)
    ensures title(line).Some? && lines == [] ==>
      Pending(all + [line], title, Cut(title(line).value), |all| + 1, lines + [line], groups)
  {
  }

  /** A heading after other lines waits alone. */
  lemma {:induction false} FlushedMore(
    all: seq<string>, title: string -> Option<string>, groups: seq<seq<Piece>>, line: string)
    requires Chunked(Grouped(all, title), groups) && title(line).Some?
    ensures Pending(all + [line], title, Cut(title(line).value), |all| + 1, [] + [line], groups)
  {
    hide Chunked, Cut, Grouped;
    GroupedMore(all, line, title);
    var sections := Grouped(all, title);
    var s := Section(Cut(title(line).value), |all| + 1, [line]);
    assert (sections + [s])[..|sections|] == sections;
  }

  lemma {:induction false} FlushPending(all: seq<string>, title: string -> Option<string>,
                     heading: string, startLine: int, lines: seq<string>, groups: seq<seq<Piece>>, more: seq<Piece>)
    requires Pending(all, title, heading, startLine, lines, groups) && lines != []
    requires IsSplit(Shown(lines), heading, startLine, more)
    ensures Chunked(Grouped(all, title), groups + [more]) && Concat(groups + [more]) == Concat(groups) + more
  {
    hide IsSplit, Chunked, Grouped, Concat;
    var sections := Grouped(all, title);
    var n := |sections| - 1;
    ChunkedMore(sections[..n], groups, sections[n], more);
    assert sections == sections[..n] + [sections[n]];
  }
}
