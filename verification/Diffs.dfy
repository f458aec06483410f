/** Change lists under one patch budget. */
module Diffs {
  import opened Utf8
  import opened Wrappers
  import opened Segments
  import Order

  const MAX_CHANGED_FILES := 1_000

  const MAX_PATH_BYTES := 1_024

  const MAX_PATCH_BYTES := 65_536

  const MAX_TOTAL_PATCH_BYTES := 1_048_576

  const STATUSES := {"added", "modified", "removed", "renamed", "copied", "changed"}

  datatype RawFile = RawFile(
    path: string, additions: int, deletions: int, status: string,
    previousPath: Option<string>, patch: Option<string>)

  datatype NormalizedFile = NormalizedFile(
    path: string, previousPath: Option<string>, additions: int, deletions: int, status: string,
    patch: Option<string>, patchTruncated: bool, isBinary: bool)

  datatype NormalizedDiff = NormalizedDiff(
    files: seq<NormalizedFile>, totalPatchBytes: nat, patchSetTruncated: bool)

  function Strip(s: string): string
    decreases |s|
  {
    if s != "" && s[0] == '/' then Strip(s[1..])
    else if s != "" && s[|s| - 1] == '/' then Strip(s[..|s| - 1])
    else s
  }

  /** The normalized form of a path, or nothing where the source raises. */
  function CleanPath(value: string): Option<string>
  {
    var normalized := Strip(Slashes(value));
    var parts := Kept(Split(normalized, '/'));
    if normalized == "" || |Encode(normalized)| > MAX_PATH_BYTES || ".." in parts then None
    else Some(Join(parts, '/'))
  }

  ghost predicate SafeSegment(part: string)
  {
    part !in {"", ".", ".."} && '/' !in part
  }

  lemma {:induction false} KeptFrom(parts: seq<string>)
    ensures forall part :: part in Kept(parts) <==> part in parts && part !in {"", "."}
  {
    if parts != [] {
      KeptFrom(parts[1..]);
      assert parts == [parts[0]] + parts[1..];
    }
  }

  lemma {:induction false} SplitEnd(s: string)
    ensures Split(s + "/", '/') == Split(s, '/') + [""]
  {
    if s == "" {
      assert Split("/", '/') == [""] + Split("", '/');
    } else {
      assert (s + "/")[1..] == s[1..] + "/";
      SplitEnd(s[1..]);
    }
  }

  lemma {:induction false} KeptBlankEnd(parts: seq<string>)
    ensures Kept(parts + [""]) == Kept(parts)
  {
    if parts == [] {
      assert Kept([""]) == Kept([""][1..]);
    } else {
      assert (parts + [""])[1..] == parts[1..] + [""];
      KeptBlankEnd(parts[1..]);
    }
  }

  /** Slashes around a path separate nothing. */
  lemma {:induction false} StripKeepsSegments(s: string)
    ensures Kept(Split(Strip(s), '/')) == Kept(Split(s, '/'))
    decreases |s|
  {
    if s != "" && s[0] == '/' {
      StripKeepsSegments(s[1..]);
      assert Split(s, '/')[1..] == Split(s[1..], '/');
    } else if s != "" && s[|s| - 1] == '/' {
      var front := s[..|s| - 1];
      StripKeepsSegments(front);
      assert s == front + "/";
      SplitEnd(front);
      KeptBlankEnd(Split(front, '/'));
    }
  }

  /** A normalized path stays inside the repository: it is empty or a list of plain segments,
      those of the path given. */
  lemma {:induction false} CleanPathSafe(value: string)
    requires CleanPath(value).Some? && CleanPath(value).value != ""
    ensures Split(CleanPath(value).value, '/') == Kept(Split(Slashes(value), '/'))
    ensures forall part :: part in Split(CleanPath(value).value, '/') ==> SafeSegment(part)
  {
    var normalized := Strip(Slashes(value));
    SplitFree(normalized, '/');
    KeptFrom(Split(normalized, '/'));
    SplitJoined(Kept(Split(normalized, '/')), '/');
    StripKeepsSegments(Slashes(value));
  }

  /** What is left between the slashes around a string. */
  ghost predicate Trims(s: string, a: nat, b: nat)
  {
    && a <= b <= |s|
    && (forall i :: 0 <= i < a || b <= i < |s| ==> s[i] == '/')
    && (a < b ==> s[a] != '/' && s[b - 1] != '/')
  }

  ghost predicate Refused(s: string, a: nat, b: nat)
    requires Trims(s, a, b)
  {
    a == b || |Encode(s[a..b])| > 1_024 || ".." in Split(s, '/')
  }

  lemma {:induction false} StripTrims(s: string) returns (a: nat, b: nat)
    ensures Trims(s, a, b) && Strip(s) == s[a..b]
    decreases |s|
  {
    a, b := 0, |s|;
    if s != "" && s[0] == '/' {
      a, b := StripTrims(s[1..]);
      a, b := a + 1, b + 1;
      assert forall i :: 1 <= i < |s| ==> s[i] == s[1..][i - 1];
    } else if s != "" && s[|s| - 1] == '/' {
      a, b := StripTrims(s[..|s| - 1]);
    }
  }

  /**
   * Exactly which paths are refused: those of slashes only, those longer than 1024 bytes between the slashes around
   * them, and those with a parent segment. The others keep their plain segments.
   */
  lemma CleanPathMeans(value: string) returns (a: nat, b: nat)
    ensures var s := Slashes(value);
            && Trims(s, a, b) && (CleanPath(value).None? <==> Refused(s, a, b))
            && (CleanPath(value).Some? ==> CleanPath(value).value == Join(Kept(Split(s, '/')), '/'))
  {
    var s := Slashes(value);
    a, b := StripTrims(s);
    KeptFrom(Split(s, '/'));
    KeptFrom(Split(Strip(s), '/'));
    StripKeepsSegments(s);
    assert ".." in Split(s, '/') <==> ".." in Kept(Split(s, '/'));
  }

  ghost predicate HasPrevious(f: RawFile)
  {
    f.previousPath.Some? && f.previousPath.value != ""
  }

  ghost predicate AcceptableFile(f: RawFile)
  {
    && CleanPath(f.path).Some?
    && f.status in {"added", "modified", "removed", "renamed", "copied", "changed"}
    && f.additions >= 0
    && f.deletions >= 0
    && (HasPrevious(f) ==> CleanPath(f.previousPath.value).Some?)
    && (f.status == "renamed" ==> HasPrevious(f))
  }

  /** No two entries, equal ones included, name the same file. */
  ghost predicate DistinctPaths(files: multiset<RawFile>)
  {
    && (forall f :: f in files ==> files[f] == 1)
    && (forall f, g :: f in files && g in files && f != g ==> CleanPath(f.path) != CleanPath(g.path))
  }

  /** What the source demands of a change list, in whatever order. */
  ghost predicate Acceptable(files: multiset<RawFile>)
  {
    && |files| <= 1_000
    && (forall f :: f in files ==> AcceptableFile(f))
    && DistinctPaths(files)
  }

  // ---------------------------------------------------------------- sorting

  /** Before an entry of the same key, so that the sort is stable. */
  function Insert(f: RawFile, sorted: seq<RawFile>): (r: seq<RawFile>)
    ensures multiset(r) == multiset(sorted) + multiset{f}
  {
    if sorted == [] then [f]
    else if Order.StrLess(Slashes(sorted[0].path), Slashes(f.path)) then
      assert sorted == [sorted[0]] + sorted[1..];
      [sorted[0]] + Insert(f, sorted[1..])
    else [f] + sorted
  }

  function Sorted(files: seq<RawFile>): (r: seq<RawFile>)
    ensures multiset(r) == multiset(files)
  {
    if files == [] then []
    else
      assert files == [files[0]] + files[1..];
      Insert(files[0], Sorted(files[1..]))
  }

  ghost predicate NotAfter(f: RawFile, g: RawFile)
  {
    !Order.StrLess(Slashes(g.path), Slashes(f.path))
  }

  ghost predicate InOrder(files: seq<RawFile>)
  {
    forall i, j :: 0 <= i < j < |files| ==> NotAfter(files[i], files[j])
  }

  lemma NotAfterTransitive(f: RawFile, g: RawFile, h: RawFile)
    requires NotAfter(f, g) && NotAfter(g, h)
    ensures NotAfter(f, h)
  {
    var a, b, c := Slashes(f.path), Slashes(g.path), Slashes(h.path);
    Order.StrLessTotal(b, c);
    Order.StrLessTotal(a, b);
    if Order.StrLess(c, a) {
      if a != b && b != c {
        Order.StrLessTransitive(a, b, c);
      }
      Order.StrLessAsymmetric(c, a);
    }
  }

  lemma {:induction false} InsertInOrder(f: RawFile, sorted: seq<RawFile>)
    requires InOrder(sorted)
    ensures InOrder(Insert(f, sorted))
  {
    hide Slashes, Order.StrLess;
    var r := Insert(f, sorted);
    if sorted != [] {
      assert sorted == [sorted[0]] + sorted[1..];
      if Order.StrLess(Slashes(sorted[0].path), Slashes(f.path)) {
        InsertInOrder(f, sorted[1..]);
        Order.StrLessAsymmetric(Slashes(sorted[0].path), Slashes(f.path));
        forall j | 0 < j < |r|
          ensures NotAfter(r[0], r[j])
        {
          assert r[j] in multiset(r[1..]);
        }
      } else {
        forall j | 0 <= j < |sorted|
          ensures NotAfter(f, sorted[j])
        {
          if j > 0 {
            NotAfterTransitive(f, sorted[0], sorted[j]);
          }
        }
      }
    }
  }

  lemma {:induction false} SortedInOrder(files: seq<RawFile>)
    ensures InOrder(Sorted(files))
  {
    if files != [] {
      SortedInOrder(files[1..]);
      InsertInOrder(files[0], Sorted(files[1..]));
    }
  }

  lemma SameKey(f: RawFile, g: RawFile)
    requires NotAfter(f, g) && NotAfter(g, f)
    ensures CleanPath(f.path) == CleanPath(g.path)
  {
    hide CleanPath, Strip;
    Order.StrLessTotal(Slashes(f.path), Slashes(g.path));
    SameSlashes(f.path, g.path);
  }

  lemma {:induction false} SameSlashes(a: string, b: string)
    requires Slashes(a) == Slashes(b)
    ensures CleanPath(a) == CleanPath(b)
  {
  }

  lemma FirstOfEqual(a: seq<RawFile>, b: seq<RawFile>)
    requires a != [] && b != [] && multiset(a) == multiset(b) && InOrder(b)
    ensures a[0] == b[0] || NotAfter(b[0], a[0])
  {
    hide NotAfter;
    assert a[0] in multiset(b);
    var i :| 0 <= i < |b| && b[i] == a[0];
  }

  lemma SameHeads(a: seq<RawFile>, b: seq<RawFile>)
    requires a != [] && b != [] && InOrder(a) && InOrder(b)
    requires multiset(a) == multiset(b) && DistinctPaths(multiset(a))
    ensures a[0] == b[0]
  {
    hide NotAfter, CleanPath, InOrder;
    assert a[0] in multiset(a) && b[0] in multiset(b);
    if a[0] != b[0] {
      FirstOfEqual(a, b);
      FirstOfEqual(b, a);
      SameKey(a[0], b[0]);
      assert false;
    }
  }

  lemma DistinctPart(part: multiset<RawFile>, whole: multiset<RawFile>)
    requires DistinctPaths(whole) && part <= whole
    ensures DistinctPaths(part)
  {
  }

  lemma TailsOfEqual(a: seq<RawFile>, b: seq<RawFile>)
    requires a != [] && b != [] && multiset(a) == multiset(b) && a[0] == b[0]
    ensures multiset(a[1..]) == multiset(b[1..]) <= multiset(a)
  {
    assert a == [a[0]] + a[1..] && b == [b[0]] + b[1..];
    assert multiset(a[1..]) == multiset(a) - multiset{a[0]};
    assert multiset(b[1..]) == multiset(b) - multiset{b[0]};
  }

  /** Two sorted lists of the same acceptable files are the same list. */
  lemma {:induction false} SortedUnique(a: seq<RawFile>, b: seq<RawFile>)
    requires InOrder(a) && InOrder(b) && multiset(a) == multiset(b) && DistinctPaths(multiset(a))
    ensures a == b
  {
    hide NotAfter, DistinctPaths;
    assert |a| == |multiset(a)| == |multiset(b)| == |b|;
    if a != [] {
      SameHeads(a, b);
      TailsOfEqual(a, b);
      DistinctPart(multiset(a[1..]), multiset(a));
      SortedUnique(a[1..], b[1..]);
      assert a == [a[0]] + a[1..] && b == [b[0]] + b[1..];
    }
  }

  // ---------------------------------------------------------------- the patch budget

  ghost function PatchSize(f: NormalizedFile): nat
  {
    if f.patch.Some? then |Encode(f.patch.value)| else 0
  }

  ghost function PatchBytes(files: seq<NormalizedFile>): nat
  {
    if files == [] then 0 else PatchBytes(files[..|files| - 1]) + PatchSize(files[|files| - 1])
  }

  /** What one patch may keep when `consumed` bytes are already stored. */
  ghost function Cap(consumed: nat): nat
  {
    var remaining := if consumed < 1_048_576 then 1_048_576 - consumed else 0;
    if remaining < 65_536 then remaining else 65_536
  }

  ghost predicate Stored(f: RawFile, n: NormalizedFile)
  {
    f.patch.Some? && !n.isBinary
  }

  /** The longest prefix of `patch` that fits the cap, with its line endings folded. */
  ghost function Bounded(patch: string, consumed: nat): string
  {
    FoldLines(patch[..FitCount(patch, Cap(consumed))])
  }

  ghost predicate CutAt(f: RawFile, n: NormalizedFile, consumed: nat)
  {
    Stored(f, n) && |Encode(f.patch.value)| > Cap(consumed)
  }

  /** Entry `n` is file `f` normalized when `consumed` bytes were stored before it. */
  ghost predicate Normalizes(f: RawFile, isBinary: string -> bool, n: NormalizedFile, consumed: nat)
  {
    && Some(n.path) == CleanPath(f.path)
    && n.previousPath == (if HasPrevious(f) then CleanPath(f.previousPath.value) else None)
    && n.additions == f.additions && n.deletions == f.deletions && n.status == f.status
    && n.isBinary == isBinary(n.path)
    && n.patch == (if Stored(f, n) then Some(Bounded(f.patch.value, consumed)) else None)
    && (n.patchTruncated <==> CutAt(f, n, consumed))
  }

  ghost predicate NormalizesAt(sorted: seq<RawFile>, isBinary: string -> bool, files: seq<NormalizedFile>, i: nat)
    requires i < |files| <= |sorted|
  {
    Normalizes(sorted[i], isBinary, files[i], PatchBytes(files[..i]))
  }

  ghost predicate Flagged(sorted: seq<RawFile>, files: seq<NormalizedFile>, i: nat)
    requires i < |files| <= |sorted|
  {
    && Stored(sorted[i], files[i])
    && (files[i].patchTruncated || PatchBytes(files[..i]) >= 1_048_576)
  }

  /** The first `|files|` of the sorted files are normalized, one after the other. */
  ghost predicate NormalizedSoFar(
    sorted: seq<RawFile>, isBinary: string -> bool, files: seq<NormalizedFile>, total: nat, flag: bool)
  {
    && |files| <= |sorted|
    && (forall i: nat :: i < |files| ==> NormalizesAt(sorted, isBinary, files, i))
    && total == PatchBytes(files)
    && (flag <==> exists i: nat :: i < |files| && Flagged(sorted, files, i))
  }

  ghost predicate IsNormalized(sorted: seq<RawFile>, isBinary: string -> bool, diff: NormalizedDiff)
  {
    && |diff.files| == |sorted|
    && NormalizedSoFar(sorted, isBinary, diff.files, diff.totalPatchBytes, diff.patchSetTruncated)
  }

  lemma OneMore(
    sorted: seq<RawFile>, isBinary: string -> bool, files: seq<NormalizedFile>, total: nat, flag: bool,
    n: NormalizedFile)
    requires NormalizedSoFar(sorted, isBinary, files, total, flag) && |files| < |sorted|
    requires Normalizes(sorted[|files|], isBinary, n, total)
    ensures NormalizedSoFar(sorted, isBinary, files + [n], total + PatchSize(n),
                            flag || (Stored(sorted[|files|], n) && (n.patchTruncated ||
                                                            total >= MAX_TOTAL_PATCH_BYTES)))
  {
    hide Normalizes, PatchSize, Stored;
    var more := files + [n];
    assert more[..|files|] == files;
    forall i: nat | i < |files|
      ensures NormalizesAt(sorted, isBinary, more, i)
      ensures Flagged(sorted, more, i) <==> Flagged(sorted, files, i)
    {
      assert more[..i] == files[..i];
      assert NormalizesAt(sorted, isBinary, files, i);
    }
    assert NormalizesAt(sorted, isBinary, more, |files|);
    var last := Stored(sorted[|files|], n) && (n.patchTruncated || total >= MAX_TOTAL_PATCH_BYTES);
    assert last <==> Flagged(sorted, more, |files|);
    if flag {
      var i: nat :| i < |files| && Flagged(sorted, files, i);
      assert Flagged(sorted, more, i);
    }
  }

  /** A stored patch keeps within its cap. */
  lemma StoredWithinCap(f: RawFile, isBinary: string -> bool, n: NormalizedFile, consumed: nat)
    requires Normalizes(f, isBinary, n, consumed)
    ensures PatchSize(n) <= Cap(consumed)
  {
    if Stored(f, n) {
      var patch := f.patch.value;
      FitCountLongest(patch, Cap(consumed), FitCount(patch, Cap(consumed)));
      FoldShrinks(patch[..FitCount(patch, Cap(consumed))]);
    }
  }

  /** Stored patches take at most 64 KiB each and 1 MiB together. */
  lemma {:induction false} WithinBudget(
    sorted: seq<RawFile>, isBinary: string -> bool, files: seq<NormalizedFile>, total: nat, flag: bool)
    requires NormalizedSoFar(sorted, isBinary, files, total, flag)
    ensures total == PatchBytes(files) <= 1_048_576
    ensures forall n :: n in files ==> PatchSize(n) <= 65_536
    decreases |files|
  {
    hide Normalizes, PatchSize;
    if files != [] {
      var k := |files| - 1;
      var fewer := files[..k];
      forall i: nat | i < k
        ensures NormalizesAt(sorted, isBinary, fewer, i)
      {
        assert fewer[..i] == files[..i];
        assert NormalizesAt(sorted, isBinary, files, i);
      }
      WithinBudget(sorted, isBinary, fewer, PatchBytes(fewer), exists i: nat :: i < k && Flagged(sorted, fewer, i));
      assert NormalizesAt(sorted, isBinary, files, k);
      StoredWithinCap(sorted[k], isBinary, files[k], PatchBytes(fewer));
      assert files == fewer + [files[k]];
    }
  }

  /** Without the set-wide flag nothing was lost: every stored patch is the whole patch, line endings folded. */
  lemma UnflaggedComplete(sorted: seq<RawFile>, isBinary: string -> bool, diff: NormalizedDiff, i: nat)
    requires IsNormalized(sorted, isBinary, diff) && !diff.patchSetTruncated && i < |sorted|
    requires Stored(sorted[i], diff.files[i])
    ensures diff.files[i].patch == Some(FoldLines(sorted[i].patch.value))
  {
    assert NormalizesAt(sorted, isBinary, diff.files, i);
    var patch := sorted[i].patch.value;
    var cap := Cap(PatchBytes(diff.files[..i]));
    assert !Flagged(sorted, diff.files, i);
    assert patch[..|patch|] == patch;
    FitCountLongest(patch, cap, |patch|);
  }

  lemma NormalizesUnique(f: RawFile, isBinary: string -> bool, n: NormalizedFile, m: NormalizedFile, consumed: nat)
    requires Normalizes(f, isBinary, n, consumed) && Normalizes(f, isBinary, m, consumed)
    ensures n == m
  {
  }

  /** The normalized entries are determined by the sorted files. */
  lemma {:induction false} NormalizedUnique(
    sorted: seq<RawFile>, isBinary: string -> bool, a: NormalizedDiff, b: NormalizedDiff, k: nat)
    requires IsNormalized(sorted, isBinary, a) && IsNormalized(sorted, isBinary, b) && k <= |sorted|
    ensures a.files[..k] == b.files[..k]
    ensures k == |sorted| ==> a == b
  {
    hide Normalizes, PatchBytes, Flagged;
    if k > 0 {
      NormalizedUnique(sorted, isBinary, a, b, k - 1);
      assert NormalizesAt(sorted, isBinary, a.files, k - 1) && NormalizesAt(sorted, isBinary, b.files, k - 1);
      NormalizesUnique(sorted[k - 1], isBinary, a.files[k - 1], b.files[k - 1], PatchBytes(a.files[..k - 1]));
      assert a.files[..k] == a.files[..k - 1] + [a.files[k - 1]];
      assert b.files[..k] == b.files[..k - 1] + [b.files[k - 1]];
    }
    if k == |sorted| {
      assert a.files[..k] == a.files && b.files[..k] == b.files;
    }
  }

  /** The outcome does not depend on the order the files came in. */
  lemma {:induction false} OrderIrrelevant(
    files: seq<RawFile>, shuffled: seq<RawFile>, isBinary: string -> bool, a: NormalizedDiff, b: NormalizedDiff)
    requires multiset(files) == multiset(shuffled) && Acceptable(multiset(files))
    requires IsNormalized(Sorted(files), isBinary, a) && IsNormalized(Sorted(shuffled), isBinary, b)
    ensures a == b
  {
    hide *;
    SortedInOrder(files);
    SortedInOrder(shuffled);
    assert DistinctPaths(multiset(files)) by { AcceptableDistinct(multiset(files)); }
    SortedUnique(Sorted(files), Sorted(shuffled));
    NormalizedUnique(Sorted(files), isBinary, a, b, |Sorted(files)|);
  }

  lemma AcceptableDistinct(files: multiset<RawFile>)
    requires Acceptable(files)
    ensures DistinctPaths(files)
  {
  }

  // ---------------------------------------------------------------- the loop

  ghost predicate SeenAt(done: multiset<RawFile>, path: string)
  {
    exists f :: f in done && CleanPath(f.path) == Some(path)
  }

  /** The files seen so far are fine, and `seen` holds their paths. */
  ghost predicate SeenSoFar(done: multiset<RawFile>, seen: set<string>)
  {
    && (forall f :: f in done ==> AcceptableFile(f))
    && DistinctPaths(done)
    && (forall path :: path in seen <==> SeenAt(done, path))
  }

  lemma DistinctOneMore(done: multiset<RawFile>, f: RawFile)
    requires DistinctPaths(done) && CleanPath(f.path).Some?
    ensures DistinctPaths(done + multiset{f}) <==> !SeenAt(done, CleanPath(f.path).value)
  {
  }

  lemma SeenAtMore(done: multiset<RawFile>, f: RawFile, other: string)
    ensures SeenAt(done + multiset{f}, other) <==> SeenAt(done, other) || CleanPath(f.path) == Some(other)
  {
  }

  lemma SeenOneMore(done: multiset<RawFile>, seen: set<string>, f: RawFile)
    requires SeenSoFar(done, seen) && AcceptableFile(f) && CleanPath(f.path).Some?
    ensures var path := CleanPath(f.path).value;
            if path in seen then !DistinctPaths(done + multiset{f}) else SeenSoFar(done + multiset{f}, seen + {path})
  {
    hide AcceptableFile, CleanPath, DistinctPaths, SeenAt;
    var path := CleanPath(f.path).value;
    DistinctOneMore(done, f);
    forall other
      ensures SeenAt(done + multiset{f}, other) <==> SeenAt(done, other) || other == path
    {
      SeenAtMore(done, f, other);
    }
  }

  /** One bad file, or a clash among some of the files, rejects the list. */
  lemma Rejected(sorted: seq<RawFile>, i: nat)
    requires i < |sorted|
    ensures !AcceptableFile(sorted[i]) ==> !Acceptable(multiset(sorted))
    ensures !DistinctPaths(multiset(sorted[..i]) + multiset{sorted[i]}) ==> !Acceptable(multiset(sorted))
    ensures multiset(sorted[..i + 1]) == multiset(sorted[..i]) + multiset{sorted[i]}
  {
    hide AcceptableFile, DistinctPaths;
    assert sorted[i] in multiset(sorted);
    assert sorted[..i + 1] == sorted[..i] + [sorted[i]];
    assert sorted == sorted[..i + 1] + sorted[i + 1..];
    if Acceptable(multiset(sorted)) {
      DistinctPart(multiset(sorted[..i + 1]), multiset(sorted));
    }
  }

  /** Succeeds exactly on acceptable lists, with every file normalized under the budget the earlier ones left. */
  method NormalizeDiff(changed: seq<RawFile>, isBinary: string -> bool) returns (r: Result<NormalizedDiff>)
    ensures r.Ok? <==> Acceptable(multiset(changed))
    ensures r.Ok? ==> IsNormalized(Sorted(changed), isBinary, r.value)
  {
    hide CleanPath, Sorted, DistinctPaths, SeenAt, SeenSoFar, NormalizedSoFar, Acceptable, PatchBytes;
    hide Encode, FitCount, FoldLines;
    EmptyStart(changed, isBinary);
    if |changed| > MAX_CHANGED_FILES {
      return ValueError;
    }
    var sorted := Sorted(changed);
    var files: seq<NormalizedFile> := [];
    var consumed: nat := 0;
    var flag := false;
    var seen: set<string> := {};
    for i := 0 to |sorted|
      invariant SeenSoFar(multiset(sorted[..i]), seen)
      invariant |files| == i && NormalizedSoFar(sorted, isBinary, files, consumed, flag)
    {
      var item := sorted[i];
      Rejected(sorted, i);
      var path := CleanPath(item.path);
      if path.None? {
        return ValueError;
      }
      if AcceptableFile(item) {
        SeenOneMore(multiset(sorted[..i]), seen, item);
      }
      if path.value in seen {
        return ValueError;
      }
      seen := seen + {path.value};
      if item.status !in STATUSES {
        return ValueError;
      }
      if item.additions < 0 || item.deletions < 0 {
        return ValueError;
      }
      var previous: Option<string> := None;
      if item.previousPath.Some? && item.previousPath.value != "" {
        previous := CleanPath(item.previousPath.value);
        if previous.None? {
          return ValueError;
        }
      }
      if item.status == "renamed" && previous.None? {
        return ValueError;
      }
      var binary := isBinary(path.value);
      var patch: Option<string> := None;
      var patchTruncated := false;
      ghost var before, flagged := consumed, flag;
      if item.patch.Some? && !binary {
        var remaining := if consumed < MAX_TOTAL_PATCH_BYTES then MAX_TOTAL_PATCH_BYTES - consumed else 0;
        var cap := if MAX_PATCH_BYTES < remaining then MAX_PATCH_BYTES else remaining;
        var kept, cut := TruncateUtf8(item.patch.value, cap);
        patch, patchTruncated := Some(kept), cut;
        consumed := consumed + |Encode(kept)|;
        if remaining == 0 || patchTruncated {
          flag := true;
        }
      }
      var n := NormalizedFile(path.value, previous, item.additions, item.deletions, item.status,
                              patch, patchTruncated, binary);
      OneMore(sorted, isBinary, files, before, flagged, n);
      files := files + [n];
    }
    assert sorted[..|sorted|] == sorted;
    SeenAccepts(sorted, seen);
    r := Ok(NormalizedDiff(files, consumed, flag));
  }

  lemma {:induction false} EmptyStart(changed: seq<RawFile>, isBinary: string -> bool)
    ensures SeenSoFar(multiset{}, {}) && NormalizedSoFar(Sorted(changed), isBinary, [], 0, false)
    ensures |Sorted(changed)| == |changed|
    ensures |changed| > MAX_CHANGED_FILES ==> !Acceptable(multiset(changed))
  {
    assert |multiset(Sorted(changed))| == |multiset(changed)|;
  }

  lemma SeenAccepts(sorted: seq<RawFile>, seen: set<string>)
    requires SeenSoFar(multiset(sorted), seen) && |sorted| <= MAX_CHANGED_FILES
    ensures Acceptable(multiset(sorted))
  {
  }
}
