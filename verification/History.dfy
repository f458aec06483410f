/** Repository history from before the prediction time. */
module History {
  import opened Wrappers
  import opened Segments

  const MAX_HISTORY_CHANGES := 10_000

  const MAX_WINDOW_DAYS := 3_650

  const DAY := 86_400

  datatype FileChange = FileChange(path: string, additions: int, deletions: int)

  datatype Change = Change(
    observedAt: int, files: seq<FileChange>, authorKey: Option<string>, failedCheck: Option<bool>)

  /** What is asked of the history. */
  datatype Query = Query(targets: set<string>, prediction: int, windowDays: int, author: Option<string>)

  datatype Statistics = Statistics(
    includedChanges: int, excludedFutureChanges: int, targetFileTouches: int, targetModuleTouches: int,
    lineChurn: int, failureCount: Option<int>, failureObservations: int, ownershipFamiliarity: Option<real>,
    missing: seq<string>)

  /** The counters of the two loops. */
  datatype Counter =
    | Included
    | Future
    | FileTouches
    | ModuleTouches
    | Churn
    | FailureObservations
    | Failures
    | OwnershipObservations
    | Familiar

  /** The paths of a change, with forward slashes. */
  function Paths(files: seq<FileChange>): set<string>
  {
    set f | f in files :: Slashes(f.path)
  }

  /** The first part of an absolute pure path. */
  function Root(path: string): seq<string>
  {
    if "//" <= path && !("///" <= path) then ["//"] else if "/" <= path then ["/"] else []
  }

  /** The directory of a path below a leading `src` or `lib`, or the path itself where nothing is below. */
  function ModuleArea(path: string): string
  {
    var all := Root(path) + Kept(Split(path, '/'));
    var parts := if all != [] && all[0] in {"src", "lib"} then all[1..] else all;
    if parts == [] then path
    else if |parts| == 1 then parts[0]
    else Join(parts[..|parts| - 1], '/')
  }

  function Areas(paths: set<string>): set<string>
  {
    set p | p in paths :: ModuleArea(p)
  }

  ghost predicate InWindow(q: Query, c: Change)
  {
    q.prediction - q.windowDays * 86_400 <= c.observedAt < q.prediction
  }

  predicate TouchesFiles(q: Query, c: Change)
  {
    Paths(c.files) * q.targets != {}
  }

  predicate TouchesModules(q: Query, c: Change)
  {
    Areas(Paths(c.files)) * Areas(q.targets) != {}
  }

  function ChurnOf(q: Query, files: seq<FileChange>): int
  {
    if files == [] then 0 else
    var f := files[|files| - 1];
    ChurnOf(q, files[..|files| - 1]) + (if Slashes(f.path) in q.targets then f.additions + f.deletions else 0)
  }

  function One(b: bool): int
  {
    if b then 1 else 0
  }

  // ----- What the parts mean

  /** A change touches the files when one of its paths is a target. */
  lemma TouchesFilesMeans(q: Query, c: Change)
    ensures TouchesFiles(q, c) <==> exists f :: f in c.files && Slashes(f.path) in q.targets
  {
    hide Slashes;
    if f :| f in c.files && Slashes(f.path) in q.targets {
      assert Slashes(f.path) in Paths(c.files) * q.targets;
    }
  }

  /** A change touches the modules when the area of one of its paths is that of a target. */
  lemma TouchesModulesMeans(q: Query, c: Change)
    ensures TouchesModules(q, c) <==>
            exists f, t :: f in c.files && t in q.targets && ModuleArea(Slashes(f.path)) == ModuleArea(t)
  {
    hide Slashes, ModuleArea;
    if f, t :| f in c.files && t in q.targets && ModuleArea(Slashes(f.path)) == ModuleArea(t) {
      assert Slashes(f.path) in Paths(c.files);
      assert ModuleArea(t) in Areas(Paths(c.files)) * Areas(q.targets);
    }
    if TouchesModules(q, c) {
      var area :| area in Areas(Paths(c.files)) * Areas(q.targets);
      var t :| t in q.targets && ModuleArea(t) == area;
      var p :| p in Paths(c.files) && ModuleArea(p) == area;
      var f :| f in c.files && Slashes(f.path) == p;
    }
  }

  /** The churn of a change adds up over its files, of which only targets count. */
  lemma {:induction false} ChurnAdds(q: Query, a: seq<FileChange>, b: seq<FileChange>)
    ensures ChurnOf(q, a + b) == ChurnOf(q, a) + ChurnOf(q, b)
  {
    if b == [] {
      assert a + b == a;
    } else {
      assert (a + b)[..|a + b| - 1] == a + b[..|b| - 1];
      ChurnAdds(q, a, b[..|b| - 1]);
    }
  }

  lemma {:induction false} ChurnOfOne(q: Query, f: FileChange)
    ensures ChurnOf(q, [f]) == if Slashes(f.path) in q.targets then f.additions + f.deletions else 0
  {
    assert [f][..0] == [];
    assert ChurnOf(q, []) == 0;
  }

  ghost predicate Plain(part: string)
  {
    part != "" && part != "." && '/' !in part
  }

  lemma {:induction false} PlainKept(parts: seq<string>)
    requires forall part :: part in parts ==> Plain(part)
    ensures Kept(parts) == parts
  {
    if parts != [] {
      PlainKept(parts[1..]);
      assert Plain(parts[0]) && parts == [parts[0]] + parts[1..];
    }
  }

  lemma {:induction false} PlainParts(parts: seq<string>)
    requires parts != [] && forall part :: part in parts ==> Plain(part)
    ensures var path := Join(parts, '/');
            && path != "" && path[0] != '/'
            && Kept(Split(path, '/')) == parts && Kept(Split("/" + path, '/')) == parts
  {
    var path := Join(parts, '/');
    PlainStart(parts);
    SplitJoined(parts, '/');
    PlainKept(parts);
    assert ("/" + path)[1..] == path;
    assert ([""] + parts)[1..] == parts;
  }

  /**
   * The area of a path is its directory, where a leading `src` or `lib` does not count; a file with no directory left
   * is its own area.
   */
  lemma {:induction false} AreaMeans(parts: seq<string>)
    requires parts != [] && forall part :: part in parts ==> Plain(part)
    ensures var path, n := Join(parts, '/'), |parts|;
            && (n == 1 ==> ModuleArea(path) == parts[0])
            && (n == 2 && parts[0] in {"src", "lib"} ==> ModuleArea(path) == parts[1])
            && (n >= 3 && parts[0] in {"src", "lib"} ==> ModuleArea(path) == Join(parts[1..n - 1], '/'))
            && (n >= 2 && parts[0] !in {"src", "lib"} ==> ModuleArea(path) == Join(parts[..n - 1], '/'))
  {
    hide Split, Join, Kept, Plain;
    var path, n := Join(parts, '/'), |parts|;
    PlainParts(parts);
    JoinOne(parts[0]);
    assert n == 1 ==> parts == [parts[0]];
    assert Root(path) + parts == parts;
    AreaFrom(path, parts);
  }

  /** The area of a path whose root and segments are `all`. */
  lemma {:induction false} AreaFrom(path: string, all: seq<string>)
    requires all != [] && Root(path) + Kept(Split(path, '/')) == all
    ensures var n, below := |all|, all[0] in {"src", "lib"};
            ModuleArea(path) == (if n == 1 then (if below then path else all[0])
                                 else if !below then Join(all[..n - 1], '/')
                                 else if n == 2 then all[1]
                                 else Join(all[1..n - 1], '/'))
  {
    hide Split, Join, Kept, Root;
    var n, below := |all|, all[0] in {"src", "lib"};
    if below && n >= 2 {
      Middle(all);
    }
  }

  lemma Middle(parts: seq<string>)
    requires |parts| >= 2
    ensures parts[1..][..|parts| - 2] == parts[1..|parts| - 1]
    ensures forall first: string :: ([first] + parts)[..|parts|] == [first] + parts[..|parts| - 1]
  {
  }

  lemma JoinOne(part: string)
    ensures Join([part], '/') == part
  {
  }

  lemma {:induction false} RootArea(root: string, path: string, parts: seq<string>)
    requires Root(path) == [root] && root !in {"src", "lib"} && Kept(Split(path, '/')) == parts != []
    ensures ModuleArea(path) == if |parts| == 1 then root else root + "/" + Join(parts[..|parts| - 1], '/')
  {
    hide *;
    AreaFrom(path, [root] + parts);
    JoinOne(root);
    if |parts| >= 2 {
      Middle(parts);
      JoinMore(root, parts[..|parts| - 1]);
    } else {
      assert ([root] + parts)[..1] == [root];
    }
  }

  /** Below the root the area starts with the root. */
  lemma {:induction false} RootedAreaMeans(parts: seq<string>)
    requires parts != [] && forall part :: part in parts ==> Plain(part)
    ensures ModuleArea("/" + Join(parts, '/'))
         == if |parts| == 1 then "/" else "/" + "/" + Join(parts[..|parts| - 1], '/')
  {
    hide *;
    var path := Join(parts, '/');
    PlainParts(parts);
    RootedRoot(path);
    assert "/" !in {"src", "lib"};
    RootArea("/", "/" + path, parts);
  }

  lemma RootedRoot(path: string)
    requires path != "" && path[0] != '/'
    ensures Root("/" + path) == ["/"]
  {
    assert ("/" + path)[1] == path[0];
  }

  /** Two slashes are a root of their own, three are the same as one. */
  lemma {:induction false} DoubleRootMeans(parts: seq<string>)
    requires parts != [] && forall part :: part in parts ==> Plain(part)
    ensures ModuleArea("//" + Join(parts, '/'))
         == if |parts| == 1 then "//" else "//" + "/" + Join(parts[..|parts| - 1], '/')
    ensures ModuleArea("///" + Join(parts, '/')) == ModuleArea("/" + Join(parts, '/'))
  {
    hide *;
    var path := Join(parts, '/');
    PlainParts(parts);
    MoreSlashes(path, parts);
    assert "//" !in {"src", "lib"} && "/" !in {"src", "lib"};
    RootArea("//", "//" + path, parts);
    RootArea("/", "///" + path, parts);
    RootArea("/", "/" + path, parts);
  }

  lemma {:induction false} MoreSlashes(path: string, parts: seq<string>)
    requires path != "" && path[0] != '/' && Kept(Split("/" + path, '/')) == parts
    ensures Root("//" + path) == ["//"] && Kept(Split("//" + path, '/')) == parts
    ensures Root("///" + path) == ["/"] == Root("/" + path) && Kept(Split("///" + path, '/')) == parts
  {
    hide Kept;
    RootedRoot(path);
    assert ("//" + path)[2] == path[0];
    assert ("//" + path)[1..] == "/" + path && ("///" + path)[1..] == "//" + path;
    var one := Split("/" + path, '/');
    assert Split("//" + path, '/') == [""] + one;
    assert Split("///" + path, '/') == [""] + ([""] + one);
    KeptOne("");
    KeptJoined([""], one);
    KeptJoined([""], [""] + one);
  }

  lemma {:induction false} JoinMore(first: string, parts: seq<string>)
    requires parts != []
    ensures Join([first] + parts, '/') == first + "/" + Join(parts, '/')
  {
    assert ([first] + parts)[1..] == parts;
  }

  lemma {:induction false} PlainStart(parts: seq<string>)
    requires parts != [] && forall part :: part in parts ==> Plain(part)
    ensures Join(parts, '/') != "" && Join(parts, '/')[0] != '/'
  {
    assert Plain(parts[0]);
    assert parts[0][0] in parts[0];
  }

  /** Which gaps are reported, in which order. */
  lemma MissingMeans(included: int, failureObservations: int, author: Option<string>, ownershipObservations: int,
                     truncated: bool)
    ensures var gaps := Missing(included, failureObservations, author, ownershipObservations, truncated);
            && ("repository_history" in gaps <==> included == 0)
            && ("prior_failure_proxy" in gaps <==> failureObservations == 0)
            && ("current_author_key" in gaps <==> author.None?)
            && ("ownership_history" in gaps <==> author.Some? && ownershipObservations == 0)
            && ("history_truncated" in gaps <==> truncated)
            && (forall i, j :: 0 <= i < j < |gaps| ==> GapPlace(gaps[i]) < GapPlace(gaps[j]) <= 4)
  {
    hide *;
    GapPlaces();
    MissingIs(included, failureObservations, author, ownershipObservations, truncated);
    MissingOrdered(included, failureObservations, author, ownershipObservations, truncated);
  }

  lemma MissingOrdered(included: int, failureObservations: int, author: Option<string>, ownershipObservations: int,
                       truncated: bool)
    ensures var gaps := Missing(included, failureObservations, author, ownershipObservations, truncated);
            forall i, j :: 0 <= i < j < |gaps| ==> GapPlace(gaps[i]) < GapPlace(gaps[j]) <= 4
  {
    hide *;
    GapPlaces();
    MissingIs(included, failureObservations, author, ownershipObservations, truncated);
  }

  lemma MissingIs(included: int, failureObservations: int, author: Option<string>, ownershipObservations: int,
                  truncated: bool)
    ensures Missing(included, failureObservations, author, ownershipObservations, truncated)
         == If(included == 0, "repository_history") + If(failureObservations == 0, "prior_failure_proxy")
            + (If(author.None?, "current_author_key")
               + If(author.Some? && ownershipObservations == 0, "ownership_history"))
            + If(truncated, "history_truncated")
  {
  }

  ghost function If(b: bool, gap: string): (r: seq<string>)
    ensures |r| == if b then 1 else 0
    ensures b ==> r[0] == gap
  {
    if b then [gap] else []
  }

  lemma GapPlaces()
    ensures GapPlace("repository_history") == 0 && GapPlace("prior_failure_proxy") == 1
    ensures GapPlace("current_author_key") == 2 && GapPlace("ownership_history") == 3
    ensures GapPlace("history_truncated") == 4
  {
    assert "repository_history"[0] == 'r' && "prior_failure_proxy"[0] == 'p' && "current_author_key"[0] == 'c';
    assert "ownership_history"[0] == 'o' && "history_truncated"[0] == 'h';
  }

  ghost function GapPlace(gap: string): nat
  {
    if gap == "repository_history" then 0 else if gap == "prior_failure_proxy" then 1
    else if gap == "current_author_key" then 2 else if gap == "ownership_history" then 3
    else if gap == "history_truncated" then 4 else 5
  }

  /** What one change adds to a counter. */
  ghost function Weight(q: Query, counter: Counter, c: Change): int
  {
    match counter
    case Future => One(c.observedAt >= q.prediction)
    case Included => One(InWindow(q, c))
    case FileTouches => One(InWindow(q, c) && TouchesFiles(q, c))
    case ModuleTouches => One(InWindow(q, c) && TouchesModules(q, c))
    case Churn => if InWindow(q, c) && TouchesFiles(q, c) then ChurnOf(q, c.files) else 0
    case FailureObservations => One(InWindow(q, c) && TouchesModules(q, c) && c.failedCheck.Some?)
    case Failures => One(InWindow(q, c) && TouchesModules(q, c) && c.failedCheck == Some(true))
    case OwnershipObservations =>
      One(InWindow(q, c) && TouchesModules(q, c) && q.author.Some? && c.authorKey.Some?)
    case Familiar => One(InWindow(q, c) && TouchesModules(q, c) && q.author.Some? && c.authorKey == q.author)
  }

  ghost function Sum(q: Query, counter: Counter, history: seq<Change>): int
  {
    if history == [] then 0
    else Sum(q, counter, history[..|history| - 1]) + Weight(q, counter, history[|history| - 1])
  }

  function Missing(included: int, failureObservations: int, author: Option<string>, ownershipObservations: int,
                   truncated: bool): seq<string>
  {
    (if included == 0 then ["repository_history"] else [])
    + (if failureObservations == 0 then ["prior_failure_proxy"] else [])
    + (if author.None? then ["current_author_key"]
       else if ownershipObservations == 0 then ["ownership_history"] else [])
    + (if truncated then ["history_truncated"] else [])
  }

  /** The statistics as sums over the whole history. */
  ghost function Summary(q: Query, history: seq<Change>, truncated: bool): Statistics
  {
    var observations := Sum(q, FailureObservations, history);
    var owned := Sum(q, OwnershipObservations, history);
    Statistics(
      Sum(q, Included, history), Sum(q, Future, history), Sum(q, FileTouches, history), Sum(q, ModuleTouches, history),
      Sum(q, Churn, history), if observations != 0 then Some(Sum(q, Failures, history)) else None, observations,
      if owned != 0 then Some(Sum(q, Familiar, history) as real / owned as real) else None,
      Missing(Sum(q, Included, history), observations, q.author, owned, truncated))
  }

  ghost function Within(q: Query, history: seq<Change>): seq<Change>
  {
    if history == [] then [] else
    var k := |history| - 1;
    Within(q, history[..k]) + (if InWindow(q, history[k]) then [history[k]] else [])
  }

  lemma {:induction false} SumAppend(q: Query, counter: Counter, history: seq<Change>, c: Change)
    ensures Sum(q, counter, history + [c]) == Sum(q, counter, history) + Weight(q, counter, c)
  {
  }

  lemma {:induction false} SumWithin(q: Query, counter: Counter, history: seq<Change>)
    requires counter != Future
    ensures Sum(q, counter, history) == Sum(q, counter, Within(q, history))
  {
    if history != [] {
      var k := |history| - 1;
      SumWithin(q, counter, history[..k]);
      if InWindow(q, history[k]) {
        SumAppend(q, counter, Within(q, history[..k]), history[k]);
      } else {
        assert Within(q, history) == Within(q, history[..k]);
      }
    }
  }

  lemma {:induction false} SumConcat(q: Query, counter: Counter, a: seq<Change>, b: seq<Change>)
    ensures Sum(q, counter, a + b) == Sum(q, counter, a) + Sum(q, counter, b)
  {
    hide Weight;
    if b == [] {
      assert a + b == a;
    } else {
      var k := |b| - 1;
      SumConcat(q, counter, a, b[..k]);
      assert (a + b)[..|a| + k] == a + b[..k];
    }
  }

  lemma WithoutOne(b: seq<Change>, i: nat)
    requires i < |b|
    ensures multiset(b[..i] + b[i + 1..]) == multiset(b) - multiset{b[i]}
  {
    assert b == b[..i] + ([b[i]] + b[i + 1..]);
  }

  lemma {:induction false} SumWithoutOne(q: Query, counter: Counter, b: seq<Change>, i: nat)
    requires i < |b|
    ensures Sum(q, counter, b) == Sum(q, counter, b[..i] + b[i + 1..]) + Weight(q, counter, b[i])
  {
    hide Weight;
    assert b == (b[..i] + [b[i]]) + b[i + 1..];
    SumConcat(q, counter, b[..i] + [b[i]], b[i + 1..]);
    SumConcat(q, counter, b[..i], b[i + 1..]);
    SumAppend(q, counter, b[..i], b[i]);
  }

  lemma SharedLast(a: seq<Change>, b: seq<Change>) returns (i: nat)
    requires a != [] && multiset(a) == multiset(b)
    ensures i < |b| && b[i] == a[|a| - 1]
    ensures multiset(a[..|a| - 1]) == multiset(b[..i] + b[i + 1..])
  {
    var k := |a| - 1;
    assert a == a[..k] + [a[k]];
    assert a[k] in multiset(b);
    i :| 0 <= i < |b| && b[i] == a[k];
    WithoutOne(b, i);
    assert multiset(a[..k]) == multiset(a) - multiset{a[k]};
  }

  /** A sum does not depend on the order. */
  lemma {:induction false} SumPermuted(q: Query, counter: Counter, a: seq<Change>, b: seq<Change>)
    requires multiset(a) == multiset(b)
    ensures Sum(q, counter, a) == Sum(q, counter, b)
    decreases |a|
  {
    hide Weight;
    assert |a| == |multiset(a)| == |multiset(b)| == |b|;
    if a != [] {
      var i := SharedLast(a, b);
      SumPermuted(q, counter, a[..|a| - 1], b[..i] + b[i + 1..]);
      SumWithoutOne(q, counter, b, i);
    }
  }

  /**
   * Two histories with the same changes inside the window, in whatever order and whatever else they hold, give the same
   * statistics except for the number of changes counted as future.
   */
  lemma {:induction false} OnlyWindowMatters(q: Query, history: seq<Change>, other: seq<Change>, truncated: bool)
    requires multiset(Within(q, history)) == multiset(Within(q, other))
    ensures Summary(q, history, truncated).(excludedFutureChanges := 0)
         == Summary(q, other, truncated).(excludedFutureChanges := 0)
  {
    hide Sum, Within;
    forall counter | counter != Future
      ensures Sum(q, counter, history) == Sum(q, counter, other)
    {
      SumWithin(q, counter, history);
      SumWithin(q, counter, other);
      SumPermuted(q, counter, Within(q, history), Within(q, other));
    }
  }

  /** The counters of the second loop after some of the included changes. */
  ghost predicate Counted(q: Query, done: seq<Change>, fileTouches: int, moduleTouches: int, churn: int,
                          failures: int, observations: int, familiar: int, owned: int)
  {
    && fileTouches == Sum(q, FileTouches, done) && moduleTouches == Sum(q, ModuleTouches, done)
    && churn == Sum(q, Churn, done)
    && failures == Sum(q, Failures, done) && observations == Sum(q, FailureObservations, done)
    && familiar == Sum(q, Familiar, done) && owned == Sum(q, OwnershipObservations, done)
  }

  /** The source sorts the included changes by time, which no counter depends on. */
  method ComputeHistoricalStatistics(q: Query, history: seq<Change>, truncated: bool) returns (r: Result<Statistics>)
    ensures r.Ok? <==> 1 <= q.windowDays <= 3_650 && |history| <= 10_000
    ensures r.Ok? ==> r.value == Summary(q, history, truncated)
  {
    hide Sum, Weight, Within, TouchesFiles, TouchesModules, ChurnOf;
    if q.windowDays < 1 || q.windowDays > MAX_WINDOW_DAYS {
      return ValueError;
    }
    if |history| > MAX_HISTORY_CHANGES {
      return ValueError;
    }
    var start := q.prediction - q.windowDays * DAY;
    var included: seq<Change> := [];
    var excludedFuture := 0;
    NothingSummed(q);
    for i := 0 to |history|
      invariant included == Within(q, history[..i])
      invariant excludedFuture == Sum(q, Future, history[..i])
    {
      var change := history[i];
      assert history[..i + 1] == history[..i] + [change];
      WithinAppend(q, history[..i], change);
      SumAppend(q, Future, history[..i], change);
      FutureWeight(q, change);
      if change.observedAt >= q.prediction {
        excludedFuture := excludedFuture + 1;
      } else if change.observedAt >= start {
        included := included + [change];
      }
    }
    assert history[..|history|] == history;
    var fileTouches, moduleTouches, churn, failures, observations, familiar, owned := 0, 0, 0, 0, 0, 0, 0;
    for i := 0 to |included|
      invariant Counted(q, included[..i], fileTouches, moduleTouches, churn, failures, observations, familiar, owned)
    {
      var change := included[i];
      assert included[..i + 1] == included[..i] + [change];
      WithinInWindow(q, history, i);
      OneCounted(q, included[..i], change);
      if TouchesFiles(q, change) {
        fileTouches := fileTouches + 1;
        churn := churn + ChurnOf(q, change.files);
      }
      if TouchesModules(q, change) {
        moduleTouches := moduleTouches + 1;
        if change.failedCheck.Some? {
          observations := observations + 1;
          failures := failures + One(change.failedCheck.value);
        }
        if q.author.Some? && change.authorKey.Some? {
          owned := owned + 1;
          familiar := familiar + One(change.authorKey == q.author);
        }
      }
    }
    assert included[..|included|] == included;
    forall counter | counter != Future
      ensures Sum(q, counter, history) == Sum(q, counter, included)
    {
      SumWithin(q, counter, history);
    }
    IncludedCount(q, history);
    r := Ok(Statistics(
      |included|, excludedFuture, fileTouches, moduleTouches, churn, if observations != 0 then Some(failures) else None,
      observations, if owned != 0 then Some(familiar as real / owned as real) else None,
      Missing(|included|, observations, q.author, owned, truncated)));
  }

  lemma {:induction false} NothingSummed(q: Query)
    ensures forall counter :: Sum(q, counter, []) == 0
    ensures Within(q, []) == []
  {
  }

  lemma {:induction false} WithinAppend(q: Query, history: seq<Change>, c: Change)
    ensures Within(q, history + [c]) == if InWindow(q, c) then Within(q, history) + [c] else Within(q, history)
  {
  }

  lemma FutureWeight(q: Query, c: Change)
    ensures Weight(q, Future, c) == One(c.observedAt >= q.prediction)
  {
  }

  lemma {:induction false} WithinInWindow(q: Query, history: seq<Change>, i: nat)
    requires i < |Within(q, history)|
    ensures InWindow(q, Within(q, history)[i])
  {
    var k := |history| - 1;
    if i < |Within(q, history[..k])| {
      WithinInWindow(q, history[..k], i);
    }
  }

  lemma {:induction false} IncludedCount(q: Query, history: seq<Change>)
    ensures |Within(q, history)| == Sum(q, Included, history)
  {
    if history != [] {
      IncludedCount(q, history[..|history| - 1]);
    }
  }

  lemma {:induction false} OneCounted(q: Query, done: seq<Change>, c: Change)
    requires InWindow(q, c)
    ensures Sum(q, FileTouches, done + [c]) == Sum(q, FileTouches, done) + One(TouchesFiles(q, c))
    ensures Sum(q, Churn, done + [c]) == Sum(q, Churn, done) + (if TouchesFiles(q, c) then ChurnOf(q, c.files) else 0)
    ensures Sum(q, ModuleTouches, done + [c]) == Sum(q, ModuleTouches, done) + One(TouchesModules(q, c))
    ensures Sum(q, FailureObservations, done + [c])
         == Sum(q, FailureObservations, done) + One(TouchesModules(q, c) && c.failedCheck.Some?)
    ensures Sum(q, Failures, done + [c])
         == Sum(q, Failures, done) + One(TouchesModules(q, c) && c.failedCheck == Some(true))
    ensures Sum(q, OwnershipObservations, done + [c])
         == Sum(q, OwnershipObservations, done) + One(TouchesModules(q, c) && q.author.Some? && c.authorKey.Some?)
    ensures Sum(q, Familiar, done + [c])
         == Sum(q, Familiar, done) + One(TouchesModules(q, c) && q.author.Some? && c.authorKey == q.author)
  {
    hide Sum, TouchesFiles, TouchesModules, ChurnOf, InWindow;
    forall counter: Counter
      ensures Sum(q, counter, done + [c]) == Sum(q, counter, done) + Weight(q, counter, c)
    {
      SumAppend(q, counter, done, c);
    }
  }
}
