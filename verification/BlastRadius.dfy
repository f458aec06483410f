/** The blast radius of a change. */
module BlastRadius {
  // A breadth-first search over reverse import edges, with a depth bound, a node cap and one recorded evidence path per
  // affected module.

  import opened Order
  import opened Wrappers

  const MAX_BLAST_NODES: nat := 1_000

  /** One import: `importer` depends on `imported`. */
  datatype Edge = Edge(importer: string, imported: string)

  /** What one search works on: the imports, the changed modules and the depth bound. */
  datatype Problem = Problem(edges: seq<Edge>, changed: set<string>, depth: nat)

  datatype BlastPath = BlastPath(changedModule: string, affectedModule: string, distance: nat, modules: seq<string>)

  datatype QueueItem = QueueItem(current: string, path: seq<string>, distance: nat)

  // ----- What a chain is, and which chain is the evidence for a module

  /** The modules that import `m` directly. */
  function Dependents(edges: seq<Edge>, m: string): set<string>
  {
    set e | e in edges && e.imported == m :: e.importer
  }

  ghost predicate Linked(g: Problem, p: seq<string>, i: nat)
    requires 1 <= i < |p|
  {
    p[i] in Dependents(g.edges, p[i-1])
  }

  /** A chain starts at a changed module and every later module imports the one before it. */
  ghost predicate IsChain(g: Problem, p: seq<string>)
  {
    && p != []
    && p[0] in g.changed
    && forall i :: 1 <= i < |p| ==> Linked(g, p, i)
  }

  ghost predicate ChainTo(g: Problem, p: seq<string>, m: string)
  {
    IsChain(g, p) && p[|p|-1] == m
  }

  /** No chain to the same module is shorter, and of those as short none comes before `p`. */
  ghost predicate IsCanonical(g: Problem, p: seq<string>)
  {
    && IsChain(g, p)
    && forall q :: ChainTo(g, q, p[|p|-1]) ==> |p| < |q| || (|p| == |q| && PathLeq(p, q))
  }

  lemma ChainPrefix(g: Problem, q: seq<string>)
    requires IsChain(g, q) && |q| > 1
    ensures IsChain(g, q[..|q|-1])
    ensures q[|q|-1] in Dependents(g.edges, q[|q|-2])
    ensures q == q[..|q|-1] + [q[|q|-1]]
  {
    var p := q[..|q|-1];
    assert Linked(g, q, |q| - 1);
    forall i | 1 <= i < |p|
      ensures Linked(g, p, i)
    {
      assert Linked(g, q, i);
    }
  }

  lemma ChainExtend(g: Problem, p: seq<string>, m: string)
    requires IsChain(g, p) && m in Dependents(g.edges, p[|p|-1])
    ensures ChainTo(g, p + [m], m)
  {
    forall i | 1 <= i < |p| + 1
      ensures Linked(g, p + [m], i)
    {
      assert i < |p| ==> Linked(g, p, i);
    }
  }

  /** The canonical chain of a module is unique. */
  lemma CanonicalUnique(g: Problem, p: seq<string>, q: seq<string>)
    requires IsCanonical(g, p) && IsCanonical(g, q)
    requires p[|p|-1] == q[|q|-1]
    ensures p == q
  {
    assert ChainTo(g, q, p[|p|-1]) && ChainTo(g, p, q[|q|-1]);
    if p != q {
      PathLessAsymmetric(p, q);
    }
  }

  lemma {:induction false} PathLessAsymmetric(p: seq<string>, q: seq<string>)
    requires PathLess(p, q)
    ensures !PathLess(q, p)
  {
    if p != [] && p[0] == q[0] {
      StrLessIrreflexive(p[0]);
      PathLessAsymmetric(p[1..], q[1..]);
    } else if p != [] {
      StrLessAsymmetric(p[0], q[0]);
    }
  }

  // ----- The order in which the search discovers modules

  /** A discovered module with its chain and the position of the visit that discovered it (-1 for a changed module). */
  datatype Visit = Visit(current: string, path: seq<string>, parent: int)

  ghost predicate Discovered(vs: seq<Visit>, m: string)
  {
    exists i :: 0 <= i < |vs| && vs[i].current == m
  }

  /** Visit `i` carries a chain: a changed module alone, or its parent's chain extended by one dependent. */
  ghost predicate VisitOk(g: Problem, vs: seq<Visit>, i: nat)
    requires i < |vs|
  {
    && -1 <= vs[i].parent < i
    && ChainTo(g, vs[i].path, vs[i].current)
    && (vs[i].parent == -1 ==> vs[i].path == [vs[i].current])
    && (vs[i].parent >= 0 ==>
          && vs[i].current !in g.changed
          && vs[i].path == vs[vs[i].parent].path + [vs[i].current]
          && |vs[vs[i].parent].path| <= g.depth)
  }

  /** Shorter chains are discovered first, chains of one length in tuple order, and no module twice. */
  ghost predicate InOrder(vs: seq<Visit>, i: nat, j: nat)
    requires i < |vs| && j < |vs|
  {
    && vs[i].current != vs[j].current
    && |vs[i].path| <= |vs[j].path|
    && (|vs[i].path| == |vs[j].path| ==> PathLess(vs[i].path, vs[j].path))
  }

  /** Every dependent of visit `i` is discovered, unless `i` lies at the depth bound. */
  ghost predicate Finished(g: Problem, vs: seq<Visit>, i: nat)
    requires i < |vs|
  {
    |vs[i].path| <= g.depth ==> forall m :: m in Dependents(g.edges, vs[i].current) ==> Discovered(vs, m)
  }

  /** Visit `j` was not the one that could have discovered visit `i` earlier. */
  ghost predicate NotEarlier(g: Problem, vs: seq<Visit>, i: nat, j: nat)
    requires i < |vs| && j < |vs|
  {
    j < vs[i].parent ==> vs[i].current !in Dependents(g.edges, vs[j].current)
  }

  /** The state of the search when the visits before `f` are finished and visit `f` is, at most, being expanded. */
  ghost predicate Search(g: Problem, vs: seq<Visit>, f: nat)
  {
    && f <= |vs|
    && (forall m :: m in g.changed ==> Discovered(vs, m))
    && (forall i :: 0 <= i < |vs| ==> VisitOk(g, vs, i))
    && (forall i :: 0 <= i < |vs| ==> vs[i].parent <= f)
    && (forall i, j :: 0 <= i < j < |vs| ==> InOrder(vs, i, j))
    && (forall i :: 0 <= i < f ==> Finished(g, vs, i))
    && (forall i, j :: 0 <= i < |vs| && 0 <= j < |vs| ==> NotEarlier(g, vs, i, j))
  }

  /**
    If every visit with a chain shorter than `len` is finished, then every chain of at most `len` modules leads to a
    module that was discovered by a chain no longer than it.
  */
  lemma {:induction false} ShortChainsFound(g: Problem, vs: seq<Visit>, f: nat,
                                            len: nat, q: seq<string>) returns (i: nat)
    requires Search(g, vs, f)
    requires len <= g.depth + 1
    requires forall j :: 0 <= j < |vs| && |vs[j].path| < len ==> j < f
    requires IsChain(g, q) && |q| <= len
    ensures i < |vs| && vs[i].current == q[|q|-1] && |vs[i].path| <= |q|
    decreases |q|
  {
    var m := q[|q|-1];
    if |q| == 1 {
      assert Discovered(vs, m);
      i :| 0 <= i < |vs| && vs[i].current == m;
      assert VisitOk(g, vs, i);
    } else {
      ChainPrefix(g, q);
      var k := ShortChainsFound(g, vs, f, len, q[..|q|-1]);
      assert Finished(g, vs, k) && Discovered(vs, m);
      i :| 0 <= i < |vs| && vs[i].current == m;
      assert VisitOk(g, vs, i) && NotEarlier(g, vs, i, k);
      if 0 <= vs[i].parent < k {
        assert InOrder(vs, vs[i].parent, k);
      }
    }
  }

  /** Everything with a chain shorter than that of visit `a` comes before `a`. */
  lemma ShorterBefore(g: Problem, vs: seq<Visit>, f: nat, a: nat)
    requires Search(g, vs, f) && a < |vs|
    ensures forall j :: 0 <= j < |vs| && |vs[j].path| < |vs[a].path| ==> j < a
  {
    forall j | a < j < |vs|
      ensures |vs[a].path| <= |vs[j].path|
    {
      assert InOrder(vs, a, j);
    }
  }

  lemma OneVisitEach(g: Problem, vs: seq<Visit>, f: nat, i: nat, j: nat)
    requires Search(g, vs, f)
    requires i < |vs| && j < |vs| && vs[i].current == vs[j].current
    ensures i == j
  {
    assert i < j ==> InOrder(vs, i, j);
    assert j < i ==> InOrder(vs, j, i);
  }

  /** Visit `j` was discovered by a shortest chain. */
  lemma VisitShortest(g: Problem, vs: seq<Visit>, f: nat, j: nat,
                      q: seq<string>)
    requires Search(g, vs, f)
    requires j < |vs| && ChainTo(g, q, vs[j].current)
    ensures |vs[j].path| <= |q|
  {
    assert VisitOk(g, vs, j);
    if vs[j].parent >= 0 && |q| < |vs[j].path| {
      var a := vs[j].parent;
      ShorterBefore(g, vs, f, a);
      var i := ShortChainsFound(g, vs, f, |vs[a].path|, q);
      OneVisitEach(g, vs, f, i, j);
      assert false;
    }
  }

  /** Visit `j` was discovered by the first of the shortest chains. */
  lemma {:induction false} VisitLeast(g: Problem, vs: seq<Visit>, f: nat,
                                      j: nat, q: seq<string>)
    requires Search(g, vs, f)
    requires j < |vs| && ChainTo(g, q, vs[j].current) && |q| == |vs[j].path|
    ensures PathLeq(vs[j].path, q)
    decreases |q|
  {
    assert VisitOk(g, vs, j);
    if vs[j].parent >= 0 {
      var a := vs[j].parent;
      ChainPrefix(g, q);
      var q', m := q[..|q|-1], vs[j].current;
      ShorterBefore(g, vs, f, a);
      var i := ShortChainsFound(g, vs, f, |vs[a].path|, q');
      // Were visit i before a, it would have discovered m first.
      assert NotEarlier(g, vs, j, i);
      assert a < i ==> InOrder(vs, a, i);
      VisitLeast(g, vs, f, i, q');
      ParentsLeast(vs[a].path, vs[i].path, q', m);
    }
  }

  lemma ParentsLeast(p: seq<string>, r: seq<string>, q: seq<string>, m: string)
    requires |p| == |r| == |q| && PathLeq(p, r) && PathLeq(r, q)
    ensures PathLeq(p + [m], q + [m])
  {
    if p != r && r != q {
      PathLessTransitive(p, r, q);
    }
    if p != q {
      PathLessExtend(p, q, m, m);
    }
  }

  lemma VisitCanonical(g: Problem, vs: seq<Visit>, f: nat, j: nat)
    requires Search(g, vs, f) && j < |vs|
    ensures IsCanonical(g, vs[j].path)
  {
    var p := vs[j].path;
    assert VisitOk(g, vs, j);
    forall q | ChainTo(g, q, p[|p|-1])
      ensures |p| < |q| || (|p| == |q| && PathLeq(p, q))
    {
      VisitShortest(g, vs, f, j, q);
      if |p| == |q| {
        VisitLeast(g, vs, f, j, q);
      }
    }
  }

  // ----- One iteration of the search

  /** Visit `f` is being expanded: the first `n` of its sorted dependents are dealt with. */
  ghost predicate Expanding(g: Problem, vs: seq<Visit>, f: nat,
                            ds: seq<string>, n: nat)
  {
    && Search(g, vs, f)
    && f < |vs| && |vs[f].path| <= g.depth
    && Increasing(ds) && n <= |ds|
    && (forall m :: m in ds <==> m in Dependents(g.edges, vs[f].current))
    && (forall k :: 0 <= k < n ==> Discovered(vs, ds[k]))
    && (forall i :: 0 <= i < |vs| && vs[i].parent == f ==> vs[i].current in ds[..n])
  }

  ghost predicate Extends(vs: seq<Visit>, vs': seq<Visit>)
  {
    |vs| <= |vs'| && forall i :: 0 <= i < |vs| ==> vs'[i] == vs[i]
  }

  function NextVisit(vs: seq<Visit>, f: nat, m: string): Visit
    requires f < |vs|
  {
    Visit(m, vs[f].path + [m], f)
  }

  lemma NewVisitInOrder(g: Problem, vs: seq<Visit>, f: nat, ds: seq<string>,
                        n: nat, i: nat)
    requires Expanding(g, vs, f, ds, n) && n < |ds|
    requires !Discovered(vs, ds[n]) && i < |vs|
    ensures InOrder(vs + [NextVisit(vs, f, ds[n])], i, |vs|)
  {
    var vs' := vs + [NextVisit(vs, f, ds[n])];
    assert VisitOk(g, vs, i) && VisitOk(g, vs, f);
    var a := vs[i].parent;
    if i < f {
      assert InOrder(vs, i, f);
    }
    if a >= 0 {
      assert a < f ==> InOrder(vs, a, f);
      if |vs[i].path| == |vs'[|vs|].path| {
        if a == f {
          var k :| 0 <= k < n && ds[k] == vs[i].current;
          assert StrLess(ds[k], ds[n]);
        }
        PathLessExtend(vs[a].path, vs[f].path, vs[i].current, ds[n]);
      }
    }
  }

  lemma ExpandNew(g: Problem, vs: seq<Visit>, f: nat, ds: seq<string>, n: nat)
    requires Expanding(g, vs, f, ds, n) && n < |ds|
    requires !Discovered(vs, ds[n])
    ensures Expanding(g, vs + [NextVisit(vs, f, ds[n])], f, ds, n + 1)
  {
    var vs' := vs + [NextVisit(vs, f, ds[n])];
    DiscoveredGrows(vs, NextVisit(vs, f, ds[n]));
    assert vs'[|vs|].current == ds[n];
    NewVisitOk(g, vs, f, ds, n);
    NewVisitFits(g, vs, f, ds, n);
    hide Finished, NotEarlier, VisitOk, InOrder;
    assert ds[..n+1][n] == ds[n] && forall m :: m in ds[..n] ==> m in ds[..n+1];
  }

  lemma NewVisitOk(g: Problem, vs: seq<Visit>, f: nat, ds: seq<string>, n: nat)
    requires Expanding(g, vs, f, ds, n) && n < |ds|
    requires !Discovered(vs, ds[n])
    ensures forall i :: 0 <= i < |vs| + 1 ==> VisitOk(g, vs + [NextVisit(vs, f, ds[n])], i)
  {
    var vs' := vs + [NextVisit(vs, f, ds[n])];
    forall i | 0 <= i < |vs'|
      ensures VisitOk(g, vs', i)
    {
      assert VisitOk(g, vs, if i < |vs| then i else f);
      if i == |vs| {
        assert ds[n] in ds;
        ChainExtend(g, vs[f].path, ds[n]);
      }
    }
  }

  lemma NewVisitFits(g: Problem, vs: seq<Visit>, f: nat, ds: seq<string>, n: nat)
    requires Expanding(g, vs, f, ds, n) && n < |ds|
    requires !Discovered(vs, ds[n])
    ensures var vs' := vs + [NextVisit(vs, f, ds[n])];
            && (forall i, j :: 0 <= i < j < |vs'| ==> InOrder(vs', i, j))
            && (forall i :: 0 <= i < f ==> Finished(g, vs', i))
            && (forall i, j :: 0 <= i < |vs'| && 0 <= j < |vs'| ==> NotEarlier(g, vs', i, j))
  {
    var vs' := vs + [NextVisit(vs, f, ds[n])];
    DiscoveredGrows(vs, NextVisit(vs, f, ds[n]));
    forall i, j | 0 <= i < j < |vs'|
      ensures InOrder(vs', i, j)
    {
      if j < |vs| {
        assert InOrder(vs, i, j);
      } else {
        NewVisitInOrder(g, vs, f, ds, n, i);
      }
    }
    forall i | 0 <= i < f
      ensures Finished(g, vs', i)
    {
      assert Finished(g, vs, i);
    }
    forall i, j | 0 <= i < |vs'| && 0 <= j < |vs'|
      ensures NotEarlier(g, vs', i, j)
    {
      if i < |vs| {
        assert j < |vs| ==> NotEarlier(g, vs, i, j);
      } else if j < f {
        assert InOrder(vs, j, f) && Finished(g, vs, j);
      }
    }
  }

  lemma DiscoveredGrows(vs: seq<Visit>, v: Visit)
    ensures forall m :: Discovered(vs, m) ==> Discovered(vs + [v], m)
  {
    forall m | Discovered(vs, m)
      ensures Discovered(vs + [v], m)
    {
      var i :| 0 <= i < |vs| && vs[i].current == m;
      assert (vs + [v])[i].current == m;
    }
  }

  // ----- The search itself

  /** The recorded path of a visit. */
  function Recorded(v: Visit): BlastPath
    requires v.path != []
  {
    BlastPath(v.path[0], v.current, |v.path| - 1, v.path)
  }

  /** The queue and the recorded paths are the unfinished visits and the visits with a parent. */
  ghost predicate Mirrors(g: Problem, vs: seq<Visit>, f: nat, queue: seq<QueueItem>,
                          paths: map<string, BlastPath>)
    requires f <= |vs|
  {
    && |queue| == |vs| - f
    && (forall i :: f <= i < |vs| ==> Queued(vs, i, queue, f))
    && RecordedExactly(g, vs, paths)
  }

  ghost predicate Queued(vs: seq<Visit>, i: nat, queue: seq<QueueItem>, f: nat)
    requires f <= i < |vs| && |queue| == |vs| - f
  {
    vs[i].path != [] && queue[i-f] == QueueItem(vs[i].current, vs[i].path, |vs[i].path| - 1)
  }

  ghost predicate RecordedExactly(g: Problem, vs: seq<Visit>, paths: map<string, BlastPath>)
  {
    && (forall m :: m in paths ==> m !in g.changed && Discovered(vs, m))
    && (forall i :: 0 <= i < |vs| && vs[i].current !in g.changed ==>
          && vs[i].path != [] && vs[i].current in paths && paths[vs[i].current] == Recorded(vs[i]))
  }

  ghost predicate Affected(g: Problem, m: string)
  {
    m !in g.changed && exists p :: ChainTo(g, p, m) && |p| <= g.depth + 1
  }

  /** Some visit before `n` lies at the depth bound and still has dependents. */
  ghost predicate CutOff(g: Problem, vs: seq<Visit>, n: nat)
    requires n <= |vs|
  {
    exists i :: 0 <= i < n && |vs[i].path| > g.depth && Dependents(g.edges, vs[i].current) != {}
  }

  lemma InitialSearch(g: Problem, changed: seq<string>, vs: seq<Visit>)
    requires Increasing(changed) && g.changed == Members(changed)
    requires vs == seq(|changed|, i requires 0 <= i < |changed| => Visit(changed[i], [changed[i]], -1))
    ensures Search(g, vs, 0)
  {
    forall m | m in g.changed
      ensures Discovered(vs, m)
    {
      var i :| 0 <= i < |changed| && changed[i] == m;
      assert vs[i].current == m;
    }
    forall i, j | 0 <= i < j < |vs|
      ensures InOrder(vs, i, j)
    {
      StrLessAsymmetric(changed[i], changed[j]);
    }
  }

  lemma RecordNew(g: Problem, vs: seq<Visit>, f: nat, v: Visit, queue: seq<QueueItem>,
                  paths: map<string, BlastPath>, queued: QueueItem, recorded: BlastPath)
    requires f <= |vs| && Mirrors(g, vs, f, queue, paths)
    requires v.path != [] && v.current !in g.changed && !Discovered(vs, v.current)
    requires queued == QueueItem(v.current, v.path, |v.path| - 1) && recorded == Recorded(v)
    ensures Mirrors(g, vs + [v], f, queue + [queued], paths[v.current := recorded])
    ensures RecordedExactly(g, vs + [v], paths[v.current := recorded])
  {
    var vs', queue' := vs + [v], queue + [queued];
    DiscoveredGrows(vs, v);
    assert vs'[|vs|].current == v.current;
    forall i | f <= i < |vs'|
      ensures Queued(vs', i, queue', f)
    {
      assert i < |vs| ==> Queued(vs, i, queue, f);
    }
  }

  /** The state between two dependents of visit `f`; the queue holds the visits after `f`. */
  ghost predicate Midway(g: Problem, vs: seq<Visit>, f: nat, ds: seq<string>,
                         n: nat, queue: seq<QueueItem>, paths: map<string, BlastPath>)
  {
    Expanding(g, vs, f, ds, n) && Mirrors(g, vs, f + 1, queue, paths)
  }

  lemma SkipDependent(g: Problem, vs: seq<Visit>, f: nat, ds: seq<string>,
                      n: nat, queue: seq<QueueItem>, paths: map<string, BlastPath>)
    requires Midway(g, vs, f, ds, n, queue, paths)
    requires n < |ds| && (ds[n] in g.changed || ds[n] in paths)
    ensures Midway(g, vs, f, ds, n + 1, queue, paths)
  {
  }

  lemma TakeDependent(g: Problem, vs: seq<Visit>, f: nat, ds: seq<string>,
                      n: nat, queue: seq<QueueItem>, paths: map<string, BlastPath>, vs': seq<Visit>,
                      queued: QueueItem, recorded: BlastPath)
    requires Midway(g, vs, f, ds, n, queue, paths)
    requires n < |ds| && ds[n] !in g.changed && ds[n] !in paths
    requires vs' == vs + [NextVisit(vs, f, ds[n])]
    requires queued == QueueItem(ds[n], vs[f].path + [ds[n]], |vs[f].path|)
    requires vs[f].path != []
    requires recorded == BlastPath(vs[f].path[0], ds[n], |vs[f].path|, vs[f].path + [ds[n]])
    ensures Midway(g, vs', f, ds, n + 1, queue + [queued], paths[ds[n] := recorded])
    ensures Extends(vs, vs')
  {
    assert !Discovered(vs, ds[n]);
    ExpandNew(g, vs, f, ds, n);
    RecordNew(g, vs, f + 1, NextVisit(vs, f, ds[n]), queue, paths, queued, recorded);
  }

  /** The state between two iterations, as long as the node cap is not reached. */
  ghost predicate Between(g: Problem, vs: seq<Visit>, f: nat,
                          queue: seq<QueueItem>, paths: map<string, BlastPath>, truncated: bool)
  {
    && Search(g, vs, f)
    && Mirrors(g, vs, f, queue, paths)
    && (forall i :: 0 <= i < |vs| ==> vs[i].parent < f)
    && (truncated <==> CutOff(g, vs, f))
  }

  /** The modules visit `f` discovered come before those it has yet to discover. */
  ghost predicate ChildrenFirst(g: Problem, vs: seq<Visit>, f: nat)
  {
    f < |vs| ==> forall i, m :: 0 <= i < |vs| && vs[i].parent == f ==> NotAfter(g, vs, f, vs[i].current, m)
  }

  ghost predicate NotAfter(g: Problem, vs: seq<Visit>, f: nat, found: string, m: string)
    requires f < |vs|
  {
    m in Dependents(g.edges, vs[f].current) && !Discovered(vs, m) ==> StrLess(found, m)
  }

  lemma SortedChildrenFirst(g: Problem, vs: seq<Visit>, f: nat, ds: seq<string>, n: nat)
    requires Expanding(g, vs, f, ds, n)
    ensures ChildrenFirst(g, vs, f)
  {
    hide Search, Discovered;
    forall i, m | 0 <= i < |vs| && vs[i].parent == f
      ensures NotAfter(g, vs, f, vs[i].current, m)
    {
      if m in Dependents(g.edges, vs[f].current) && !Discovered(vs, m) {
        var j :| 0 <= j < n && ds[j] == vs[i].current;
        var k :| 0 <= k < |ds| && ds[k] == m;
      }
    }
  }

  ghost predicate SearchState(g: Problem, vs: seq<Visit>, f: nat,
                              queue: seq<QueueItem>, paths: map<string, BlastPath>, truncated: bool)
  {
    && |paths| <= MAX_BLAST_NODES
    && (|paths| < MAX_BLAST_NODES ==> Between(g, vs, f, queue, paths, truncated))
    && (|paths| == MAX_BLAST_NODES ==>
          && Search(g, vs, f) && RecordedExactly(g, vs, paths) && ChildrenFirst(g, vs, f)
          && truncated && queue == [])
  }

  lemma CapReached(g: Problem, vs: seq<Visit>, f: nat, ds: seq<string>, n: nat, queue: seq<QueueItem>,
                   paths: map<string, BlastPath>)
    requires Midway(g, vs, f, ds, n, queue, paths) && |paths| == MAX_BLAST_NODES
    ensures SearchState(g, vs, f, [], paths, true)
  {
    SortedChildrenFirst(g, vs, f, ds, n);
  }

  /** Expands visit `f`: records and queues its new dependents in sorted order, and stops short at the node cap. */
  method Expand(ghost g: Problem, changed: seq<string>, item: QueueItem, ds: seq<string>,
                queue0: seq<QueueItem>, paths0: map<string, BlastPath>, ghost vs0: seq<Visit>, ghost f: nat)
    returns (queue: seq<QueueItem>, paths: map<string, BlastPath>, capped: bool, ghost vs: seq<Visit>)
    requires Members(changed) == g.changed
    requires Midway(g, vs0, f, ds, 0, queue0, paths0)
    requires f < |vs0| && vs0[f].path != [] && item == QueueItem(vs0[f].current, vs0[f].path, |vs0[f].path| - 1)
    requires |paths0| < MAX_BLAST_NODES
    ensures Extends(vs0, vs) && f < |vs|
    ensures capped ==> SearchState(g, vs, f, queue, paths, true)
    ensures capped ==> |paths0| < |paths|
    ensures !capped ==> |paths0| <= |paths| < MAX_BLAST_NODES && (|paths| == |paths0| ==> queue == queue0)
    ensures !capped ==> Midway(g, vs, f, ds, |ds|, queue, paths)
  {
    hide Midway, SearchState;
    queue, paths, capped, vs := queue0, paths0, false, vs0;
    var n := 0;
    while n < |ds|
      invariant n <= |ds| && Extends(vs0, vs) && f < |vs| && vs[f] == vs0[f]
      invariant Midway(g, vs, f, ds, n, queue, paths)
      invariant |paths0| <= |paths| < MAX_BLAST_NODES
      invariant |paths| == |paths0| ==> queue == queue0
    {
      var dependent := ds[n];
      if dependent in changed || dependent in paths {
        SkipDependent(g, vs, f, ds, n, queue, paths);
      } else {
        ghost var vs' := vs + [NextVisit(vs, f, dependent)];
        var path := item.path + [dependent];
        var recorded := BlastPath(item.path[0], dependent, item.distance + 1, path);
        var queued := QueueItem(dependent, path, item.distance + 1);
        TakeDependent(g, vs, f, ds, n, queue, paths, vs', queued, recorded);
        vs, paths := vs', paths[dependent := recorded];
        if |paths| >= MAX_BLAST_NODES {
          CapReached(g, vs, f, ds, n + 1, queue + [queued], paths);
          return [], paths, true, vs;
        }
        queue := queue + [queued];
      }
      n := n + 1;
    }
  }

  lemma Dequeue(g: Problem, vs: seq<Visit>, f: nat, queue: seq<QueueItem>,
                paths: map<string, BlastPath>, truncated: bool)
    requires SearchState(g, vs, f, queue, paths, truncated) && queue != []
    ensures f < |vs| && vs[f].path != []
    ensures queue[0] == QueueItem(vs[f].current, vs[f].path, |vs[f].path| - 1)
    ensures Mirrors(g, vs, f + 1, queue[1..], paths)
  {
    assert Queued(vs, f, queue, f);
    var next := f + 1;
    forall i | next <= i < |vs|
      ensures Queued(vs, i, queue[1..], next)
    {
      assert Queued(vs, i, queue, f);
    }
  }

  lemma SkipAtBound(g: Problem, vs: seq<Visit>, f: nat,
                    queue: seq<QueueItem>, paths: map<string, BlastPath>, truncated: bool)
    requires SearchState(g, vs, f, queue, paths, truncated) && queue != []
    requires queue[0].distance >= g.depth
    ensures SearchState(g, vs, f + 1, queue[1..], paths,
                    truncated || Dependents(g.edges, queue[0].current) != {})
  {
    Dequeue(g, vs, f, queue, paths, truncated);
    CutOffGrows(g, vs, vs, f);
  }

  lemma StartExpanding(g: Problem, vs: seq<Visit>, f: nat,
                       queue: seq<QueueItem>, paths: map<string, BlastPath>, truncated: bool, ds: seq<string>)
    requires SearchState(g, vs, f, queue, paths, truncated) && queue != []
    requires queue[0].distance < g.depth
    requires IsSorted(ds, Dependents(g.edges, queue[0].current))
    ensures f < |vs| && vs[f].path != []
    ensures queue[0] == QueueItem(vs[f].current, vs[f].path, |vs[f].path| - 1)
    ensures Midway(g, vs, f, ds, 0, queue[1..], paths) && |paths| < MAX_BLAST_NODES
  {
    Dequeue(g, vs, f, queue, paths, truncated);
  }

  lemma DoneExpanding(g: Problem, vs0: seq<Visit>, vs: seq<Visit>, f: nat,
                      queue0: seq<QueueItem>, paths0: map<string, BlastPath>, queue: seq<QueueItem>,
                      paths: map<string, BlastPath>, truncated: bool, ds: seq<string>)
    requires SearchState(g, vs0, f, queue0, paths0, truncated) && queue0 != []
    requires Extends(vs0, vs)
    requires Midway(g, vs, f, ds, |ds|, queue, paths) && |paths| < MAX_BLAST_NODES
    ensures SearchState(g, vs, f + 1, queue, paths, truncated)
  {
    CutOffGrows(g, vs0, vs, f);
    assert vs[f] == vs0[f];
    forall m | m in Dependents(g.edges, vs[f].current)
      ensures Discovered(vs, m)
    {
      assert m in ds;
      var k :| 0 <= k < |ds| && ds[k] == m;
    }
    assert Finished(g, vs, f);
  }

  /** One iteration of the search loop. */
  method Iterate(ghost g: Problem, changed: seq<string>, maxDepth: nat, dependents: set<string>,
                 queue0: seq<QueueItem>, paths0: map<string, BlastPath>, truncated0: bool,
                 ghost vs0: seq<Visit>, ghost f0: nat)
    returns (queue: seq<QueueItem>, paths: map<string, BlastPath>, truncated: bool, ghost vs: seq<Visit>, ghost f: nat)
    requires Members(changed) == g.changed && maxDepth == g.depth
    requires SearchState(g, vs0, f0, queue0, paths0, truncated0)
    requires queue0 != [] && dependents == Dependents(g.edges, queue0[0].current)
    ensures SearchState(g, vs, f, queue, paths, truncated)
    ensures |paths| > |paths0| || (|paths| == |paths0| && |queue| < |queue0|)
  {
    hide *;
    var item := queue0[0];
    if item.distance >= maxDepth {
      SkipAtBound(g, vs0, f0, queue0, paths0, truncated0);
      return queue0[1..], paths0, truncated0 || dependents != {}, vs0, f0 + 1;
    }
    var ds := SortedNames(dependents);
    StartExpanding(g, vs0, f0, queue0, paths0, truncated0, ds);
    var capped;
    queue, paths, capped, vs := Expand(g, changed, item, ds, queue0[1..], paths0, vs0, f0);
    if capped {
      truncated, f := true, f0;
    } else {
      DoneExpanding(g, vs0, vs, f0, queue0, paths0, queue, paths, truncated0, ds);
      truncated, f := truncated0, f0 + 1;
    }
  }

  /** The breadth-first search: the recorded paths, and whether the search was cut short. */
  method Explore(edges: seq<Edge>, changed: seq<string>, maxDepth: nat)
    returns (paths: map<string, BlastPath>, truncated: bool, ghost vs: seq<Visit>, ghost f: nat)
    requires Increasing(changed)
    ensures SearchState(Problem(edges, Members(changed), maxDepth), vs, f, [], paths, truncated)
  {
    ghost var g := Problem(edges, Members(changed), maxDepth);
    var reverse := ReverseEdges(edges);
    var queue := seq(|changed|, i requires 0 <= i < |changed| => QueueItem(changed[i], [changed[i]], 0));
    vs := seq(|changed|, i requires 0 <= i < |changed| => Visit(changed[i], [changed[i]], -1));
    f, paths, truncated := 0, map[], false;
    InitialSearch(g, changed, vs);
    assert Mirrors(g, vs, 0, queue, paths) by {
      assert forall i :: 0 <= i < |vs| ==> Queued(vs, i, queue, 0);
    }
    hide *;
    while queue != []
      invariant SearchState(g, vs, f, queue, paths, truncated)
      decreases MAX_BLAST_NODES - |paths|, |queue|
    {
      var current := queue[0].current;
      var dependents := if current in reverse then reverse[current] else {};
      queue, paths, truncated, vs, f :=
        Iterate(g, changed, maxDepth, dependents, queue, paths, truncated, vs, f);
    }
  }

  lemma CutOffGrows(g: Problem, vs: seq<Visit>, vs': seq<Visit>, f: nat)
    requires f < |vs| && Extends(vs, vs')
    ensures CutOff(g, vs', f + 1) <==>
            CutOff(g, vs, f) || (|vs[f].path| > g.depth && Dependents(g.edges, vs[f].current) != {})
  {
  }

  method ReverseEdges(edges: seq<Edge>) returns (reverse: map<string, set<string>>)
    ensures forall m :: m in reverse ==> reverse[m] == Dependents(edges, m)
    ensures forall m :: m !in reverse ==> Dependents(edges, m) == {}
  {
    reverse := map[];
    for i := 0 to |edges|
      invariant forall m :: m in reverse ==> reverse[m] == Dependents(edges[..i], m)
      invariant forall m :: m !in reverse ==> Dependents(edges[..i], m) == {}
    {
      var e := edges[i];
      var known := if e.imported in reverse then reverse[e.imported] else {};
      assert edges[..i+1] == edges[..i] + [e];
      forall m
        ensures Dependents(edges[..i+1], m) == Dependents(edges[..i], m) + if m == e.imported then {e.importer} else {}
      {
        DependentsOfMore(edges[..i], e, m);
      }
      reverse := reverse[e.imported := known + {e.importer}];
    }
    assert edges[..|edges|] == edges;
  }

  lemma DependentsOfMore(edges: seq<Edge>, e: Edge, m: string)
    ensures Dependents(edges + [e], m) == Dependents(edges, m) + if m == e.imported then {e.importer} else {}
  {
  }

  // ----- What the finished search has found

  /** When every visit is finished, every chain within the depth bound leads to a discovered module. */
  lemma NearbyFound(g: Problem, vs: seq<Visit>, q: seq<string>)
    requires Search(g, vs, |vs|)
    requires IsChain(g, q) && |q| <= g.depth + 1
    ensures Discovered(vs, q[|q|-1])
  {
    var i := ShortChainsFound(g, vs, |vs|, g.depth + 1, q);
  }

  /** When moreover nothing was cut off, every chain of any length does. */
  lemma {:induction false} AllFound(g: Problem, vs: seq<Visit>, q: seq<string>)
    requires Search(g, vs, |vs|) && !CutOff(g, vs, |vs|)
    requires IsChain(g, q)
    ensures Discovered(vs, q[|q|-1])
    decreases |q|
  {
    if |q| > 1 {
      ChainPrefix(g, q);
      AllFound(g, vs, q[..|q|-1]);
      var i :| 0 <= i < |vs| && vs[i].current == q[|q|-2];
      assert Finished(g, vs, i);
      assert Dependents(g.edges, vs[i].current) != {};
    }
  }

  /** What one recorded path says about its module. */
  ghost predicate IsEvidence(g: Problem, e: BlastPath)
  {
    && IsCanonical(g, e.modules)
    && e.changedModule == e.modules[0]
    && e.affectedModule == e.modules[|e.modules|-1]
    && e.affectedModule !in g.changed
    && e.distance == |e.modules| - 1
    && 1 <= e.distance <= g.depth
  }

  lemma RecordedIsEvidence(g: Problem, vs: seq<Visit>, f: nat,
                           paths: map<string, BlastPath>, m: string)
    requires Search(g, vs, f) && RecordedExactly(g, vs, paths)
    requires m in paths
    ensures IsEvidence(g, paths[m]) && paths[m].affectedModule == m
  {
    var i :| 0 <= i < |vs| && vs[i].current == m;
    VisitCanonical(g, vs, f, i);
    assert VisitOk(g, vs, i);
    if vs[i].parent >= 0 {
      assert VisitOk(g, vs, vs[i].parent);
    }
  }

  /** A module is recorded exactly when it is affected within the bound, and, with nothing cut off, affected at all. */
  lemma RecordedComplete(g: Problem, vs: seq<Visit>,
                         paths: map<string, BlastPath>, m: string)
    requires Search(g, vs, |vs|) && RecordedExactly(g, vs, paths)
    ensures m in paths <==> Affected(g, m)
    ensures !CutOff(g, vs, |vs|) ==> (m in paths <==> Reached(g, m))
  {
    if m in paths {
      RecordedIsEvidence(g, vs, |vs|, paths, m);
      assert ChainTo(g, paths[m].modules, m);
    }
    if Affected(g, m) {
      var q :| ChainTo(g, q, m) && |q| <= g.depth + 1;
      NearbyFound(g, vs, q);
    }
    if !CutOff(g, vs, |vs|) && Reached(g, m) {
      var q :| ChainTo(g, q, m);
      AllFound(g, vs, q);
    }
  }

  /** `m` lies in the reverse-import closure of the changed modules and is not itself changed. */
  ghost predicate Reached(g: Problem, m: string)
  {
    m !in g.changed && exists p :: ChainTo(g, p, m)
  }

  lemma CutOffMeaning(g: Problem, vs: seq<Visit>,
                      paths: map<string, BlastPath>)
    requires Search(g, vs, |vs|) && RecordedExactly(g, vs, paths) && g.depth >= 1
    ensures CutOff(g, vs, |vs|) <==>
            exists m :: m in paths && paths[m].distance == g.depth && Dependents(g.edges, m) != {}
  {
    if CutOff(g, vs, |vs|) {
      var i :| 0 <= i < |vs| && |vs[i].path| > g.depth && Dependents(g.edges, vs[i].current) != {};
      assert VisitOk(g, vs, i);
      assert vs[i].current in paths && paths[vs[i].current].distance == g.depth;
    }
    forall m | m in paths && paths[m].distance == g.depth && Dependents(g.edges, m) != {}
      ensures CutOff(g, vs, |vs|)
    {
      var i :| 0 <= i < |vs| && vs[i].current == m;
      assert |vs[i].path| > g.depth;
    }
  }

  /** Shorter, or as short and before `q`. */
  ghost predicate Precedes(p: seq<string>, q: seq<string>)
  {
    |p| < |q| || (|p| == |q| && PathLess(p, q))
  }

  /** A chain's last discovered module, followed by one that is not. */
  lemma {:induction false} LeavesDiscovered(g: Problem, vs: seq<Visit>, f: nat, q: seq<string>) returns (n: nat, a: nat)
    requires Search(g, vs, f) && IsChain(g, q) && !Discovered(vs, q[|q|-1])
    ensures 2 <= n <= |q| && IsChain(g, q[..n]) && IsChain(g, q[..n-1])
    ensures a < |vs| && vs[a].current == q[n-2]
    ensures q[n-1] in Dependents(g.edges, q[n-2]) && !Discovered(vs, q[n-1])
  {
    assert |q| == 1 ==> Discovered(vs, q[0]);
    ChainPrefix(g, q);
    var p := q[..|q|-1];
    if Discovered(vs, p[|p|-1]) {
      n := |q|;
      a :| 0 <= a < |vs| && vs[a].current == p[|p|-1];
      assert q[..n] == q;
    } else {
      n, a := LeavesDiscovered(g, vs, f, p);
      assert q[..n] == p[..n] && q[..n-1] == p[..n-1];
    }
  }

  /** No visit goes deeper than the bound. */
  lemma DepthBounded(g: Problem, vs: seq<Visit>, f: nat, i: nat)
    requires Search(g, vs, f) && i < |vs|
    ensures 1 <= |vs[i].path| <= g.depth + 1
  {
    assert VisitOk(g, vs, i);
    if vs[i].parent >= 0 {
      assert VisitOk(g, vs, vs[i].parent);
    }
  }

  /** A visit that had a dependent left to discover when the search stopped is not finished, or lies at the bound. */
  lemma LeftOver(g: Problem, vs: seq<Visit>, f: nat, a: nat, m: string)
    requires Search(g, vs, f) && a < |vs| && m in Dependents(g.edges, vs[a].current) && !Discovered(vs, m)
    ensures a >= f || |vs[a].path| > g.depth
  {
    assert a < f ==> Finished(g, vs, a);
  }

  /** The same for the chain through one more module, seen from a visit of the same depth as that module. */
  lemma {:induction false} SameDepthFirst(g: Problem, vs: seq<Visit>, f: nat, a: nat, i: nat, q: seq<string>, m: string)
    requires Search(g, vs, f) && ChildrenFirst(g, vs, f) && f <= a < |vs| && i < |vs|
    requires ChainTo(g, q, vs[a].current) && m in Dependents(g.edges, vs[a].current) && !Discovered(vs, m)
    requires |vs[i].path| == |q| + 1
    ensures PathLess(vs[i].path, q + [m])
  {
    assert VisitOk(g, vs, i) && VisitOk(g, vs, a);
    var p := vs[i].parent;
    assert 0 <= p <= f;
    VisitShortest(g, vs, f, a, q);
    if p < a {
      assert InOrder(vs, p, a);
    }
    VisitLeast(g, vs, f, a, q);
    if p < a {
      LessThenLeq(vs[p].path, vs[a].path, q);
    } else {
      assert NotAfter(g, vs, f, vs[i].current, m);
    }
    PathLessExtendsEither(vs[p].path, q, vs[i].current, m);
  }

  lemma {:induction false} LessThenLeq(p: seq<string>, r: seq<string>, q: seq<string>)
    requires PathLess(p, r) && PathLeq(r, q)
    ensures PathLess(p, q)
  {
    if r != q {
      PathLessTransitive(p, r, q);
    }
  }

  lemma {:induction false} PathLessExtendsEither(p: seq<string>, q: seq<string>, a: string, b: string)
    requires |p| == |q| && (PathLess(p, q) || (PathLeq(p, q) && StrLess(a, b)))
    ensures PathLess(p + [a], q + [b])
  {
    PathLessExtend(p, q, a, b);
  }

  /** Wherever the search stopped, it discovered nearer modules first: no chain to another module precedes a visit's. */
  lemma NearestFirst(g: Problem, vs: seq<Visit>, f: nat, i: nat, q: seq<string>)
    requires Search(g, vs, f) && ChildrenFirst(g, vs, f)
    requires i < |vs| && IsChain(g, q) && !Discovered(vs, q[|q|-1])
    ensures Precedes(vs[i].path, q)
  {
    hide Search, ChildrenFirst, IsChain, Discovered, PathLess;
    var n, a := LeavesDiscovered(g, vs, f, q);
    var p, m := q[..n-1], q[n-1];
    assert ChainTo(g, p, vs[a].current);
    LeftOver(g, vs, f, a, m);
    VisitShortest(g, vs, f, a, p);
    DepthBounded(g, vs, f, i);
    if a >= f {
      NoDeeper(g, vs, f, a, i);
      if |vs[i].path| == |p| + 1 {
        SameDepthFirst(g, vs, f, a, i, p, m);
        assert p + [m] == q[..n];
        assert n == |q| ==> q[..n] == q;
      }
    }
  }

  lemma NoDeeper(g: Problem, vs: seq<Visit>, f: nat, a: nat, i: nat)
    requires Search(g, vs, f) && f <= a < |vs| && i < |vs|
    ensures |vs[i].path| <= |vs[a].path| + 1
  {
    assert VisitOk(g, vs, i) && VisitOk(g, vs, a);
    var p := vs[i].parent;
    if 0 <= p < a {
      assert InOrder(vs, p, a);
    }
  }

  // ----- The report

  datatype ImportGraph = ImportGraph(available: bool, modules: seq<(string, string)>, edges: seq<Edge>)

  datatype Report = Report(available: bool, changedModules: seq<string>, directModules: seq<string>,
                           transitiveModules: seq<string>, maxDepth: Option<nat>, evidencePaths: seq<BlastPath>,
                           truncated: bool)

  /** Module by path; of two modules with one path the later stands. */
  function ModuleByPath(modules: seq<(string, string)>): map<string, string>
  {
    if modules == [] then map[] else
    var last := modules[|modules|-1];
    ModuleByPath(modules[..|modules|-1])[last.1 := last.0]
  }

  /** The changed modules are those of the changed paths the graph knows. */
  function ChangedModules(paths: seq<string>, graph: ImportGraph): set<string>
  {
    var byPath := ModuleByPath(graph.modules);
    set p | p in paths && p in byPath :: byPath[p]
  }

  /** Entry `k` of the graph's modules has a changed path, and no later entry has that path. */
  ghost predicate ChangedAt(paths: seq<string>, modules: seq<(string, string)>, k: nat)
  {
    && k < |modules| && modules[k].1 in paths
    && forall j :: k < j < |modules| ==> modules[j].1 != modules[k].1
  }

  /** The dictionary by path holds the last module of each path. */
  lemma {:induction false} LastModule(modules: seq<(string, string)>, p: string, m: string)
    ensures p in ModuleByPath(modules) && ModuleByPath(modules)[p] == m <==>
      exists k: nat :: k < |modules| && modules[k] == (m, p) && forall j :: k < j < |modules| ==> modules[j].1 != p
  {
    if modules != [] {
      var n := |modules| - 1;
      LastModule(modules[..n], p, m);
      if modules[n].1 != p {
        if k: nat :| k < n && modules[..n][k] == (m, p) && forall j :: k < j < n ==> modules[..n][j].1 != p {
          assert modules[k] == (m, p);
          forall j | k < j < |modules|
            ensures modules[j].1 != p
          {
            assert j < n ==> modules[..n][j] == modules[j];
          }
        }
        if k: nat :| k < |modules| && modules[k] == (m, p) && forall j :: k < j < |modules| ==> modules[j].1 != p {
          assert modules[..n][k] == (m, p);
        }
      }
    }
  }

  /** Which modules count as changed: the last one listed under a changed path. */
  lemma ChangedMeans(paths: seq<string>, graph: ImportGraph, m: string)
    ensures m in ChangedModules(paths, graph) <==>
      exists k: nat :: ChangedAt(paths, graph.modules, k) && graph.modules[k].0 == m
  {
    var modules := graph.modules;
    if m in ChangedModules(paths, graph) {
      var p :| p in paths && p in ModuleByPath(modules) && ModuleByPath(modules)[p] == m;
      LastModule(modules, p, m);
      var k: nat :| k < |modules| && modules[k] == (m, p) && forall j :: k < j < |modules| ==> modules[j].1 != p;
      assert ChangedAt(paths, modules, k);
    }
    if k: nat :| ChangedAt(paths, modules, k) && modules[k].0 == m {
      LastModule(modules, modules[k].1, m);
    }
  }

  ghost function Found(r: Report): set<string>
  {
    set e | e in r.evidencePaths :: e.affectedModule
  }

  /** One canonical path for each recorded module, listed by module and never more than the cap. */
  ghost predicate ListsEvidence(g: Problem, r: Report)
  {
    && (forall i, j :: 0 <= i < j < |r.evidencePaths| ==>
          StrLess(r.evidencePaths[i].affectedModule, r.evidencePaths[j].affectedModule))
    && (forall e :: e in r.evidencePaths ==> IsEvidence(g, e))
    && |r.evidencePaths| <= 1_000
  }

  /** Direct and transitive modules split the recorded ones. */
  ghost predicate SplitsByDistance(r: Report)
  {
    && Increasing(r.directModules) && Increasing(r.transitiveModules)
    && Members(r.directModules) == (set e | e in r.evidencePaths && e.distance == 1 :: e.affectedModule)
    && Members(r.transitiveModules) == (set e | e in r.evidencePaths && e.distance > 1 :: e.affectedModule)
    && Members(r.directModules) !! Members(r.transitiveModules)
    && Members(r.directModules) + Members(r.transitiveModules) == Found(r)
  }

  /** Below the cap the modules within the bound are recorded; without truncation, the whole closure. */
  ghost predicate FindsAll(g: Problem, r: Report)
  {
    && (|r.evidencePaths| < 1_000 ==> forall m :: m in Found(r) <==> Affected(g, m))
    && (!r.truncated ==> forall m :: m in Found(r) <==> Reached(g, m))
  }

  /** `truncated` is raised by the cap, or by a recorded module at the bound that still has dependents. */
  ghost predicate TruncationExact(g: Problem, r: Report)
  {
    r.truncated <==>
      || |r.evidencePaths| == 1_000
      || exists e :: e in r.evidencePaths && e.distance == g.depth && Dependents(g.edges, e.affectedModule) != {}
  }

  /** The recorded modules are the nearest ones: no chain to a module left out precedes a recorded path. */
  ghost predicate KeepsNearest(g: Problem, r: Report)
  {
    forall e, q :: e in r.evidencePaths && IsChain(g, q) && LeftOut(g, r, q[|q|-1]) ==> Precedes(e.modules, q)
  }

  ghost predicate LeftOut(g: Problem, r: Report, m: string)
  {
    m !in g.changed && m !in Found(r)
  }

  /** Everything the report promises about an available graph. */
  ghost predicate IsReport(g: Problem, r: Report)
  {
    && r.available
    && IsSorted(r.changedModules, g.changed)
    && ListsEvidence(g, r)
    && SplitsByDistance(r)
    && FindsAll(g, r)
    && KeepsNearest(g, r)
    && TruncationExact(g, r)
    && IsMaxDistance(r.evidencePaths, r.maxDepth)
  }

  /** The evidence list holds the recorded paths, one for each key. */
  ghost predicate Tabulates(paths: map<string, BlastPath>, evidence: seq<BlastPath>)
  {
    && |evidence| == |paths|
    && (forall e :: e in evidence ==> e.affectedModule in paths && paths[e.affectedModule] == e)
    && (forall m :: m in paths ==> paths[m] in evidence)
  }

  /** The recorded paths in the order of their modules. */
  ghost predicate InNameOrder(paths: map<string, BlastPath>, names: seq<string>, evidence: seq<BlastPath>)
  {
    && Increasing(names) && |names| == |evidence|
    && forall i :: 0 <= i < |names| ==> names[i] in paths && evidence[i] == paths[names[i]]
  }

  lemma ListedEvidence(g: Problem, vs: seq<Visit>, f: nat,
                       paths: map<string, BlastPath>, names: seq<string>, evidence: seq<BlastPath>, i: nat)
    requires Search(g, vs, f) && RecordedExactly(g, vs, paths)
    requires InNameOrder(paths, names, evidence) && i < |evidence|
    ensures IsEvidence(g, evidence[i])
    ensures evidence[i].affectedModule == names[i] && paths[names[i]] == evidence[i]
  {
    RecordedIsEvidence(g, vs, f, paths, names[i]);
  }

  lemma ReportListsEvidence(g: Problem, vs: seq<Visit>, f: nat,
                            paths: map<string, BlastPath>, names: seq<string>, r: Report)
    requires Search(g, vs, f) && RecordedExactly(g, vs, paths)
    requires |names| <= MAX_BLAST_NODES
    requires InNameOrder(paths, names, r.evidencePaths)
    ensures ListsEvidence(g, r)
  {
    forall i | 0 <= i < |names|
      ensures IsEvidence(g, r.evidencePaths[i]) && r.evidencePaths[i].affectedModule == names[i]
    {
      ListedEvidence(g, vs, f, paths, names, r.evidencePaths, i);
    }
  }

  lemma ReportTabulates(g: Problem, vs: seq<Visit>, f: nat,
                        paths: map<string, BlastPath>, names: seq<string>, r: Report)
    requires Search(g, vs, f) && RecordedExactly(g, vs, paths)
    requires InNameOrder(paths, names, r.evidencePaths) && IsSorted(names, paths.Keys)
    ensures Tabulates(paths, r.evidencePaths)
    ensures Found(r) == paths.Keys
    ensures forall m :: m in paths ==> paths[m].affectedModule == m
    ensures forall e :: e in r.evidencePaths ==> e.distance >= 1
  {
    hide Search, RecordedExactly, IsCanonical;
    var es := r.evidencePaths;
    forall i | 0 <= i < |es|
      ensures es[i].affectedModule in paths && paths[es[i].affectedModule] == es[i] && es[i].distance >= 1
    {
      ListedEvidence(g, vs, f, paths, names, es, i);
    }
    forall m | m in paths
      ensures paths[m] in es && m in Found(r) && paths[m].affectedModule == m
    {
      assert m in names;
      var i :| 0 <= i < |names| && names[i] == m;
      ListedEvidence(g, vs, f, paths, names, es, i);
      assert es[i] in es;
    }
  }

  lemma ReportSplits(g: Problem, paths: map<string, BlastPath>, r: Report)
    requires forall e :: e in r.evidencePaths ==> e.distance >= 1
    requires Tabulates(paths, r.evidencePaths)
    requires forall m :: m in paths ==> paths[m].affectedModule == m
    requires IsSorted(r.directModules, set m | m in paths && paths[m].distance == 1)
    requires IsSorted(r.transitiveModules, set m | m in paths && paths[m].distance > 1)
    ensures SplitsByDistance(r)
  {
    forall m | m in paths
      ensures paths[m] in r.evidencePaths && m in Found(r)
    {
      assert paths[m] in r.evidencePaths;
    }
    assert Members(r.directModules) == (set e | e in r.evidencePaths && e.distance == 1 :: e.affectedModule);
    assert Members(r.transitiveModules) == (set e | e in r.evidencePaths && e.distance > 1 :: e.affectedModule);
  }

  lemma ReportFindsAll(g: Problem, vs: seq<Visit>, f: nat,
                       paths: map<string, BlastPath>, r: Report)
    requires SearchState(g, vs, f, [], paths, r.truncated) && g.depth >= 1
    requires Tabulates(paths, r.evidencePaths) && Found(r) == paths.Keys
    ensures FindsAll(g, r)
    ensures TruncationExact(g, r)
  {
    if |paths| < MAX_BLAST_NODES {
      assert f == |vs|;
      forall m
        ensures m in paths <==> Affected(g, m)
        ensures !r.truncated ==> (m in paths <==> Reached(g, m))
      {
        RecordedComplete(g, vs, paths, m);
      }
      CutOffMeaning(g, vs, paths);
      if r.truncated {
        var m :| m in paths && paths[m].distance == g.depth && Dependents(g.edges, m) != {};
        RecordedIsEvidence(g, vs, f, paths, m);
        assert paths[m] in r.evidencePaths;
      }
    }
  }

  lemma ReportKeepsNearest(g: Problem, vs: seq<Visit>, f: nat, paths: map<string, BlastPath>, r: Report)
    requires Search(g, vs, f) && RecordedExactly(g, vs, paths) && ChildrenFirst(g, vs, f)
    requires Tabulates(paths, r.evidencePaths) && Found(r) == paths.Keys
    ensures KeepsNearest(g, r)
  {
    hide Search, ChildrenFirst, Linked, Precedes, Found;
    forall e, q | e in r.evidencePaths && IsChain(g, q) && LeftOut(g, r, q[|q|-1])
      ensures Precedes(e.modules, q)
    {
      var i :| 0 <= i < |vs| && vs[i].current == e.affectedModule;
      NearestFirst(g, vs, f, i, q);
    }
  }

  ghost predicate IsMaxDistance(evidence: seq<BlastPath>, max: Option<nat>)
  {
    && max.Some?
    && (forall e :: e in evidence ==> e.distance <= max.value)
    && (if evidence == [] then max.value == 0 else exists e :: e in evidence && e.distance == max.value)
  }

  lemma AssembleReport(g: Problem, vs: seq<Visit>, f: nat,
                       paths: map<string, BlastPath>, names: seq<string>, r: Report)
    requires SearchState(g, vs, f, [], paths, r.truncated) && g.depth >= 1
    requires r.available && IsSorted(r.changedModules, g.changed)
    requires InNameOrder(paths, names, r.evidencePaths) && IsSorted(names, paths.Keys)
    requires IsSorted(r.directModules, set m | m in paths && paths[m].distance == 1)
    requires IsSorted(r.transitiveModules, set m | m in paths && paths[m].distance > 1)
    requires IsMaxDistance(r.evidencePaths, r.maxDepth)
    ensures IsReport(g, r)
  {
    StateKeeps(g, vs, f, paths, r.truncated);
    hide Search, RecordedExactly, SearchState, IsSorted, InNameOrder, Tabulates, IsMaxDistance;
    hide ListsEvidence, SplitsByDistance, FindsAll, KeepsNearest, TruncationExact, ChildrenFirst;
    NamesFit(paths, names);
    ReportListsEvidence(g, vs, f, paths, names, r);
    ReportTabulates(g, vs, f, paths, names, r);
    ReportSplits(g, paths, r);
    ReportFindsAll(g, vs, f, paths, r);
    ReportKeepsNearest(g, vs, f, paths, r);
  }

  lemma NamesFit(paths: map<string, BlastPath>, names: seq<string>)
    requires IsSorted(names, paths.Keys)
    ensures |names| == |paths|
  {
  }

  lemma StateKeeps(g: Problem, vs: seq<Visit>, f: nat, paths: map<string, BlastPath>, truncated: bool)
    requires SearchState(g, vs, f, [], paths, truncated)
    ensures Search(g, vs, f) && RecordedExactly(g, vs, paths) && |paths| <= MAX_BLAST_NODES
    ensures ChildrenFirst(g, vs, f)
  {
  }

  method ComputeBlastRadius(changedPaths: seq<string>, graph: ImportGraph, maxDepth: int)
    returns (r: Result<Report>)
    ensures r.Ok? <==> 1 <= maxDepth <= 20
    ensures r.Ok? && !graph.available ==> r.value == Report(false, [], [], [], None, [], false)
    ensures r.Ok? && graph.available ==>
            IsReport(Problem(graph.edges, Members(r.value.changedModules), maxDepth), r.value)
    ensures r.Ok? && graph.available ==> forall m :: m in r.value.changedModules <==>
              exists k: nat :: ChangedAt(changedPaths, graph.modules, k) && graph.modules[k].0 == m
  {
    if maxDepth < 1 || maxDepth > 20 {
      return ValueError;
    }
    var changed := SortedNames(ChangedModules(changedPaths, graph));
    if !graph.available {
      return Ok(Report(false, [], [], [], None, [], false));
    }
    var paths, truncated;
    ghost var vs, f;
    paths, truncated, vs, f := Explore(graph.edges, changed, maxDepth);
    assert Members(changed) == ChangedModules(changedPaths, graph);
    var report := Summarize(Problem(graph.edges, Members(changed), maxDepth), changed, paths, truncated, vs, f);
    forall m
      ensures m in report.changedModules <==>
        exists k: nat :: ChangedAt(changedPaths, graph.modules, k) && graph.modules[k].0 == m
    {
      ChangedMeans(changedPaths, graph, m);
      assert m in report.changedModules <==> m in Members(report.changedModules);
    }
    return Ok(report);
  }

  method Summarize(ghost g: Problem, changed: seq<string>, paths: map<string, BlastPath>,
                   truncated: bool, ghost vs: seq<Visit>, ghost f: nat)
    returns (r: Report)
    requires SearchState(g, vs, f, [], paths, truncated) && g.depth >= 1
    requires IsSorted(changed, g.changed)
    ensures IsReport(g, r)
  {
    hide *;
    var direct := SortedNames(set m | m in paths && paths[m].distance == 1);
    var transitive := SortedNames(set m | m in paths && paths[m].distance > 1);
    var names, evidence := EvidenceList(paths);
    var max := MaxDistance(evidence);
    r := Report(true, changed, direct, transitive, Some(max), evidence, truncated);
    AssembleReport(g, vs, f, paths, names, r);
  }

  method EvidenceList(paths: map<string, BlastPath>) returns (ghost names: seq<string>, evidence: seq<BlastPath>)
    ensures InNameOrder(paths, names, evidence) && IsSorted(names, paths.Keys)
  {
    var sorted := SortedNames(paths.Keys);
    names := sorted;
    evidence := [];
    for i := 0 to |sorted|
      invariant |evidence| == i
      invariant forall j :: 0 <= j < i ==> sorted[j] in paths && evidence[j] == paths[sorted[j]]
    {
      assert sorted[i] in sorted;
      evidence := evidence + [paths[sorted[i]]];
    }
  }

  method MaxDistance(evidence: seq<BlastPath>) returns (max: nat)
    ensures IsMaxDistance(evidence, Some(max))
  {
    max := 0;
    for i := 0 to |evidence|
      invariant IsMaxDistance(evidence[..i], Some(max))
    {
      assert evidence[..i+1] == evidence[..i] + [evidence[i]];
      if evidence[i].distance > max || i == 0 {
        max := evidence[i].distance;
      }
    }
    assert evidence[..|evidence|] == evidence;
  }
}
