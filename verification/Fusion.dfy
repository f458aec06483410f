/** Reciprocal-rank fusion of a lexical and a semantic ranking, over exact reals and for any lists. */
module Fusion {
  import opened Wrappers
  import opened Order

  const RRF_K := 60

  const MAX_CANDIDATES := 50

  datatype Candidate = Candidate(
    id: string, content: string, sourceRef: string,
    lexicalScore: Option<real>, semanticScore: Option<real>, lexicalRank: Option<nat>, semanticRank: Option<nat>,
    fusionScore: Option<real>, rerankerScore: Option<real>)

  /** What place `rank`, counted from one, adds to a score. */
  ghost function Share(rank: nat): real
  {
    1.0 / ((60 + rank) as real)
  }

  /** All shares of `id` in one list; a repeated id collects several. */
  ghost function Score(list: seq<Candidate>, id: string): real
  {
    if list == [] then 0.0 else
    var k := |list| - 1;
    Score(list[..k], id) + (if list[k].id == id then Share(k + 1) else 0.0)
  }

  ghost function Total(lexical: seq<Candidate>, semantic: seq<Candidate>, id: string): real
  {
    Score(lexical, id) + Score(semantic, id)
  }

  ghost function Ids(list: seq<Candidate>): (ids: set<string>)
  {
    if list == [] then {} else Ids(list[..|list| - 1]) + {list[|list| - 1].id}
  }

  /** The last place of a listed id. */
  ghost function LastAt(list: seq<Candidate>, id: string): (k: nat)
    requires id in Ids(list)
    ensures k < |list| && list[k].id == id
  {
    if list[|list| - 1].id == id then |list| - 1 else LastAt(list[..|list| - 1], id)
  }

  ghost function FirstAt(list: seq<Candidate>, id: string): (k: nat)
    requires id in Ids(list)
    ensures k < |list| && list[k].id == id
  {
    if id in Ids(list[..|list| - 1]) then FirstAt(list[..|list| - 1], id) else |list| - 1
  }

  /** The candidate an id ends up with: the lexical one if there is one, with its places in both lists. */
  ghost function Merged(lexical: seq<Candidate>, semantic: seq<Candidate>, id: string): Candidate
    requires id in Ids(lexical) + Ids(semantic)
  {
    var base :=
      if id in Ids(lexical) then var k := LastAt(lexical, id); lexical[k].(lexicalRank := Some(k + 1))
      else semantic[FirstAt(semantic, id)];
    if id in Ids(semantic) then
      var k := LastAt(semantic, id);
      base.(semanticScore := semantic[k].semanticScore, semanticRank := Some(k + 1))
    else base
  }

  ghost function Fused(lexical: seq<Candidate>, semantic: seq<Candidate>, id: string): Candidate
    requires id in Ids(lexical) + Ids(semantic)
  {
    Merged(lexical, semantic, id).(fusionScore := Some(Total(lexical, semantic, id)))
  }

  /** Higher score first, then the smaller id. */
  predicate Before(x: string, s: real, y: string, t: real)
  {
    s > t || (s == t && StrLess(x, y))
  }

  ghost predicate Ahead(lexical: seq<Candidate>, semantic: seq<Candidate>, x: string, y: string)
  {
    var s, t := Total(lexical, semantic, x), Total(lexical, semantic, y);
    s > t || (s == t && StrLess(x, y))
  }

  /** `top` lists the best `limit` ids of both lists together, best first. */
  ghost predicate IsTop(lexical: seq<Candidate>, semantic: seq<Candidate>, limit: nat, top: seq<string>)
  {
    var all := Ids(lexical) + Ids(semantic);
    && |top| == (if |all| < limit then |all| else limit)
    && (forall i :: 0 <= i < |top| ==> top[i] in all)
    && (forall i, j :: 0 <= i < j < |top| ==> Ahead(lexical, semantic, top[i], top[j]))
    && (forall i, id :: 0 <= i < |top| && id in all && id !in top ==> Ahead(lexical, semantic, top[i], id))
  }

  ghost function Names(list: seq<Candidate>): (names: seq<string>)
    ensures |names| == |list|
    ensures forall i :: 0 <= i < |list| ==> names[i] == list[i].id
  {
    seq(|list|, i requires 0 <= i < |list| => list[i].id)
  }

  ghost predicate IsFusion(lexical: seq<Candidate>, semantic: seq<Candidate>, limit: nat, r: seq<Candidate>)
  {
    && IsTop(lexical, semantic, limit, Names(r))
    && forall i :: 0 <= i < |r| ==>
         r[i].id in Ids(lexical) + Ids(semantic) && r[i] == Fused(lexical, semantic, r[i].id)
  }

  // ---------------------------------------------------------------- what the ranking means

  lemma AheadStrict(lexical: seq<Candidate>, semantic: seq<Candidate>, x: string, y: string)
    requires Ahead(lexical, semantic, x, y)
    ensures !Ahead(lexical, semantic, y, x) && x != y
  {
    hide Total;
    StrLessIrreflexive(x);
    if StrLess(x, y) {
      StrLessAsymmetric(x, y);
    }
  }

  /** Where two tops agree so far, the next of one cannot trail the next of the other. */
  lemma NextNotBehind(
    lexical: seq<Candidate>, semantic: seq<Candidate>, limit: nat, a: seq<string>, b: seq<string>, k: nat)
    requires IsTop(lexical, semantic, limit, a) && IsTop(lexical, semantic, limit, b)
    requires k < |a| && k < |b| && a[..k] == b[..k]
    ensures a[k] == b[k] || Ahead(lexical, semantic, a[k], b[k])
  {
    hide Ahead, Ids;
    if b[k] in a {
      var j :| 0 <= j < |a| && a[j] == b[k];
      if j < k {
        assert a[..k][j] == b[..k][j] == b[j];
        AheadStrict(lexical, semantic, b[j], b[k]);
      }
    }
  }

  /** There is one list of the best ids. */
  lemma {:induction false} TopUnique(
    lexical: seq<Candidate>, semantic: seq<Candidate>, limit: nat, a: seq<string>, b: seq<string>, k: nat)
    requires IsTop(lexical, semantic, limit, a) && IsTop(lexical, semantic, limit, b) && k <= |a|
    ensures |a| == |b| && a[..k] == b[..k]
  {
    hide Ahead, Ids;
    if k > 0 {
      TopUnique(lexical, semantic, limit, a, b, k - 1);
      NextNotBehind(lexical, semantic, limit, a, b, k - 1);
      NextNotBehind(lexical, semantic, limit, b, a, k - 1);
      if a[k - 1] != b[k - 1] {
        AheadStrict(lexical, semantic, a[k - 1], b[k - 1]);
      }
      assert a[..k] == a[..k - 1] + [a[k - 1]] && b[..k] == b[..k - 1] + [b[k - 1]];
    }
  }

  lemma FusionUnique(lexical: seq<Candidate>, semantic: seq<Candidate>, limit: nat,
    r: seq<Candidate>, t: seq<Candidate>)
    requires IsFusion(lexical, semantic, limit, r) && IsFusion(lexical, semantic, limit, t)
    ensures r == t
  {
    hide IsTop, Fused, Ids;
    TopUnique(lexical, semantic, limit, Names(r), Names(t), |r|);
    assert Names(r)[..|r|] == Names(r) && Names(t)[..|t|] == Names(t);
    forall i | 0 <= i < |r|
      ensures r[i] == t[i]
    {
      assert Names(r)[i] == Names(t)[i];
    }
  }

  /** Swapping the lists changes neither the ids nor the scores. */
  lemma FusionSymmetric(
    lexical: seq<Candidate>, semantic: seq<Candidate>, limit: nat, r: seq<Candidate>, t: seq<Candidate>)
    requires IsFusion(lexical, semantic, limit, r) && IsFusion(semantic, lexical, limit, t)
    ensures Names(r) == Names(t)
    ensures forall i :: 0 <= i < |r| ==> r[i].fusionScore == t[i].fusionScore
  {
    hide Merged, Ids, Score;
    assert Ids(lexical) + Ids(semantic) == Ids(semantic) + Ids(lexical);
    assert forall x, y :: Ahead(semantic, lexical, x, y) <==> Ahead(lexical, semantic, x, y);
    assert IsTop(lexical, semantic, limit, Names(t));
    TopUnique(lexical, semantic, limit, Names(r), Names(t), |r|);
    assert Names(r)[..|r|] == Names(r) && Names(t)[..|t|] == Names(t);
    forall i | 0 <= i < |r|
      ensures r[i].fusionScore == t[i].fusionScore
    {
      assert Names(r)[i] == Names(t)[i];
    }
  }

  ghost predicate NoRepeats(list: seq<Candidate>)
  {
    forall i, j :: 0 <= i < j < |list| ==> list[i].id != list[j].id
  }

  /** Listed at no worse a place, where not being listed is the worst place. */
  ghost predicate NoWorse(list: seq<Candidate>, x: string, y: string)
  {
    y in Ids(list) ==> x in Ids(list) && LastAt(list, x) <= LastAt(list, y)
  }

  lemma ShareFalls(r: nat, s: nat)
    requires r <= s
    ensures 0.0 < Share(s) <= Share(r)
    ensures r < s ==> Share(s) < Share(r)
  {
  }

  /** An id listed once scores the share of its place. */
  lemma {:induction false} ScoreOnce(list: seq<Candidate>, id: string)
    requires NoRepeats(list)
    ensures Score(list, id) == if id in Ids(list) then Share(LastAt(list, id) + 1) else 0.0
  {
    hide Share;
    if list != [] {
      var k := |list| - 1;
      ScoreOnce(list[..k], id);
      if id in Ids(list[..k]) {
        assert list[LastAt(list[..k], id)].id == id;
      }
    }
  }

  /** At least as well placed in both lists and better in one means ahead of. */
  lemma DominanceWins(lexical: seq<Candidate>, semantic: seq<Candidate>, x: string, y: string)
    requires NoRepeats(lexical) && NoRepeats(semantic)
    requires NoWorse(lexical, x, y) && NoWorse(semantic, x, y)
    requires !NoWorse(lexical, y, x) || !NoWorse(semantic, y, x)
    ensures Total(lexical, semantic, x) > Total(lexical, semantic, y)
    ensures Ahead(lexical, semantic, x, y)
  {
    hide NoRepeats, Score, Share;
    PlaceDecides(lexical, x, y);
    PlaceDecides(semantic, x, y);
  }

  /** So wherever the worse placed one is returned, the better placed one comes before it. */
  lemma DominantFirst(
    lexical: seq<Candidate>, semantic: seq<Candidate>, limit: nat, r: seq<Candidate>, x: string, j: nat)
    requires NoRepeats(lexical) && NoRepeats(semantic) && IsFusion(lexical, semantic, limit, r) && j < |r|
    requires NoWorse(lexical, x, r[j].id) && NoWorse(semantic, x, r[j].id)
    requires !NoWorse(lexical, r[j].id, x) || !NoWorse(semantic, r[j].id, x)
    ensures exists i :: 0 <= i < j && r[i].id == x
  {
    hide NoRepeats, Fused, Ahead;
    var top := Names(r);
    DominanceWins(lexical, semantic, x, top[j]);
    AheadStrict(lexical, semantic, x, top[j]);
    var i :| 0 <= i < |top| && top[i] == x;
    assert r[i].id == x;
  }

  lemma {:induction false} PlaceDecides(list: seq<Candidate>, x: string, y: string)
    requires NoRepeats(list) && NoWorse(list, x, y)
    ensures Score(list, x) >= Score(list, y)
    ensures !NoWorse(list, y, x) ==> Score(list, x) > Score(list, y)
  {
    hide NoRepeats, Score, Share, Ids, LastAt;
    ScoreOnce(list, x);
    ScoreOnce(list, y);
    if x in Ids(list) {
      ShareFalls(LastAt(list, x) + 1, LastAt(list, x) + 1);
      if y in Ids(list) {
        ShareFalls(LastAt(list, x) + 1, LastAt(list, y) + 1);
      }
    }
  }

  // ---------------------------------------------------------------- the loops

  ghost predicate HoldsAt(
    lexical: seq<Candidate>, semantic: seq<Candidate>, combined: map<string, Candidate>, scores: map<string, real>,
    id: string)
    requires id in combined && id in scores && id in Ids(lexical) + Ids(semantic)
  {
    combined[id] == Merged(lexical, semantic, id) && scores[id] == Total(lexical, semantic, id)
  }

  /** The dictionaries hold what the entries seen so far amount to. */
  ghost predicate Holds(
    lexical: seq<Candidate>, semantic: seq<Candidate>, combined: map<string, Candidate>, scores: map<string, real>)
  {
    var all := Ids(lexical) + Ids(semantic);
    && (forall id :: (id in combined <==> id in all) && (id in scores <==> id in all))
    && forall id :: id in all ==> HoldsAt(lexical, semantic, combined, scores, id)
  }

  function Known(scores: map<string, real>, id: string): real
  {
    if id in scores then scores[id] else 0.0
  }

  lemma {:induction false} Unlisted(list: seq<Candidate>, id: string)
    requires id !in Ids(list)
    ensures Score(list, id) == 0.0
  {
    if list != [] {
      Unlisted(list[..|list| - 1], id);
    }
  }

  /** What one more entry changes about one list. */
  lemma {:induction false} ListMore(list: seq<Candidate>, c: Candidate, id: string)
    ensures Ids(list + [c]) == Ids(list) + {c.id}
    ensures Score(list + [c], id) == Score(list, id) + (if id == c.id then Share(|list| + 1) else 0.0)
    ensures id in Ids(list + [c]) ==> LastAt(list + [c], id) == if id == c.id then |list| else LastAt(list, id)
    ensures id in Ids(list + [c]) ==> FirstAt(list + [c], id) == if id in Ids(list) then FirstAt(list, id) else |list|
    ensures id !in Ids(list) ==> Score(list, id) == 0.0
  {
    hide Share;
    assert (list + [c])[..|list|] == list;
    if id !in Ids(list) {
      Unlisted(list, id);
    }
  }

  lemma {:induction false} NothingListed(none: seq<Candidate>, id: string)
    requires |none| == 0
    ensures Ids(none) == {} && Score(none, id) == 0.0
  {
  }

  lemma {:induction false} MergedLexical(seen: seq<Candidate>, none: seq<Candidate>, c: Candidate, id: string)
    requires id in Ids(seen + [c]) && |none| == 0
    ensures id != c.id ==> id in Ids(seen)
    ensures Merged(seen + [c], none, id)
         == if id == c.id then c.(lexicalRank := Some(|seen| + 1)) else Merged(seen, none, id)
    ensures Total(seen + [c], none, id) == Total(seen, none, id) + (if id == c.id then Share(|seen| + 1) else 0.0)
    ensures id !in Ids(seen) ==> Total(seen, none, id) == 0.0
  {
    hide Share, Score, Ids, LastAt, FirstAt;
    NothingListed(none, id);
    ListMore(seen, c, id);
    assert (seen + [c])[|seen|] == c;
    assert id in Ids(seen) ==> (seen + [c])[LastAt(seen, id)] == seen[LastAt(seen, id)];
  }

  lemma {:induction false} MergedSemantic(lexical: seq<Candidate>, seen: seq<Candidate>, c: Candidate, id: string)
    requires id in Ids(lexical) + Ids(seen + [c])
    ensures id != c.id ==> id in Ids(lexical) + Ids(seen)
    ensures Merged(lexical, seen + [c], id)
         == (if id != c.id then Merged(lexical, seen, id)
             else (if id in Ids(lexical) + Ids(seen) then Merged(lexical, seen, id).(semanticScore := c.semanticScore)
                    else c)
               .(semanticRank := Some(|seen| + 1)))
    ensures Total(lexical, seen + [c], id) == Total(lexical, seen, id) + (if id == c.id then Share(|seen| + 1) else 0.0)
    ensures id !in Ids(lexical) + Ids(seen) ==> Total(lexical, seen, id) == 0.0
  {
    hide Share, Score, Ids, LastAt, FirstAt;
    ListMore(seen, c, id);
    if id !in Ids(lexical) {
      Unlisted(lexical, id);
    }
    assert (seen + [c])[|seen|] == c;
    assert id in Ids(seen) ==> (seen + [c])[FirstAt(seen, id)] == seen[FirstAt(seen, id)];
    assert id in Ids(seen) ==> (seen + [c])[LastAt(seen, id)] == seen[LastAt(seen, id)];
  }

  /** An id the new entry is not about is as it was. */
  ghost predicate Kept(
    lexical: seq<Candidate>, semantic: seq<Candidate>, lexicalMore: seq<Candidate>, semanticMore: seq<Candidate>,
    id: string)
  {
    id in Ids(lexical) + Ids(semantic) && id in Ids(lexicalMore) + Ids(semanticMore) ==>
      && Merged(lexicalMore, semanticMore, id) == Merged(lexical, semantic, id)
      && Total(lexicalMore, semanticMore, id) == Total(lexical, semantic, id)
  }

  /** Storing what the new entry's id amounts to keeps the dictionaries right. */
  lemma {:induction false} HoldsMore(
    lexical: seq<Candidate>, semantic: seq<Candidate>, lexicalMore: seq<Candidate>, semanticMore: seq<Candidate>,
    id: string, combined: map<string, Candidate>, scores: map<string, real>)
    requires Holds(lexical, semantic, combined, scores)
    requires forall x :: x in Ids(lexicalMore) + Ids(semanticMore) <==> x in Ids(lexical) + Ids(semantic) || x == id
    requires forall other :: other != id ==> Kept(lexical, semantic, lexicalMore, semanticMore, other)
    ensures Holds(lexicalMore, semanticMore, combined[id := Merged(lexicalMore, semanticMore, id)],
                  scores[id := Total(lexicalMore, semanticMore, id)])
  {
    hide Ids, Total, Merged, HoldsAt, Kept;
    forall other | other in Ids(lexicalMore) + Ids(semanticMore)
      ensures HoldsAt(lexicalMore, semanticMore, combined[id := Merged(lexicalMore, semanticMore, id)],
                      scores[id := Total(lexicalMore, semanticMore, id)], other)
    {
      HoldsAtMore(lexical, semantic, lexicalMore, semanticMore, id, other, combined, scores);
    }
  }

  lemma {:induction false} HoldsAtMore(
    lexical: seq<Candidate>, semantic: seq<Candidate>, lexicalMore: seq<Candidate>, semanticMore: seq<Candidate>,
    id: string, other: string, combined: map<string, Candidate>, scores: map<string, real>)
    requires id in Ids(lexicalMore) + Ids(semanticMore) && other in Ids(lexicalMore) + Ids(semanticMore)
    requires other != id ==>
      && other in combined && other in scores && other in Ids(lexical) + Ids(semantic)
      && HoldsAt(lexical, semantic, combined, scores, other)
      && Kept(lexical, semantic, lexicalMore, semanticMore, other)
    ensures HoldsAt(lexicalMore, semanticMore, combined[id := Merged(lexicalMore, semanticMore, id)],
                    scores[id := Total(lexicalMore, semanticMore, id)], other)
  {
  }

  lemma {:induction false} HeldMeans(
    lexical: seq<Candidate>, semantic: seq<Candidate>, combined: map<string, Candidate>,
    scores: map<string, real>, id: string)
    requires Holds(lexical, semantic, combined, scores)
    ensures id in combined <==> id in Ids(lexical) + Ids(semantic)
    ensures id in combined ==> combined[id] == Merged(lexical, semantic, id)
    ensures Known(scores, id) == if id in combined then Total(lexical, semantic, id) else 0.0
  {
  }

  lemma HoldsLexical(
    seen: seq<Candidate>, none: seq<Candidate>, c: Candidate, combined: map<string, Candidate>,
    scores: map<string, real>)
    requires Holds(seen, none, combined, scores) && |none| == 0
    ensures Holds(seen + [c], none, combined[c.id := c.(lexicalRank := Some(|seen| + 1))],
                  scores[c.id := Known(scores, c.id) + Share(|seen| + 1)])
  {
    hide Share, Ids, Total, Merged, Holds;
    NothingListed(none, c.id);
    ListMore(seen, c, c.id);
    HeldMeans(seen, none, combined, scores, c.id);
    MergedLexical(seen, none, c, c.id);
    forall other | other != c.id
      ensures Kept(seen, none, seen + [c], none, other)
    {
      if other in Ids(seen + [c]) {
        MergedLexical(seen, none, c, other);
      }
    }
    HoldsMore(seen, none, seen + [c], none, c.id, combined, scores);
  }

  lemma HoldsSemantic(
    lexical: seq<Candidate>, seen: seq<Candidate>, c: Candidate,
    combined: map<string, Candidate>, scores: map<string, real>)
    requires Holds(lexical, seen, combined, scores)
    ensures var base := if c.id in combined then combined[c.id].(semanticScore := c.semanticScore) else c;
            Holds(lexical, seen + [c], combined[c.id := base.(semanticRank := Some(|seen| + 1))],
                  scores[c.id := Known(scores, c.id) + Share(|seen| + 1)])
  {
    hide Share, Ids, Total, Merged, Holds;
    ListMore(seen, c, c.id);
    HeldMeans(lexical, seen, combined, scores, c.id);
    MergedSemantic(lexical, seen, c, c.id);
    forall other | other != c.id
      ensures Kept(lexical, seen, lexical, seen + [c], other)
    {
      if other in Ids(lexical) + Ids(seen + [c]) {
        MergedSemantic(lexical, seen, c, other);
      }
    }
    HoldsMore(lexical, seen, lexical, seen + [c], c.id, combined, scores);
  }

  // ---------------------------------------------------------------- the sort

  function Or(score: Option<real>, default: real): real
  {
    if score.Some? then score.value else default
  }

  predicate Precedes(a: Candidate, b: Candidate)
  {
    Before(a.id, Or(a.fusionScore, 0.0), b.id, Or(b.fusionScore, 0.0))
  }

  function Insert(c: Candidate, sorted: seq<Candidate>): seq<Candidate>
  {
    if sorted == [] then [c]
    else if Precedes(sorted[0], c) then [sorted[0]] + Insert(c, sorted[1..])
    else [c] + sorted
  }

  function Ranked(list: seq<Candidate>): seq<Candidate>
  {
    if list == [] then [] else Insert(list[0], Ranked(list[1..]))
  }

  /** The listed candidates, best first. */
  ghost predicate InOrder(list: seq<Candidate>)
  {
    forall i, j :: 0 <= i < j < |list| ==> Precedes(list[i], list[j])
  }

  lemma {:induction false} InsertOrders(c: Candidate, sorted: seq<Candidate>)
    requires InOrder(sorted) && forall x :: x in sorted ==> x.id != c.id
    ensures InOrder(Insert(c, sorted)) && |Insert(c, sorted)| == |sorted| + 1
    ensures forall x :: x in Insert(c, sorted) <==> x == c || x in sorted
  {
    if sorted != [] {
      assert sorted == [sorted[0]] + sorted[1..];
      if Precedes(sorted[0], c) {
        InsertOrders(c, sorted[1..]);
        var rest := Insert(c, sorted[1..]);
        forall j | 0 <= j < |rest|
          ensures Precedes(sorted[0], rest[j])
        {
          assert rest[j] in rest;
        }
      } else {
        StrLessTotal(c.id, sorted[0].id);
        forall j | 0 <= j < |sorted|
          ensures Precedes(c, sorted[j])
        {
          if j > 0 {
            assert Precedes(sorted[0], sorted[j]);
            PrecedesTransitive(c, sorted[0], sorted[j]);
          }
        }
      }
    }
  }

  lemma PrecedesTransitive(a: Candidate, b: Candidate, c: Candidate)
    requires Precedes(a, b) && Precedes(b, c)
    ensures Precedes(a, c)
  {
    if StrLess(a.id, b.id) && StrLess(b.id, c.id) {
      StrLessTransitive(a.id, b.id, c.id);
    }
  }

  lemma {:induction false} RankedOrders(list: seq<Candidate>)
    requires NoRepeats(list)
    ensures InOrder(Ranked(list)) && |Ranked(list)| == |list|
    ensures forall x :: x in Ranked(list) <==> x in list
  {
    if list != [] {
      assert list == [list[0]] + list[1..];
      RankedOrders(list[1..]);
      InsertOrders(list[0], Ranked(list[1..]));
    }
  }

  /** `all` lists every fused candidate, best first. */
  ghost predicate ListsAll(lexical: seq<Candidate>, semantic: seq<Candidate>, all: seq<Candidate>)
  {
    && InOrder(all) && |all| == |Ids(lexical) + Ids(semantic)|
    && (forall c :: c in all ==> c.id in Ids(lexical) + Ids(semantic) && c == Fused(lexical, semantic, c.id))
    && (forall id :: id in Ids(lexical) + Ids(semantic) ==> Fused(lexical, semantic, id) in all)
  }

  lemma ListedAhead(lexical: seq<Candidate>, semantic: seq<Candidate>, all: seq<Candidate>, i: nat, j: nat)
    requires ListsAll(lexical, semantic, all) && i < j < |all|
    ensures Ahead(lexical, semantic, all[i].id, all[j].id)
  {
    hide Ids, Total, Merged;
    assert Precedes(all[i], all[j]) && all[i] in all && all[j] in all;
  }

  lemma PlaceOf(lexical: seq<Candidate>, semantic: seq<Candidate>, all: seq<Candidate>, id: string) returns (j: nat)
    requires ListsAll(lexical, semantic, all) && id in Ids(lexical) + Ids(semantic)
    ensures j < |all| && all[j].id == id
  {
    hide Ids, Total, Merged, InOrder;
    FusedId(lexical, semantic, id);
    j :| 0 <= j < |all| && all[j] == Fused(lexical, semantic, id);
  }

  /** The first `limit` of all fused candidates in order are the fusion. */
  lemma FirstAreTop(lexical: seq<Candidate>, semantic: seq<Candidate>, limit: nat, all: seq<Candidate>)
    requires ListsAll(lexical, semantic, all)
    ensures IsFusion(lexical, semantic, limit, if |all| < limit then all else all[..limit])
  {
    hide Ids, Total, Fused, Ahead, InOrder;
    var r := if |all| < limit then all else all[..limit];
    var top := Names(r);
    forall k | 0 <= k < |top|
      ensures all[k].id in top
    {
      assert top[k] == all[k].id;
    }
    forall i, id | 0 <= i < |top| && id in Ids(lexical) + Ids(semantic) && id !in top
      ensures Ahead(lexical, semantic, top[i], id)
    {
      var j := PlaceOf(lexical, semantic, all, id);
      ListedAhead(lexical, semantic, all, i, j);
    }
    forall i, j | 0 <= i < j < |top|
      ensures Ahead(lexical, semantic, top[i], top[j])
    {
      ListedAhead(lexical, semantic, all, i, j);
    }
    forall i | 0 <= i < |r|
      ensures r[i] in all
    {
    }
  }

  lemma {:induction false} FusedId(lexical: seq<Candidate>, semantic: seq<Candidate>, id: string)
    requires id in Ids(lexical) + Ids(semantic)
    ensures Fused(lexical, semantic, id).id == id
  {
  }

  method ReciprocalRankFusion(lexical: seq<Candidate>, semantic: seq<Candidate>, limit: int)
    returns (r: Result<seq<Candidate>>)
    ensures r.Ok? <==> 1 <= limit <= 50
    ensures r.Ok? ==> IsFusion(lexical, semantic, limit, r.value)
  {
    hide Ids, Total, Fused, Merged, Share, Holds, IsFusion, InOrder, Ranked;
    if !(1 <= limit <= MAX_CANDIDATES) {
      return ValueError;
    }
    var combined: map<string, Candidate> := map[];
    var scores: map<string, real> := map[];
    ghost var none := semantic[..0];
    NothingHeld(none);
    for k := 0 to |lexical|
      invariant Holds(lexical[..k], none, combined, scores)
    {
      var candidate := lexical[k];
      HoldsLexical(lexical[..k], none, candidate, combined, scores);
      assert lexical[..k + 1] == lexical[..k] + [candidate];
      combined := combined[candidate.id := candidate.(lexicalRank := Some(k + 1))];
      ShareIs(k + 1);
      scores := scores[candidate.id := Known(scores, candidate.id) + 1.0 / ((RRF_K + k + 1) as real)];
    }
    assert lexical[..|lexical|] == lexical;
    for k := 0 to |semantic|
      invariant Holds(lexical, semantic[..k], combined, scores)
    {
      var candidate := semantic[k];
      HoldsSemantic(lexical, semantic[..k], candidate, combined, scores);
      assert semantic[..k + 1] == semantic[..k] + [candidate];
      if candidate.id in combined {
        combined := combined[candidate.id :=
          combined[candidate.id].(semanticScore := candidate.semanticScore, semanticRank := Some(k + 1))];
      } else {
        combined := combined[candidate.id := candidate.(semanticRank := Some(k + 1))];
      }
      ShareIs(k + 1);
      scores := scores[candidate.id := Known(scores, candidate.id) + 1.0 / ((RRF_K + k + 1) as real)];
    }
    assert semantic[..|semantic|] == semantic;
    var ranked := Scored(lexical, semantic, combined, scores);
    RankedOrders(ranked);
    ranked := Ranked(ranked);
    FirstAreTop(lexical, semantic, limit, ranked);
    r := Ok(if |ranked| < limit then ranked else ranked[..limit]);
  }

  lemma ShareIs(rank: nat)
    ensures Share(rank) == 1.0 / ((RRF_K + rank) as real)
  {
  }

  lemma NothingHeld(none: seq<Candidate>)
    requires |none| == 0
    ensures Holds([], none, map[], map[])
  {
  }

  /** The dictionary's values with their scores; the sort that follows makes their order here irrelevant. */
  method Scored(ghost lexical: seq<Candidate>, ghost semantic: seq<Candidate>,
                combined: map<string, Candidate>, scores: map<string, real>) returns (list: seq<Candidate>)
    requires Holds(lexical, semantic, combined, scores)
    ensures NoRepeats(list) && |list| == |Ids(lexical) + Ids(semantic)|
    ensures forall c :: c in list ==> c.id in Ids(lexical) + Ids(semantic) && c == Fused(lexical, semantic, c.id)
    ensures forall id :: id in Ids(lexical) + Ids(semantic) ==> Fused(lexical, semantic, id) in list
  {
    hide Ids, Total, Merged;
    assert combined.Keys == Ids(lexical) + Ids(semantic);
    var names := SortedNames(combined.Keys);
    list := [];
    for k := 0 to |names|
      invariant |list| == k
      invariant forall i :: 0 <= i < k ==> names[i] in combined && list[i] == Fused(lexical, semantic, names[i])
    {
      var id := names[k];
      assert id in Members(names);
      assert HoldsAt(lexical, semantic, combined, scores, id);
      list := list + [combined[id].(fusionScore := Some(scores[id]))];
    }
    forall i | 0 <= i < |list|
      ensures list[i].id == names[i]
    {
      FusedId(lexical, semantic, names[i]);
    }
    forall i, j | 0 <= i < j < |list|
      ensures list[i].id != list[j].id
    {
      StrLessIrreflexive(names[i]);
    }
    forall id | id in Ids(lexical) + Ids(semantic)
      ensures Fused(lexical, semantic, id) in list
    {
      assert id in Members(names);
      var i :| 0 <= i < |names| && names[i] == id;
      assert list[i] in list;
    }
  }
}
