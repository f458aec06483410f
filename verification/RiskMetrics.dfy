/**
 * Average precision and ROC AUC of scored rows, as they are before rounding.
 */
module RiskMetrics {
  datatype Row = Row(score: int, positive: bool)

  datatype Metrics = Undefined | Metrics(averagePrecision: real, rocAuc: real)

  /** How many rows of a label score at least `s`. */
  ghost function Above(rows: seq<Row>, s: int, positive: bool): nat
  {
    if rows == [] then 0
    else Above(rows[..|rows|-1], s, positive)
         + if rows[|rows|-1].score >= s && rows[|rows|-1].positive == positive then 1 else 0
  }

  function Labelled(rows: seq<Row>, positive: bool): (r: seq<Row>)
    ensures forall x :: x in r <==> x in rows && x.positive == positive
  {
    if rows == [] then [] else
    var last := rows[|rows|-1];
    assert forall x :: x in rows <==> x == last || x in rows[..|rows|-1];
    if last.positive == positive then Labelled(rows[..|rows|-1], positive) + [last]
    else Labelled(rows[..|rows|-1], positive)
  }

  /** Every positive row outscores every negative one. */
  ghost predicate Separated(rows: seq<Row>)
  {
    forall p, n :: p in rows && n in rows && p.positive && !n.positive ==> p.score > n.score
  }

  /** Every negative row outscores every positive one. */
  ghost predicate Inverted(rows: seq<Row>)
  {
    forall p, n :: p in rows && n in rows && p.positive && !n.positive ==> p.score < n.score
  }

  /** So far as the positives scoring at least `s` are concerned: no negative scores as much as one of them. */
  ghost predicate SeparatedAbove(rows: seq<Row>, s: int)
  {
    forall p, n :: p in rows && n in rows && p.positive && !n.positive && p.score >= s ==> p.score > n.score
  }

  lemma {:induction false} AboveZero(rows: seq<Row>, s: int, positive: bool)
    ensures Above(rows, s, positive) == 0 <==> forall r :: r in rows && r.positive == positive ==> r.score < s
    ensures Above(rows, s, positive) <= |Labelled(rows, positive)|
  {
    if rows != [] {
      AboveZero(rows[..|rows|-1], s, positive);
      assert forall x :: x in rows <==> x == rows[|rows|-1] || x in rows[..|rows|-1];
    }
  }

  lemma {:induction false} AboveAll(rows: seq<Row>, s: int, positive: bool)
    requires forall r :: r in rows ==> r.score >= s
    ensures Above(rows, s, positive) == |Labelled(rows, positive)|
  {
    if rows != [] {
      AboveAll(rows[..|rows|-1], s, positive);
      assert rows[|rows|-1] in rows;
    }
  }

  /** The labels of the rows with one score. */
  function Group(rows: seq<Row>, s: int): seq<bool>
  {
    if rows == [] then []
    else if rows[|rows|-1].score == s then Group(rows[..|rows|-1], s) + [rows[|rows|-1].positive]
    else Group(rows[..|rows|-1], s)
  }

  function CountTrue(labels: seq<bool>): (n: nat)
    ensures n <= |labels|
  {
    if labels == [] then 0 else CountTrue(labels[..|labels|-1]) + if labels[|labels|-1] then 1 else 0
  }

  /** A group holds exactly the rows between its score and the next higher one. */
  lemma {:induction false} GroupCounts(rows: seq<Row>, s: int, higher: int)
    requires s < higher && forall r :: r in rows ==> r.score <= s || r.score >= higher
    ensures Above(rows, s, true) == Above(rows, higher, true) + CountTrue(Group(rows, s))
    ensures Above(rows, s, false) == Above(rows, higher, false) + |Group(rows, s)| - CountTrue(Group(rows, s))
  {
    if rows != [] {
      var n := |rows| - 1;
      assert rows[n] in rows;
      GroupCounts(rows[..n], s, higher);
      if rows[n].score == s {
        assert Group(rows, s)[..|Group(rows, s)|-1] == Group(rows[..n], s);
      }
    }
  }

  // ----- Average precision, one group of equal scores at a time

  /** The terms so far against the recall so far: equal exactly when nothing negative stands among them. */
  ghost predicate Precise(rows: seq<Row>, s: int, total: nat, ap: real, recall: real)
    requires total > 0
  {
    && recall == Above(rows, s, true) as real / total as real
    && 0.0 <= ap <= recall
    && (ap == recall <==> SeparatedAbove(rows, s))
  }

  lemma {:induction false} PreciseStep(rows: seq<Row>, s: int, higher: int, total: nat, ap: real, recall: real)
    requires total > 0 && Precise(rows, higher, total, ap, recall)
    requires s < higher && (forall r :: r in rows ==> r.score <= s || r.score >= higher)
    requires exists r :: r in rows && r.score == s
    ensures var tp, fp := Above(rows, s, true), Above(rows, s, false);
            var recall' := tp as real / total as real;
            && tp + fp > 0
            && Precise(rows, s, total, ap + Product(recall' - recall, tp as real / (tp + fp) as real), recall')
  {
    hide Above, SeparatedAbove, Product;
    var tp, fp, tp0 := Above(rows, s, true), Above(rows, s, false), Above(rows, higher, true);
    GroupHasPositive(rows, s, higher);
    SomeAbove(rows, s);
    SeparatedStep(rows, s, higher);
    ShareDifference(tp, tp0, total);
    PrecisionBounded(tp, fp);
    AddTerm(ap, recall, tp as real / total as real, tp as real / (tp + fp) as real);
  }

  /** A product that the linear parts of the proof need not look into. */
  function Product(x: real, y: real): real
  {
    x * y
  }

  lemma AddTerm(ap: real, recall: real, recall': real, share: real)
    requires 0.0 <= ap <= recall <= recall' && 0.0 <= share <= 1.0
    ensures 0.0 <= ap + Product(recall' - recall, share) <= recall'
    ensures ap + Product(recall' - recall, share) == recall' <==> ap == recall && (recall' == recall || share == 1.0)
  {
    hide *;
    TermBounded(recall' - recall, share);
  }

  // ----- The same average, taken row by row

  /** The precision among the rows scoring at least `s`. */
  ghost function PrecisionAt(rows: seq<Row>, s: int): real
  {
    var tp, fp := Above(rows, s, true), Above(rows, s, false);
    if tp + fp == 0 then 0.0 else tp as real / (tp + fp) as real
  }

  /** The precisions at the scores of those positive rows of `over` that score at least `s`, added up. */
  ghost function PrecisionSum(rows: seq<Row>, over: seq<Row>, s: int): real
  {
    if over == [] then 0.0 else
    var last := over[|over|-1];
    PrecisionSum(rows, over[..|over|-1], s)
    + if last.positive && last.score >= s then PrecisionAt(rows, last.score) else 0.0
  }

  /** One group adds its precision once for each of its positives. */
  lemma {:induction false} GroupPrecision(rows: seq<Row>, over: seq<Row>, s: int, higher: int)
    requires s < higher && forall r :: r in over ==> r.score <= s || r.score >= higher
    ensures PrecisionSum(rows, over, s)
            == PrecisionSum(rows, over, higher) + Product(CountTrue(Group(over, s)) as real, PrecisionAt(rows, s))
  {
    hide PrecisionAt, Product;
    if over == [] {
      Times(0, PrecisionAt(rows, s));
    } else {
      var n := |over| - 1;
      assert over[n] in over;
      GroupPrecision(rows, over[..n], s, higher);
      if over[n].score == s {
        assert Group(over, s)[..|Group(over, s)|-1] == Group(over[..n], s);
        Times(CountTrue(Group(over[..n], s)), PrecisionAt(rows, s));
      }
    }
  }

  lemma Times(n: nat, x: real)
    ensures Product(0.0, x) == 0.0
    ensures Product((n + 1) as real, x) == Product(n as real, x) + x
  {
  }

  lemma {:induction false} NothingAbove(rows: seq<Row>, over: seq<Row>, s: int)
    requires forall r :: r in over ==> r.score < s
    ensures PrecisionSum(rows, over, s) == 0.0
  {
    if over != [] {
      assert over[|over|-1] in over;
      NothingAbove(rows, over[..|over|-1], s);
    }
  }

  lemma {:induction false} EverythingAbove(rows: seq<Row>, over: seq<Row>, s: int, t: int)
    requires forall r :: r in over ==> r.score >= s && r.score >= t
    ensures PrecisionSum(rows, over, s) == PrecisionSum(rows, over, t)
  {
    if over != [] {
      assert over[|over|-1] in over;
      EverythingAbove(rows, over[..|over|-1], s, t);
    }
  }

  /** The mean precision over the positive rows: the definition of average precision. */
  ghost function MeanPrecision(rows: seq<Row>): real
    requires |Labelled(rows, true)| > 0
  {
    PrecisionSum(rows, rows, LowestScore(rows)) / |Labelled(rows, true)| as real
  }

  ghost function LowestScore(rows: seq<Row>): (s: int)
    ensures forall r :: r in rows ==> r.score >= s
  {
    if rows == [] then 0 else
    var rest := LowestScore(rows[..|rows|-1]);
    assert forall x :: x in rows <==> x == rows[|rows|-1] || x in rows[..|rows|-1];
    if rows[|rows|-1].score < rest then rows[|rows|-1].score else rest
  }

  /** A step of the loop adds a group's share of the mean. */
  lemma {:induction false} MeanStep(rows: seq<Row>, s: int, higher: int, total: nat, ap: real)
    requires total > 0 && s < higher && (forall r :: r in rows ==> r.score <= s || r.score >= higher)
    requires Above(rows, s, true) + Above(rows, s, false) > 0
    requires ap == PrecisionSum(rows, rows, higher) / total as real
    ensures ap + Product(Above(rows, s, true) as real / total as real -
                         Above(rows, higher, true) as real / total as real,
                         PrecisionAt(rows, s))
            == PrecisionSum(rows, rows, s) / total as real
  {
    hide PrecisionAt, PrecisionSum, Above, Product;
    GroupPrecision(rows, rows, s, higher);
    GroupCounts(rows, s, higher);
    Scaled(PrecisionSum(rows, rows, higher), Above(rows, s, true) as real, Above(rows, higher, true) as real,
           PrecisionAt(rows, s), total as real);
  }

  lemma Scaled(sum: real, a: real, b: real, x: real, total: real)
    requires total > 0.0
    ensures sum / total + Product(a / total - b / total, x) == (sum + Product(a - b, x)) / total
  {
  }

  /** Some row reaches its own score. */
  lemma {:induction false} SomeAbove(rows: seq<Row>, s: int)
    requires exists r :: r in rows && r.score == s
    ensures Above(rows, s, true) + Above(rows, s, false) > 0
  {
    AboveZero(rows, s, true);
    AboveZero(rows, s, false);
  }

  lemma ShareDifference(a: nat, b: nat, total: nat)
    requires a >= b && total > 0
    ensures a as real / total as real - b as real / total as real == (a - b) as real / total as real
    ensures (a - b) as real / total as real >= 0.0
    ensures (a - b) as real / total as real == 0.0 <==> a == b
  {
  }

  lemma PrecisionBounded(tp: nat, fp: nat)
    requires tp + fp > 0
    ensures 0.0 <= tp as real / (tp + fp) as real <= 1.0
    ensures tp as real / (tp + fp) as real == 1.0 <==> fp == 0
  {
  }

  /** A share of a step is at most the step, and all of it only if the share is whole or the step is none. */
  lemma TermBounded(step: real, share: real)
    requires step >= 0.0 && 0.0 <= share <= 1.0
    ensures 0.0 <= Product(step, share) <= step
    ensures Product(step, share) == step <==> step == 0.0 || share == 1.0
  {
    NonNegativeProduct(step, share);
    NonNegativeProduct(step, 1.0 - share);
    assert step * (1.0 - share) == step - step * share;
  }

  lemma NonNegativeProduct(x: real, y: real)
    requires x >= 0.0 && y >= 0.0
    ensures x * y >= 0.0
    ensures x * y == 0.0 <==> x == 0.0 || y == 0.0
  {
  }

  /** One more group keeps the separation exactly if it adds no positives, or there is no negative up to here. */
  lemma {:induction false} SeparatedStep(rows: seq<Row>, s: int, higher: int)
    requires s < higher && forall r :: r in rows ==> r.score <= s || r.score >= higher
    ensures SeparatedAbove(rows, s) <==>
            && SeparatedAbove(rows, higher)
            && (Above(rows, s, true) == Above(rows, higher, true) || Above(rows, s, false) == 0)
  {
    AboveZero(rows, s, false);
    GroupHasPositive(rows, s, higher);
    if Above(rows, s, true) != Above(rows, higher, true) && SeparatedAbove(rows, s) {
      var p :| p in rows && p.positive && p.score == s;
    }
  }

  lemma {:induction false} GroupHasPositive(rows: seq<Row>, s: int, higher: int)
    requires s < higher && forall r :: r in rows ==> r.score <= s || r.score >= higher
    ensures Above(rows, s, true) >= Above(rows, higher, true)
    ensures Above(rows, s, true) == Above(rows, higher, true) <==> !exists p :: p in rows && p.positive && p.score == s
  {
    if rows != [] {
      var n := |rows| - 1;
      assert forall x :: x in rows <==> x == rows[n] || x in rows[..n];
      GroupHasPositive(rows[..n], s, higher);
    }
  }

  // ----- The loops

  method RankingMetrics(rows: seq<Row>) returns (m: Metrics)
    ensures m.Undefined? <==> (forall r :: r in rows ==> r.positive) || (forall r :: r in rows ==> !r.positive)
    ensures m.Metrics? ==> 0.0 <= m.averagePrecision <= 1.0 && 0.0 <= m.rocAuc <= 1.0
    ensures m.Metrics? ==> |Labelled(rows, true)| > 0 && m.averagePrecision == MeanPrecision(rows)
    ensures m.Metrics? ==> (m.averagePrecision == 1.0 <==> Separated(rows))
    ensures m.Metrics? ==> (m.rocAuc == 1.0 <==> Separated(rows))
    ensures m.Metrics? ==> (m.rocAuc == 0.0 <==> Inverted(rows))
    ensures m.Metrics? ==> |Labelled(rows, true)| * |Labelled(rows, false)| > 0 && m.rocAuc == Auc(rows)
  {
    var positives, negatives := Labelled(rows, true), Labelled(rows, false);
    assert forall r :: r in rows ==> r in positives || r in negatives;
    if positives == [] || negatives == [] {
      return Undefined;
    }
    assert positives[0] in rows && negatives[0] in rows;
    var averagePrecision := AveragePrecision(rows, |positives|);
    var auc := RocAuc(rows, positives, negatives);
    m := Metrics(averagePrecision, auc);
  }

  method AveragePrecision(rows: seq<Row>, total: nat) returns (ap: real)
    requires total == |Labelled(rows, true)| > 0
    ensures 0.0 <= ap <= 1.0
    ensures ap == 1.0 <==> Separated(rows)
    ensures ap == MeanPrecision(rows)
  {
    hide *;
    var truePositive: nat, falsePositive: nat := 0, 0;
    var recall := 0.0;
    ap := 0.0;
    var scores := FallingScores(rows);
    ghost var last := HighestPlusOne(rows);
    StartAveraged(rows, total, scores, last);
    for i := 0 to |scores|
      invariant Averaged(rows, total, scores, i, last, truePositive, falsePositive, ap, recall)
    {
      var score := scores[i];
      var group := Group(rows, score);
      AveragedStep(rows, total, scores, i, last, truePositive, falsePositive, ap, recall);
      truePositive := truePositive + CountTrue(group);
      falsePositive := falsePositive + (|group| - CountTrue(group));
      var recall' := truePositive as real / total as real;
      var precision := truePositive as real / (truePositive + falsePositive) as real;
      ap := ap + Product(recall' - recall, precision);
      recall := recall';
      last := score;
    }
    FinishAveraged(rows, total, scores, last, truePositive, falsePositive, ap, recall);
  }

  /** The state of the loop when the first `i` distinct scores are done and `last` is the latest of them. */
  ghost predicate Averaged(rows: seq<Row>, total: nat, scores: seq<int>, i: nat, last: int, tp: nat, fp: nat,
                           ap: real, recall: real)
    requires total > 0
  {
    && IsFalling(rows, scores) && i <= |scores|
    && (forall r :: r in rows ==> (r.score >= last <==> exists k :: 0 <= k < i && scores[k] == r.score))
    && tp == Above(rows, last, true) && fp == Above(rows, last, false)
    && Precise(rows, last, total, ap, recall)
    && ap == PrecisionSum(rows, rows, last) / total as real
  }

  lemma StartAveraged(rows: seq<Row>, total: nat, scores: seq<int>, last: int)
    requires total > 0 && IsFalling(rows, scores) && forall r :: r in rows ==> r.score < last
    ensures Averaged(rows, total, scores, 0, last, 0, 0, 0.0, 0.0)
  {
    StartPrecise(rows, last, total);
    NothingAbove(rows, rows, last);
  }

  lemma {:induction false} AveragedStep(
    rows: seq<Row>, total: nat, scores: seq<int>, i: nat, last: int, tp: nat, fp: nat, ap: real, recall: real)
    requires total > 0 && Averaged(rows, total, scores, i, last, tp, fp, ap, recall) && i < |scores|
    ensures var s := scores[i];
            var group := Group(rows, s);
            var tp' := tp + CountTrue(group);
            var fp' := fp + (|group| - CountTrue(group));
            var recall' := tp' as real / total as real;
            && tp' + fp' > 0
            && Averaged(rows, total, scores, i + 1, s, tp', fp',
                        ap + Product(recall' - recall, tp' as real / (tp' + fp') as real), recall')
  {
    hide Above, PrecisionSum, PrecisionAt, Product, IsFalling, SeparatedAbove;
    var s := scores[i];
    NextGroup(rows, scores, i, last);
    GroupCounts(rows, s, last);
    PreciseStep(rows, s, last, total, ap, recall);
    MeanStep(rows, s, last, total, ap);
    PrecisionIs(rows, s);
  }

  lemma {:induction false} FinishAveraged(
    rows: seq<Row>, total: nat, scores: seq<int>, last: int, tp: nat, fp: nat, ap: real, recall: real)
    requires total == |Labelled(rows, true)| > 0
    requires Averaged(rows, total, scores, |scores|, last, tp, fp, ap, recall)
    ensures 0.0 <= ap <= 1.0
    ensures ap == 1.0 <==> Separated(rows)
    ensures ap == MeanPrecision(rows)
  {
    hide Above, PrecisionSum, Precise, Separated, Labelled;
    forall r | r in rows
      ensures r.score >= last
    {
      assert r.score in scores;
      var k :| 0 <= k < |scores| && scores[k] == r.score;
    }
    FinishPrecise(rows, last, total, ap, recall);
    EverythingAbove(rows, rows, last, LowestScore(rows));
  }

  lemma {:induction false} FinishPrecise(rows: seq<Row>, s: int, total: nat, ap: real, recall: real)
    requires total == |Labelled(rows, true)| > 0 && (forall r :: r in rows ==> r.score >= s)
    requires Precise(rows, s, total, ap, recall)
    ensures 0.0 <= ap <= 1.0
    ensures ap == 1.0 <==> Separated(rows)
  {
    AboveAll(rows, s, true);
    WholeShare(total);
    assert SeparatedAbove(rows, s) <==> Separated(rows);
    hide SeparatedAbove, Separated, Above, Labelled;
  }

  lemma WholeShare(total: nat)
    requires total > 0
    ensures total as real / total as real == 1.0
  {
  }

  lemma {:induction false} PrecisionIs(rows: seq<Row>, s: int)
    requires Above(rows, s, true) + Above(rows, s, false) > 0
    ensures PrecisionAt(rows, s) == Above(rows, s, true) as real /
              (Above(rows, s, true) + Above(rows, s, false)) as real
  {
  }

  lemma {:induction false} StartPrecise(rows: seq<Row>, s: int, total: nat)
    requires total > 0 && forall r :: r in rows ==> r.score < s
    ensures Precise(rows, s, total, 0.0, 0.0) && Above(rows, s, true) == Above(rows, s, false) == 0
  {
    AboveZero(rows, s, true);
    AboveZero(rows, s, false);
  }

  ghost function HighestPlusOne(rows: seq<Row>): (s: int)
    ensures forall r :: r in rows ==> r.score < s
  {
    if rows == [] then 0 else
    var rest := HighestPlusOne(rows[..|rows|-1]);
    assert forall x :: x in rows <==> x == rows[|rows|-1] || x in rows[..|rows|-1];
    if rows[|rows|-1].score < rest then rest else rows[|rows|-1].score + 1
  }

  /** The distinct scores of the rows, falling. */
  ghost predicate IsFalling(rows: seq<Row>, scores: seq<int>)
  {
    && (forall i, j :: 0 <= i < j < |scores| ==> scores[i] > scores[j])
    && (forall r :: r in rows ==> r.score in scores)
    && (forall s :: s in scores ==> exists r :: r in rows && r.score == s)
  }

  /** Insertion of each row's score into the falling list, unless it is there. */
  method FallingScores(rows: seq<Row>) returns (scores: seq<int>)
    ensures IsFalling(rows, scores)
  {
    scores := [];
    for n := 0 to |rows|
      invariant IsFalling(rows[..n], scores)
    {
      var i := 0;
      while i < |scores| && scores[i] > rows[n].score
        invariant 0 <= i <= |scores|
        invariant forall k :: 0 <= k < i ==> scores[k] > rows[n].score
      {
        i := i + 1;
      }
      assert rows[..n+1] == rows[..n] + [rows[n]];
      if i == |scores| || scores[i] != rows[n].score {
        Inserted(rows[..n], rows[n], scores, i);
        scores := scores[..i] + [rows[n].score] + scores[i..];
      } else {
        AlreadyThere(rows[..n], rows[n], scores, i);
      }
    }
    assert rows[..|rows|] == rows;
  }

  lemma InsertedFalls(scores: seq<int>, x: int, i: nat)
    requires (forall j, k :: 0 <= j < k < |scores| ==> scores[j] > scores[k]) && i <= |scores|
    requires forall k :: 0 <= k < i ==> scores[k] > x
    requires i < |scores| ==> scores[i] < x
    ensures var longer := scores[..i] + [x] + scores[i..];
            forall j, k :: 0 <= j < k < |longer| ==> longer[j] > longer[k]
  {
  }

  lemma Inserted(rows: seq<Row>, row: Row, scores: seq<int>, i: nat)
    requires IsFalling(rows, scores) && i <= |scores|
    requires forall k :: 0 <= k < i ==> scores[k] > row.score
    requires i < |scores| ==> scores[i] < row.score
    ensures IsFalling(rows + [row], scores[..i] + [row.score] + scores[i..])
  {
    var longer := scores[..i] + [row.score] + scores[i..];
    assert longer[i] == row.score;
    InsertedFalls(scores, row.score, i);
    assert forall r :: r in rows + [row] <==> r in rows || r == row;
    forall s
      ensures s in longer <==> s in scores || s == row.score
    {
      if s in scores {
        var k :| 0 <= k < |scores| && scores[k] == s;
        assert longer[if k < i then k else k + 1] == s;
      }
    }
  }

  lemma AlreadyThere(rows: seq<Row>, row: Row, scores: seq<int>, i: nat)
    requires IsFalling(rows, scores) && i < |scores| && scores[i] == row.score
    ensures IsFalling(rows + [row], scores)
  {
  }

  /** Below the last score handled, the next one in the list is the highest left. */
  lemma NextGroup(rows: seq<Row>, scores: seq<int>, i: nat, last: int)
    requires IsFalling(rows, scores) && i < |scores|
    requires forall r :: r in rows ==> (r.score >= last <==> exists k :: 0 <= k < i && scores[k] == r.score)
    ensures scores[i] < last && (exists r :: r in rows && r.score == scores[i])
    ensures forall r :: r in rows ==> r.score <= scores[i] || r.score >= last
    ensures forall r :: r in rows ==> (r.score >= scores[i] <==> exists k :: 0 <= k <= i && scores[k] == r.score)
  {
    assert scores[i] in scores;
    var r :| r in rows && r.score == scores[i];
    forall r | r in rows
      ensures r.score <= scores[i] || r.score >= last
      ensures r.score >= scores[i] <==> exists k :: 0 <= k <= i && scores[k] == r.score
    {
      assert r.score in scores;
      var k :| 0 <= k < |scores| && scores[k] == r.score;
    }
  }

  /** Pair (k, l) comes before pair (i, j) in the order of the two loops. */
  ghost predicate Earlier(k: int, l: int, i: int, j: int)
  {
    k < i || (k == i && l < j)
  }

  ghost predicate Won(positives: seq<Row>, negatives: seq<Row>, i: int, j: int)
  {
    forall k, l :: 0 <= k < |positives| && 0 <= l < |negatives| && Earlier(k, l, i, j) ==>
      positives[k].score > negatives[l].score
  }

  ghost predicate Lost(positives: seq<Row>, negatives: seq<Row>, i: int, j: int)
  {
    forall k, l :: 0 <= k < |positives| && 0 <= l < |negatives| && Earlier(k, l, i, j) ==>
      positives[k].score < negatives[l].score
  }

  /** What one pair adds: a win, half for a tie, nothing for a loss. */
  ghost function Win(p: Row, n: Row): real
  {
    if p.score > n.score then 1.0 else if p.score == n.score then 0.5 else 0.0
  }

  /** The wins of all pairs before (i, j). */
  ghost function Wins(positives: seq<Row>, negatives: seq<Row>, i: nat, j: nat): real
    requires i <= |positives| && j <= |negatives| && (i == |positives| ==> j == 0)
    decreases i, j
  {
    if j > 0 then Wins(positives, negatives, i, j - 1) + Win(positives[i], negatives[j-1])
    else if i > 0 then Wins(positives, negatives, i - 1, |negatives|)
    else 0.0
  }

  /** The wins of the pairs before (i, j); the bounds are met exactly when every pair is a win, or every one a loss. */
  ghost predicate Tallied(positives: seq<Row>, negatives: seq<Row>, i: nat, j: nat, wins: real)
  {
    var pairs := Pairs(i, |negatives|) + j;
    && i <= |positives| && j <= |negatives| && (i == |positives| ==> j == 0)
    && wins == Wins(positives, negatives, i, j)
    && 0.0 <= wins <= pairs as real
    && (wins == pairs as real <==> Won(positives, negatives, i, j))
    && (wins == 0.0 <==> Lost(positives, negatives, i, j))
  }

  lemma NoneCompared(positives: seq<Row>, negatives: seq<Row>)
    requires positives != []
    ensures Tallied(positives, negatives, 0, 0, 0.0)
  {
  }

  lemma OneMoreCompared(positives: seq<Row>, negatives: seq<Row>, i: nat, j: nat, wins: real)
    requires i < |positives| && j < |negatives| && Tallied(positives, negatives, i, j, wins)
    ensures var p, n := positives[i].score, negatives[j].score;
            Tallied(positives, negatives, i, j + 1, if p > n then wins + 1.0 else if p == n then wins + 0.5 else wins)
  {
  }

  lemma RowCompared(positives: seq<Row>, negatives: seq<Row>, i: nat, wins: real)
    requires i < |positives| && Tallied(positives, negatives, i, |negatives|, wins)
    ensures Tallied(positives, negatives, i + 1, 0, wins)
  {
  }

  lemma {:induction false} AllCompared(rows: seq<Row>, positives: seq<Row>, negatives: seq<Row>, wins: real)
    requires positives == Labelled(rows, true) && negatives == Labelled(rows, false)
    requires positives != [] && negatives != []
    requires Tallied(positives, negatives, |positives|, 0, wins)
    ensures var pairs := |positives| * |negatives|;
            && pairs > 0 && 0.0 <= wins <= pairs as real && wins == Wins(positives, negatives, |positives|, 0)
            && (wins == pairs as real <==> Separated(rows))
            && (wins == 0.0 <==> Inverted(rows))
  {
    hide Wins, Labelled, Separated, Inverted, Pairs;
    PairsCount(|positives|, |negatives|);
    PairsAreRows(rows, positives, negatives);
    assert forall k, l :: 0 <= k < |positives| && 0 <= l < |negatives| ==> Earlier(k, l, |positives|, 0);
  }

  /** The share of the pairs of a positive and a negative row that the positive one wins. */
  ghost function Auc(rows: seq<Row>): real
    requires |Labelled(rows, true)| * |Labelled(rows, false)| > 0
  {
    var positives, negatives := Labelled(rows, true), Labelled(rows, false);
    Share(Wins(positives, negatives, |positives|, 0), |positives| * |negatives|)
  }

  method RocAuc(ghost rows: seq<Row>, positives: seq<Row>, negatives: seq<Row>) returns (auc: real)
    requires positives == Labelled(rows, true) && negatives == Labelled(rows, false)
    requires positives != [] && negatives != []
    ensures 0.0 <= auc <= 1.0
    ensures auc == 1.0 <==> Separated(rows)
    ensures auc == 0.0 <==> Inverted(rows)
    ensures |positives| * |negatives| > 0 && auc == Auc(rows)
  {
    hide *;
    var pairwise := 0.0;
    ghost var n := |negatives|;
    NoneCompared(positives, negatives);
    for i := 0 to |positives|
      invariant Tallied(positives, negatives, i, 0, pairwise)
    {
      for j := 0 to |negatives|
        invariant Tallied(positives, negatives, i, j, pairwise)
      {
        OneMoreCompared(positives, negatives, i, j, pairwise);
        if positives[i].score > negatives[j].score {
          pairwise := pairwise + 1.0;
        } else if positives[i].score == negatives[j].score {
          pairwise := pairwise + 0.5;
        }
      }
      RowCompared(positives, negatives, i, pairwise);
    }
    AllCompared(rows, positives, negatives, pairwise);
    auc := Share(pairwise, |positives| * |negatives|);
    AucIs(rows, positives, negatives);
  }

  lemma {:induction false} AucIs(rows: seq<Row>, positives: seq<Row>, negatives: seq<Row>)
    requires positives == Labelled(rows, true) && negatives == Labelled(rows, false)
    requires |positives| * |negatives| > 0
    ensures Auc(rows) == Share(Wins(positives, negatives, |positives|, 0), |positives| * |negatives|)
  {
  }

  /** The number of pairs in `rows` rows of `n`. */
  ghost function Pairs(rows: nat, n: nat): nat
  {
    if rows == 0 then 0 else Pairs(rows - 1, n) + n
  }

  lemma {:induction false} PairsCount(rows: nat, n: nat)
    ensures Pairs(rows, n) == rows * n
    ensures rows > 0 && n > 0 ==> rows * n > 0
  {
    if rows > 0 {
      PairsCount(rows - 1, n);
      assert rows * n == (rows - 1) * n + n;
    }
  }

  function Share(wins: real, pairs: nat): (q: real)
    requires pairs > 0
    ensures 0.0 <= wins <= pairs as real ==> 0.0 <= q <= 1.0
    ensures q == 1.0 <==> wins == pairs as real
    ensures q == 0.0 <==> wins == 0.0
  {
    wins / pairs as real
  }

  lemma {:induction false} PairsAreRows(rows: seq<Row>, positives: seq<Row>, negatives: seq<Row>)
    requires positives == Labelled(rows, true) && negatives == Labelled(rows, false)
    ensures Separated(rows) <==>
            forall k, l :: 0 <= k < |positives| && 0 <= l < |negatives| ==> positives[k].score > negatives[l].score
    ensures Inverted(rows) <==>
            forall k, l :: 0 <= k < |positives| && 0 <= l < |negatives| ==> positives[k].score < negatives[l].score
  {
  }

  // ----- Turning the scores around

  /** The same rows with every score negated. */
  ghost predicate Negated(rows: seq<Row>, others: seq<Row>)
  {
    && |others| == |rows|
    && forall k :: 0 <= k < |rows| ==> others[k].score == -rows[k].score && others[k].positive == rows[k].positive
  }

  /** No row of a label is lost or repeated. */
  lemma {:induction false} LabelledAll(rows: seq<Row>)
    ensures multiset(Labelled(rows, true)) + multiset(Labelled(rows, false)) == multiset(rows)
  {
    if rows != [] {
      LabelledAll(rows[..|rows|-1]);
      assert rows == rows[..|rows|-1] + [rows[|rows|-1]];
    }
  }

  lemma {:induction false} LabelledNegated(rows: seq<Row>, others: seq<Row>, positive: bool)
    requires Negated(rows, others)
    ensures Negated(Labelled(rows, positive), Labelled(others, positive))
  {
    if rows != [] {
      var n := |rows| - 1;
      LabelledNegated(rows[..n], others[..n], positive);
      NegatedMore(Labelled(rows[..n], positive), Labelled(others[..n], positive), rows[n], others[n]);
    }
  }

  lemma NegatedMore(rows: seq<Row>, others: seq<Row>, row: Row, other: Row)
    requires Negated(rows, others) && other.score == -row.score && other.positive == row.positive
    ensures Negated(rows + [row], others + [other])
  {
  }

  lemma {:induction false} WinsNegated(
    positives: seq<Row>, negatives: seq<Row>, others: seq<Row>, otherNegatives: seq<Row>, i: nat, j: nat)
    requires i <= |positives| && j <= |negatives| && (i == |positives| ==> j == 0)
    requires Negated(positives, others) && Negated(negatives, otherNegatives)
    ensures Wins(positives, negatives, i, j) + Wins(others, otherNegatives, i, j) == (Pairs(i, |negatives|) + j) as real
    decreases i, j
  {
    if j > 0 {
      WinsNegated(positives, negatives, others, otherNegatives, i, j - 1);
    } else if i > 0 {
      WinsNegated(positives, negatives, others, otherNegatives, i - 1, |negatives|);
    }
  }

  /** The AUC of the negated scores is what is missing to one, so a tie counts exactly half. */
  lemma {:induction false} AucNegated(rows: seq<Row>, others: seq<Row>)
    requires Negated(rows, others)
    requires |Labelled(rows, true)| * |Labelled(rows, false)| > 0
    ensures |Labelled(others, true)| * |Labelled(others, false)| > 0
    ensures Auc(rows) + Auc(others) == 1.0
  {
    LabelledNegated(rows, others, true);
    LabelledNegated(rows, others, false);
    var p, n := Labelled(rows, true), Labelled(rows, false);
    PairsCount(|p|, |n|);
    WinsNegated(p, n, Labelled(others, true), Labelled(others, false), |p|, 0);
    SharesAdd(Wins(p, n, |p|, 0), Wins(Labelled(others, true), Labelled(others, false), |p|, 0), |p| * |n|);
  }

  lemma SharesAdd(x: real, y: real, pairs: nat)
    requires pairs > 0 && x + y == pairs as real
    ensures Share(x, pairs) + Share(y, pairs) == 1.0
  {
    hide Share;
    ShareIs(x, pairs);
    ShareIs(y, pairs);
    assert x / pairs as real + y / pairs as real == (x + y) / pairs as real;
  }

  lemma ShareIs(x: real, pairs: nat)
    requires pairs > 0
    ensures Share(x, pairs) == x / pairs as real
  {
  }
}
