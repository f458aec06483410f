/** Confusion counts, and the choice of a threshold. */
module RiskThresholds {
  import opened Wrappers
  import opened RiskMetrics

  const CANDIDATE_THRESHOLDS := [20, 30, 40, 50]

  const MINIMUM_VALIDATION_RECALL := 0.75

  datatype Confusion = Confusion(
    threshold: int, truePositive: nat, falsePositive: nat, trueNegative: nat, falseNegative: nat,
    precision: real, recall: real, f1: real)

  function Ratio(part: nat, whole: nat): real
  {
    if whole == 0 then 0.0 else part as real / whole as real
  }

  lemma RatioMeans(part: nat, whole: nat)
    ensures whole == 0 ==> Ratio(part, whole) == 0.0
    ensures whole > 0 ==> Ratio(part, whole) * whole as real == part as real
  {
  }

  /** The counts and the exact rates at a threshold. */
  ghost predicate IsConfusion(rows: seq<Row>, threshold: int, c: Confusion)
  {
    && c.threshold == threshold
    && c.truePositive == Above(rows, threshold, true) && c.falsePositive == Above(rows, threshold, false)
    && c.truePositive + c.falseNegative == |Labelled(rows, true)|
    && c.falsePositive + c.trueNegative == |Labelled(rows, false)|
    && c.precision == Ratio(c.truePositive, c.truePositive + c.falsePositive)
    && c.recall == Ratio(c.truePositive, c.truePositive + c.falseNegative)
    && c.f1 == Ratio(2 * c.truePositive, 2 * c.truePositive + c.falsePositive + c.falseNegative)
  }

  lemma {:induction false} OneRow(rows: seq<Row>, row: Row, threshold: int, positive: bool)
    ensures Above(rows + [row], threshold, positive)
         == Above(rows, threshold, positive) + if row.score >= threshold && row.positive == positive then 1 else 0
    ensures |Labelled(rows + [row], positive)| == |Labelled(rows, positive)| + if row.positive == positive then 1 else 0
  {
  }

  /** The harmonic mean of precision and recall, as one fraction. */
  lemma HarmonicMean(tp: nat, fp: nat, fn: nat)
    ensures var precision, recall := Ratio(tp, tp + fp), Ratio(tp, tp + fn);
            (if precision + recall == 0.0 then 0.0 else 2.0 * precision * recall / (precision + recall))
            == Ratio(2 * tp, 2 * tp + fp + fn)
  {
  }

  method Confuse(rows: seq<Row>, threshold: int) returns (c: Confusion)
    ensures IsConfusion(rows, threshold, c)
  {
    hide Above, Labelled, Ratio;
    var tp: nat, fp: nat, tn: nat, fn: nat := 0, 0, 0, 0;
    NoRows(threshold);
    for i := 0 to |rows|
      invariant tp == Above(rows[..i], threshold, true) && fp == Above(rows[..i], threshold, false)
      invariant tp + fn == |Labelled(rows[..i], true)| && fp + tn == |Labelled(rows[..i], false)|
    {
      var row := rows[i];
      assert rows[..i + 1] == rows[..i] + [row];
      OneRow(rows[..i], row, threshold, true);
      OneRow(rows[..i], row, threshold, false);
      var predicted := row.score >= threshold;
      if predicted && row.positive {
        tp := tp + 1;
      } else if predicted {
        fp := fp + 1;
      } else if row.positive {
        fn := fn + 1;
      } else {
        tn := tn + 1;
      }
    }
    assert rows[..|rows|] == rows;
    var precision, recall := Ratio(tp, tp + fp), Ratio(tp, tp + fn);
    HarmonicMean(tp, fp, fn);
    var f1 := if precision + recall != 0.0 then 2.0 * precision * recall / (precision + recall) else 0.0;
    c := Confusion(threshold, tp, fp, tn, fn, precision, recall, f1);
  }

  lemma NoRows(threshold: int)
    ensures forall positive :: Above([], threshold, positive) == 0 && Labelled([], positive) == []
  {
  }

  lemma {:induction false} AboveFalls(rows: seq<Row>, low: int, high: int, positive: bool)
    requires low <= high
    ensures Above(rows, high, positive) <= Above(rows, low, positive)
  {
    if rows != [] {
      AboveFalls(rows[..|rows| - 1], low, high, positive);
    }
  }

  /** Raising the threshold never raises recall, so the thresholds with enough recall are the lowest ones. */
  lemma RecallFalls(rows: seq<Row>, low: Confusion, high: Confusion)
    requires IsConfusion(rows, low.threshold, low) && IsConfusion(rows, high.threshold, high)
    requires low.threshold <= high.threshold
    ensures high.recall <= low.recall
  {
    AboveFalls(rows, low.threshold, high.threshold, true);
    RatioGrows(high.truePositive, low.truePositive, |Labelled(rows, true)|);
  }

  lemma RatioGrows(a: nat, b: nat, whole: nat)
    requires a <= b
    ensures Ratio(a, whole) <= Ratio(b, whole)
  {
  }

  // ---------------------------------------------------------------- the choice

  /** Entry `i` of the table is the confusion at candidate `i`. */
  ghost predicate IsTable(rows: seq<Row>, table: seq<Confusion>)
  {
    && |table| == 4
    && forall i :: 0 <= i < |table| ==> IsConfusion(rows, [20, 30, 40, 50][i], table[i])
  }

  method ThresholdTable(rows: seq<Row>) returns (table: seq<Confusion>)
    ensures IsTable(rows, table)
  {
    hide IsConfusion;
    table := [];
    for i := 0 to |CANDIDATE_THRESHOLDS|
      invariant |table| == i
      invariant forall j :: 0 <= j < i ==> IsConfusion(rows, CANDIDATE_THRESHOLDS[j], table[j])
    {
      var c := Confuse(rows, CANDIDATE_THRESHOLDS[i]);
      table := table + [c];
    }
  }

  /** Better precision first, then better f1, then the higher threshold; the source compares rounded rates. */
  predicate Worse(a: Confusion, b: Confusion, round: real -> real)
  {
    || round(a.precision) < round(b.precision)
    || (round(a.precision) == round(b.precision)
        && (round(a.f1) < round(b.f1) || (round(a.f1) == round(b.f1) && a.threshold < b.threshold)))
  }

  predicate Eligible(c: Confusion, round: real -> real)
  {
    round(c.recall) >= MINIMUM_VALIDATION_RECALL
  }

  /** The best eligible entry of a table; `round` stands for the rounding the table's rates went through. */
  method SelectFromValidation(table: seq<Confusion>, round: real -> real) returns (r: Result<Confusion>)
    ensures r.Ok? <==> exists c :: c in table && round(c.recall) >= 0.75
    ensures r.Ok? ==> r.value in table && round(r.value.recall) >= 0.75
    ensures r.Ok? ==> forall c :: c in table && round(c.recall) >= 0.75 ==> AtLeast(r.value, c, round)
  {
    hide Eligible, Worse, AtLeast;
    ChoiceMeans(round);
    r := ValueError;
    for i := 0 to |table|
      invariant r.Ok? <==> exists c :: c in table[..i] && Eligible(c, round)
      invariant r.Ok? ==> r.value in table[..i] && Eligible(r.value, round)
      invariant r.Ok? ==> forall c :: c in table[..i] && Eligible(c, round) ==> !Worse(r.value, c, round)
    {
      var c := table[i];
      assert table[..i + 1] == table[..i] + [c];
      assert c in table[..i + 1];
      NotWorseItself(c, round);
      if Eligible(c, round) && (r.ValueError? || Worse(r.value, c, round)) {
        if r.Ok? {
          forall x | x in table[..i] && Eligible(x, round)
            ensures !Worse(c, x, round)
          {
            NotWorseTransitive(x, r.value, c, round);
          }
        }
        r := Ok(c);
      }
    }
    assert table[..|table|] == table;
  }

  /** At least as precise, as good in f1 if equally precise, and as high a threshold if equal in both. */
  ghost predicate AtLeast(a: Confusion, b: Confusion, round: real -> real)
  {
    && round(a.precision) >= round(b.precision)
    && (round(a.precision) == round(b.precision) ==>
          round(a.f1) >= round(b.f1) && (round(a.f1) == round(b.f1) ==> a.threshold >= b.threshold))
  }

  lemma ChoiceMeans(round: real -> real)
    ensures forall c :: Eligible(c, round) <==> round(c.recall) >= 0.75
    ensures forall a, b :: !Worse(a, b, round) <==> AtLeast(a, b, round)
  {
  }

  lemma NotWorseItself(c: Confusion, round: real -> real)
    ensures !Worse(c, c, round)
  {
  }

  lemma NotWorseTransitive(a: Confusion, b: Confusion, c: Confusion, round: real -> real)
    requires !Worse(b, a, round) && Worse(b, c, round)
    ensures !Worse(c, a, round)
  {
  }

  ghost predicate Monotone(round: real -> real)
  {
    forall x, y :: x <= y ==> round(x) <= round(y)
  }

  /** Recall falls along the table, so a threshold can be chosen exactly when the lowest one reaches the floor. */
  lemma LowestDecides(rows: seq<Row>, table: seq<Confusion>, round: real -> real)
    requires IsTable(rows, table) && Monotone(round)
    ensures (exists c :: c in table && round(c.recall) >= 0.75) <==> round(table[0].recall) >= 0.75
  {
    hide IsConfusion;
    assert table[0] in table;
    if c :| c in table && round(c.recall) >= 0.75 {
      var i :| 0 <= i < |table| && table[i] == c;
      SameThreshold(rows, CANDIDATE_THRESHOLDS[0], table[0]);
      SameThreshold(rows, CANDIDATE_THRESHOLDS[i], c);
      RecallFalls(rows, table[0], c);
    }
  }

  lemma SameThreshold(rows: seq<Row>, threshold: int, c: Confusion)
    requires IsConfusion(rows, threshold, c)
    ensures c.threshold == threshold
  {
  }
}
