/** Ranking metrics over exact reals. */
module RankingQuality {
  import opened Order

  /** Judgments of one query: the grade of each judged item, from 0 to 3. */
  type Judgments = map<string, nat>

  /** The weight of rank r; in the program it is 1 / log2(r + 1). */
  type Discount = nat -> real

  ghost predicate Decreasing(w: Discount)
  {
    && (forall r: nat :: r >= 1 ==> w(r) > 0.0)
    && (forall r: nat, s: nat :: 1 <= r < s ==> w(r) > w(s))
  }

  function Grade(rel: Judgments, item: string): nat
  {
    if item in rel then rel[item] else 0
  }

  function PowerOfTwo(n: nat): nat
  {
    if n == 0 then 1 else 2 * PowerOfTwo(n - 1)
  }

  function Gain(grade: nat): real
  {
    PowerOfTwo(grade) as real - 1.0
  }

  function Gains(rel: Judgments, items: seq<string>): (g: seq<real>)
    ensures |g| == |items| && forall i :: 0 <= i < |g| ==> g[i] == Gain(Grade(rel, items[i]))
  {
    seq(|items|, i requires 0 <= i < |items| => Gain(Grade(rel, items[i])))
  }

  /** Gains weighted by rank, counted from 1. */
  function Discounted(g: seq<real>, w: Discount): real
  {
    if g == [] then 0.0 else Discounted(g[..|g|-1], w) + g[|g|-1] * w(|g|)
  }

  function Top(s: seq<string>, k: nat): seq<string>
  {
    if |s| <= k then s else s[..k]
  }

  function Dcg(rel: Judgments, ranking: seq<string>, k: nat, w: Discount): real
  {
    Discounted(Gains(rel, Top(ranking, k)), w)
  }

  /** The judged items by falling grade and then by id. */
  ghost predicate IsIdeal(rel: Judgments, ideal: seq<string>)
  {
    && (forall x :: x in ideal <==> x in rel)
    && (forall i, j :: 0 <= i < j < |ideal| ==>
          rel[ideal[i]] > rel[ideal[j]] || (rel[ideal[i]] == rel[ideal[j]] && StrLess(ideal[i], ideal[j])))
  }

  function Ndcg(rel: Judgments, ideal: seq<string>, ranking: seq<string>, k: nat, w: Discount): real
  {
    var best := Dcg(rel, ideal, k, w);
    if best == 0.0 then 0.0 else Dcg(rel, ranking, k, w) / best
  }

  // ----- Comparing two lists of gains

  function Sum(g: seq<real>): real
  {
    if g == [] then 0.0 else Sum(g[..|g|-1]) + g[|g|-1]
  }

  /** At every rank the items of `a` so far gain no more than those of `b`. */
  ghost predicate Dominated(a: seq<real>, b: seq<real>)
  {
    |a| == |b| && forall j :: 0 <= j <= |a| ==> Sum(a[..j]) <= Sum(b[..j])
  }

  lemma DominatedPrefix(a: seq<real>, b: seq<real>)
    requires Dominated(a, b) && a != []
    ensures Dominated(a[..|a|-1], b[..|b|-1])
  {
    var n := |a| - 1;
    forall j | 0 <= j <= n
      ensures Sum(a[..n][..j]) <= Sum(b[..n][..j])
    {
      assert a[..n][..j] == a[..j] && b[..n][..j] == b[..j];
    }
  }

  /** One step of summation by parts: a lead gained at an earlier rank is worth no less there. */
  lemma LeadStep(lead: real, s0: real, d: real, early: real, late: real)
    requires lead >= s0 * early && s0 >= 0.0 && early >= late
    ensures lead + d * late >= (s0 + d) * late
  {
  }

  lemma NonNegativeProduct(x: real, y: real)
    requires x >= 0.0 && y >= 0.0
    ensures x * y >= 0.0
  {
  }

  lemma PositiveProduct(x: real, y: real)
    requires x > 0.0 && y > 0.0
    ensures x * y > 0.0
  {
  }

  lemma {:induction false} LastGain(a: seq<real>, b: seq<real>, w: Discount)
    requires |a| == |b| && a != []
    ensures var n := |a|;
            && Discounted(b, w) - Discounted(a, w)
               == Discounted(b[..n-1], w) - Discounted(a[..n-1], w) + (b[n-1] - a[n-1]) * w(n)
            && Sum(b) - Sum(a) == Sum(b[..n-1]) - Sum(a[..n-1]) + (b[n-1] - a[n-1])
  {
    hide *;
    var n := |a|;
    LastTerm(a, w);
    LastTerm(b, w);
    LastSummand(a);
    LastSummand(b);
    Combine(Discounted(a, w), Discounted(b, w), Discounted(a[..n-1], w), Discounted(b[..n-1], w), a[n-1], b[n-1], w(n));
  }

  lemma Combine(da: real, db: real, da0: real, db0: real, x: real, y: real, z: real)
    requires da == da0 + x * z && db == db0 + y * z
    ensures db - da == db0 - da0 + (y - x) * z
  {
  }

  lemma {:induction false} LastSummand(g: seq<real>)
    requires g != []
    ensures Sum(g) == Sum(g[..|g|-1]) + g[|g|-1]
  {
  }

  lemma {:induction false} LastTerm(g: seq<real>, w: Discount)
    requires g != []
    ensures Discounted(g, w) == Discounted(g[..|g|-1], w) + g[|g|-1] * w(|g|)
  {
  }

  /** The lead of `b` over `a` is at least their lead in plain sums, weighted by the last rank. */
  lemma {:induction false} LeadAtLeast(a: seq<real>, b: seq<real>, w: Discount)
    requires Dominated(a, b) && Decreasing(w) && a != []
    ensures Discounted(b, w) - Discounted(a, w) >= (Sum(b) - Sum(a)) * w(|a|)
  {
    var n := |a|;
    var a0, b0 := a[..n-1], b[..n-1];
    LastGain(a, b, w);
    DominatedPrefix(a, b);
    assert Sum(a0[..n-1]) <= Sum(b0[..n-1]) && a0[..n-1] == a0 && b0[..n-1] == b0;
    if n > 1 {
      LeadAtLeast(a0, b0, w);
      LeadStep(Discounted(b0, w) - Discounted(a0, w), Sum(b0) - Sum(a0), b[n-1] - a[n-1], w(n - 1), w(n));
    }
  }

  /** A later weight is smaller, so dominance in sums is dominance in weighted sums. */
  lemma {:induction false} DominatedGainsLess(a: seq<real>, b: seq<real>, w: Discount)
    requires Dominated(a, b) && Decreasing(w)
    ensures Discounted(a, w) <= Discounted(b, w)
  {
    if a != [] {
      assert a[..|a|] == a && b[..|b|] == b;
      LeadAtLeast(a, b, w);
      NonNegativeProduct(Sum(b) - Sum(a), w(|a|));
    }
  }

  /** No lead in the weighted sums means none in the plain sums, here and one rank before. */
  lemma NoLead(lead0: real, s0: real, d: real, early: real, late: real)
    requires lead0 >= s0 * early && s0 >= 0.0 && s0 + d >= 0.0 && early > late > 0.0
    requires lead0 + d * late == 0.0
    ensures s0 == 0.0 && d == 0.0 && lead0 == 0.0
  {
  }

  lemma {:induction false} NoLeadBefore(a: seq<real>, b: seq<real>, w: Discount)
    requires Dominated(a, b) && Decreasing(w) && Discounted(a, w) == Discounted(b, w) && a != []
    ensures a[|a|-1] == b[|a|-1]
    ensures Discounted(a[..|a|-1], w) == Discounted(b[..|a|-1], w)
  {
    hide Discounted, Sum;
    var n := |a|;
    var a0, b0 := a[..n-1], b[..n-1];
    LastGain(a, b, w);
    DominatedPrefix(a, b);
    assert a[..n] == a && b[..n] == b && a0[..n-1] == a0 && b0[..n-1] == b0;
    assert Sum(a0) <= Sum(b0) && Sum(a) <= Sum(b);
    if n > 1 {
      LeadAtLeast(a0, b0, w);
    }
    NoLead(Discounted(b0, w) - Discounted(a0, w), Sum(b0) - Sum(a0), b[n-1] - a[n-1],
           if n > 1 then w(n - 1) else w(n) + 1.0, w(n));
  }

  /** Dominance is strict unless the gains agree at every rank. */
  lemma {:induction false} EqualOnlyIfSame(a: seq<real>, b: seq<real>, w: Discount)
    requires Dominated(a, b) && Decreasing(w) && Discounted(a, w) == Discounted(b, w)
    ensures a == b
  {
    if a != [] {
      var n := |a|;
      NoLeadBefore(a, b, w);
      DominatedPrefix(a, b);
      EqualOnlyIfSame(a[..n-1], b[..n-1], w);
      assert a == a[..n-1] + [a[n-1]] && b == b[..n-1] + [b[n-1]];
    }
  }

  // ----- The ideal order dominates every order without repeats

  function Padded(g: seq<real>, k: nat): (p: seq<real>)
    requires |g| <= k
    ensures |p| == k && forall i :: 0 <= i < k ==> p[i] == if i < |g| then g[i] else 0.0
  {
    g + seq(k - |g|, i => 0.0)
  }

  /** Ranks without an item add nothing. */
  lemma {:induction false} PaddingAddsNothing(g: seq<real>, k: nat, w: Discount)
    requires |g| <= k
    ensures Discounted(Padded(g, k), w) == Discounted(g, w)
    decreases k
  {
    if |g| == k {
      assert Padded(g, k) == g;
    } else {
      assert Padded(g, k)[..k-1] == Padded(g, k - 1);
      PaddingAddsNothing(g, k - 1, w);
    }
  }

  ghost predicate Distinct(s: seq<string>)
  {
    forall i, j :: 0 <= i < j < |s| ==> s[i] != s[j]
  }

  lemma {:induction false} DistinctSize(s: seq<string>)
    requires Distinct(s)
    ensures |Members(s)| == |s|
  {
    if s != [] {
      var n := |s| - 1;
      DistinctSize(s[..n]);
      assert Members(s) == Members(s[..n]) + {s[n]};
    }
  }

  /** Among more distinct items than `bound` has members, one lies outside. */
  lemma OneOutside(s: seq<string>, bound: set<string>) returns (p: nat)
    requires Distinct(s) && |s| > |bound|
    ensures p < |s| && s[p] !in bound
  {
    DistinctSize(s);
    if forall i :: 0 <= i < |s| ==> s[i] in bound {
      assert Members(s) <= bound;
      SubsetSize(Members(s), bound);
    }
    p :| p < |s| && s[p] !in bound;
  }

  function TotalGain(rel: Judgments, items: seq<string>): real
  {
    Sum(Gains(rel, items))
  }

  lemma TotalGainLast(rel: Judgments, items: seq<string>)
    requires items != []
    ensures TotalGain(rel, items) == TotalGain(rel, items[..|items|-1]) + Gain(Grade(rel, items[|items|-1]))
  {
    assert Gains(rel, items)[..|items|-1] == Gains(rel, items[..|items|-1]);
  }

  /** Taking out one item takes out its gain. */
  lemma {:induction false} TotalGainWithout(rel: Judgments, items: seq<string>, p: nat)
    requires p < |items|
    ensures TotalGain(rel, items) == TotalGain(rel, items[..p] + items[p+1..]) + Gain(Grade(rel, items[p]))
    decreases |items|
  {
    TotalGainLast(rel, items);
    var n := |items| - 1;
    if p < n {
      var rest := items[..p] + items[p+1..];
      TotalGainWithout(rel, items[..n], p);
      TotalGainLast(rel, rest);
      assert rest[..|rest|-1] == items[..n][..p] + items[..n][p+1..];
    } else {
      assert items[..p] + items[p+1..] == items[..n];
    }
  }

  lemma {:induction false} PowerPositive(n: nat)
    ensures PowerOfTwo(n) >= 1
    ensures n > 0 ==> PowerOfTwo(n) >= 2
  {
    if n > 0 {
      PowerPositive(n - 1);
    }
  }

  lemma {:induction false} PowerMonotone(m: nat, n: nat)
    requires m <= n
    ensures PowerOfTwo(m) <= PowerOfTwo(n)
    ensures m < n ==> PowerOfTwo(m) < PowerOfTwo(n)
  {
    PowerPositive(m);
    if m < n {
      PowerMonotone(m, n - 1);
      PowerPositive(n - 1);
    }
  }

  /** An item outside the first `j` of the ideal order gains no more than the item at that place. */
  lemma LaterGainsLess(rel: Judgments, ideal: seq<string>, j: nat, x: string)
    requires IsIdeal(rel, ideal) && j < |ideal| && x !in ideal[..j]
    ensures Gain(Grade(rel, x)) <= Gain(Grade(rel, ideal[j]))
  {
    assert ideal[j] in rel;
    if x in rel {
      forall m | 0 <= m < j
        ensures ideal[m] != x
      {
        assert ideal[..j][m] == ideal[m];
      }
      var i :| 0 <= i < |ideal| && ideal[i] == x;
      PowerMonotone(rel[x], rel[ideal[j]]);
    } else {
      PowerMonotone(0, rel[ideal[j]]);
    }
  }

  /** The ideal gains so far, with zeros after the last judged item. */
  function IdealSum(rel: Judgments, ideal: seq<string>, j: nat): real
  {
    TotalGain(rel, Top(ideal, j))
  }

  lemma IdealDistinct(rel: Judgments, ideal: seq<string>)
    requires IsIdeal(rel, ideal)
    ensures Distinct(ideal)
  {
    forall i, j | 0 <= i < j < |ideal|
      ensures ideal[i] != ideal[j]
    {
      StrLessIrreflexive(ideal[i]);
    }
  }

  /** Any `j` or fewer distinct items gain at most what the first `j` of the ideal order gain. */
  lemma {:induction false} IdealSumGreatest(rel: Judgments, ideal: seq<string>, items: seq<string>, j: nat)
    requires IsIdeal(rel, ideal) && Distinct(items) && |items| <= j
    ensures TotalGain(rel, items) <= IdealSum(rel, ideal, j)
    decreases j
  {
    hide *;
    if j == 0 {
      NoItemsNoGain(rel, ideal, items);
    } else if |items| < j {
      IdealSumGreatest(rel, ideal, items, j - 1);
      IdealSumGrows(rel, ideal, j - 1);
    } else {
      var p := OneBeyondFirst(rel, ideal, items, j);
      var rest := items[..p] + items[p+1..];
      IdealSumGreatest(rel, ideal, rest, j - 1);
      TotalGainWithout(rel, items, p);
      NextIdealGain(rel, ideal, j - 1, items[p]);
    }
  }

  lemma NoItemsNoGain(rel: Judgments, ideal: seq<string>, items: seq<string>)
    requires items == []
    ensures TotalGain(rel, items) == IdealSum(rel, ideal, 0) == 0.0
  {
  }

  /** Of `j` distinct items one is not among the first `j - 1` of the ideal order. */
  lemma OneBeyondFirst(rel: Judgments, ideal: seq<string>, items: seq<string>, j: nat) returns (p: nat)
    requires IsIdeal(rel, ideal) && Distinct(items) && |items| == j > 0
    ensures p < |items| && items[p] !in Top(ideal, j - 1)
    ensures Distinct(items[..p] + items[p+1..])
  {
    IdealDistinct(rel, ideal);
    DistinctSize(Top(ideal, j - 1));
    p := OneOutside(items, Members(Top(ideal, j - 1)));
  }

  /** Such an item gains at most what the ideal order gains next. */
  lemma NextIdealGain(rel: Judgments, ideal: seq<string>, j: nat, x: string)
    requires IsIdeal(rel, ideal) && x !in Top(ideal, j)
    ensures IdealSum(rel, ideal, j) + Gain(Grade(rel, x)) <= IdealSum(rel, ideal, j + 1)
  {
    hide IsIdeal, Gain, Grade, TotalGain, Top, PowerOfTwo;
    TopStep(ideal, j);
    if j < |ideal| {
      LaterGainsLess(rel, ideal, j, x);
      TotalGainLast(rel, Top(ideal, j + 1));
    } else {
      // Every judged item is already among the first, so this one was never judged.
      UnjudgedGainsNothing(rel, ideal, x);
    }
  }

  lemma TopStep(s: seq<string>, j: nat)
    ensures j < |s| ==> Top(s, j) == s[..j] && |Top(s, j + 1)| == j + 1
                        && Top(s, j + 1)[..j] == Top(s, j) && Top(s, j + 1)[j] == s[j]
    ensures j >= |s| ==> Top(s, j) == Top(s, j + 1) == s
  {
  }

  lemma UnjudgedGainsNothing(rel: Judgments, ideal: seq<string>, x: string)
    requires IsIdeal(rel, ideal) && x !in ideal
    ensures Gain(Grade(rel, x)) == 0.0
  {
  }

  lemma IdealSumGrows(rel: Judgments, ideal: seq<string>, j: nat)
    ensures IdealSum(rel, ideal, j) <= IdealSum(rel, ideal, j + 1)
  {
    if j < |ideal| {
      assert Top(ideal, j + 1)[..j] == Top(ideal, j);
      TotalGainLast(rel, Top(ideal, j + 1));
      PowerPositive(Grade(rel, ideal[j]));
    } else {
      assert Top(ideal, j + 1) == Top(ideal, j);
    }
  }

  function TopGains(rel: Judgments, items: seq<string>, k: nat): seq<real>
  {
    Padded(Gains(rel, Top(items, k)), k)
  }

  lemma {:induction false} PaddingKeepsSum(g: seq<real>, k: nat)
    requires |g| <= k
    ensures Sum(Padded(g, k)) == Sum(g)
    decreases k
  {
    if |g| == k {
      assert Padded(g, k) == g;
    } else {
      assert Padded(g, k)[..k-1] == Padded(g, k - 1);
      PaddingKeepsSum(g, k - 1);
    }
  }

  lemma TopGainsSum(rel: Judgments, items: seq<string>, k: nat, j: nat)
    requires j <= k
    ensures Sum(TopGains(rel, items, k)[..j]) == TotalGain(rel, Top(items, j))
  {
    assert TopGains(rel, items, k)[..j] == Padded(Gains(rel, Top(items, j)), j);
    PaddingKeepsSum(Gains(rel, Top(items, j)), j);
  }

  lemma IdealDominates(rel: Judgments, ideal: seq<string>, ranking: seq<string>, k: nat)
    requires IsIdeal(rel, ideal) && Distinct(Top(ranking, k))
    ensures Dominated(TopGains(rel, ranking, k), TopGains(rel, ideal, k))
  {
    forall j | 0 <= j <= k
      ensures Sum(TopGains(rel, ranking, k)[..j]) <= Sum(TopGains(rel, ideal, k)[..j])
    {
      TopGainsSum(rel, ranking, k, j);
      TopGainsSum(rel, ideal, k, j);
      assert forall i :: 0 <= i < |Top(ranking, j)| ==> Top(ranking, j)[i] == Top(ranking, k)[i];
      IdealSumGreatest(rel, ideal, Top(ranking, j), j);
    }
  }

  // ----- The results

  lemma {:induction false} DiscountedNonNegative(g: seq<real>, w: Discount)
    requires Decreasing(w) && forall i :: 0 <= i < |g| ==> g[i] >= 0.0
    ensures Discounted(g, w) >= 0.0
    ensures Discounted(g, w) == 0.0 <==> forall i :: 0 <= i < |g| ==> g[i] == 0.0
  {
    if g != [] {
      var n := |g| - 1;
      DiscountedNonNegative(g[..n], w);
      NonNegativeProduct(g[n], w(n + 1));
      if g[n] > 0.0 {
        PositiveProduct(g[n], w(n + 1));
      }
      assert forall i :: 0 <= i < n ==> g[..n][i] == g[i];
    }
  }

  lemma DcgNonNegative(rel: Judgments, ranking: seq<string>, k: nat, w: Discount)
    requires Decreasing(w)
    ensures Dcg(rel, ranking, k, w) >= 0.0
    ensures Dcg(rel, ranking, k, w) == 0.0 <==> forall x :: x in Top(ranking, k) ==> Grade(rel, x) == 0
  {
    var top := Top(ranking, k);
    forall i | 0 <= i < |top|
      ensures Gains(rel, top)[i] >= 0.0 && (Gains(rel, top)[i] == 0.0 <==> Grade(rel, top[i]) == 0)
    {
      PowerPositive(Grade(rel, top[i]));
    }
    DiscountedNonNegative(Gains(rel, top), w);
    if forall i :: 0 <= i < |top| ==> Gains(rel, top)[i] == 0.0 {
      assert forall x :: x in top ==> Grade(rel, x) == 0;
    } else {
      var i :| 0 <= i < |top| && Gains(rel, top)[i] != 0.0;
      assert top[i] in top;
    }
  }

  lemma DcgPadded(rel: Judgments, ranking: seq<string>, k: nat, w: Discount)
    ensures Dcg(rel, ranking, k, w) == Discounted(TopGains(rel, ranking, k), w)
  {
    PaddingAddsNothing(Gains(rel, Top(ranking, k)), k, w);
  }

  /** Without repeats above the cut-off no order has a larger discounted gain than the ideal one. */
  lemma IdealDcgGreatest(rel: Judgments, ideal: seq<string>, ranking: seq<string>, k: nat, w: Discount)
    requires Decreasing(w) && IsIdeal(rel, ideal) && Distinct(Top(ranking, k))
    ensures Dcg(rel, ranking, k, w) <= Dcg(rel, ideal, k, w)
    ensures Dcg(rel, ranking, k, w) == Dcg(rel, ideal, k, w) <==> TopGains(rel, ranking, k) == TopGains(rel, ideal, k)
  {
    DcgPadded(rel, ranking, k, w);
    DcgPadded(rel, ideal, k, w);
    IdealDominates(rel, ideal, ranking, k);
    DominatedGainsLess(TopGains(rel, ranking, k), TopGains(rel, ideal, k), w);
    if Dcg(rel, ranking, k, w) == Dcg(rel, ideal, k, w) {
      EqualOnlyIfSame(TopGains(rel, ranking, k), TopGains(rel, ideal, k), w);
    }
  }

  /** Some item is relevant exactly when the ideal order gains anything. */
  lemma IdealGainsIffRelevant(rel: Judgments, ideal: seq<string>, k: nat, w: Discount)
    requires Decreasing(w) && IsIdeal(rel, ideal) && k >= 1
    ensures Dcg(rel, ideal, k, w) > 0.0 <==> exists x :: x in rel && rel[x] > 0
  {
    DcgNonNegative(rel, ideal, k, w);
    if x :| x in rel && rel[x] > 0 {
      var i :| 0 <= i < |ideal| && ideal[i] == x;
      assert ideal[0] in rel && ideal[0] == Top(ideal, k)[0] && rel[ideal[0]] >= rel[x];
      assert Top(ideal, k)[0] in Top(ideal, k);
    }
    if Dcg(rel, ideal, k, w) > 0.0 {
      var x :| x in Top(ideal, k) && Grade(rel, x) != 0;
      assert x in rel && rel[x] > 0;
    }
  }

  /** The normalized gain lies in [0, 1]; it is 1 exactly when something is relevant and the grades
      agree at each rank. */
  lemma NdcgBounded(rel: Judgments, ideal: seq<string>, ranking: seq<string>, k: nat, w: Discount)
    requires Decreasing(w) && IsIdeal(rel, ideal) && Distinct(Top(ranking, k)) && k >= 1
    ensures 0.0 <= Ndcg(rel, ideal, ranking, k, w) <= 1.0
    ensures Ndcg(rel, ideal, ranking, k, w) == 1.0 <==>
            (exists x :: x in rel && rel[x] > 0) && TopGains(rel, ranking, k) == TopGains(rel, ideal, k)
  {
    DcgNonNegative(rel, ranking, k, w);
    DcgNonNegative(rel, ideal, k, w);
    IdealDcgGreatest(rel, ideal, ranking, k, w);
    IdealGainsIffRelevant(rel, ideal, k, w);
    var d, best := Dcg(rel, ranking, k, w), Dcg(rel, ideal, k, w);
    if best > 0.0 {
      QuotientBounded(d, best);
    }
  }

  lemma QuotientBounded(d: real, best: real)
    requires 0.0 <= d <= best && best > 0.0
    ensures 0.0 <= d / best <= 1.0
    ensures d / best == 1.0 <==> d == best
  {
  }

  /** The ideal order itself scores 1, unless nothing at all is relevant; then every order scores 0. */
  lemma IdealScoresOne(rel: Judgments, ideal: seq<string>, k: nat, w: Discount)
    requires Decreasing(w) && IsIdeal(rel, ideal) && k >= 1
    ensures Ndcg(rel, ideal, ideal, k, w) == if exists x :: x in rel && rel[x] > 0 then 1.0 else 0.0
  {
    IdealDistinct(rel, ideal);
    IdealGainsIffRelevant(rel, ideal, k, w);
    DcgNonNegative(rel, ideal, k, w);
    var best := Dcg(rel, ideal, k, w);
    if best > 0.0 {
      QuotientBounded(best, best);
    }
  }

  // ----- Repeats above the cut-off are exactly what breaks the bound

  /** Grades run from 0 to 3. */
  ghost predicate Graded(rel: Judgments)
  {
    forall x :: x in rel ==> rel[x] <= 3
  }

  /** The items before place `p` are distinct, and the item there is one of them. */
  ghost predicate FirstRepeat(s: seq<string>, p: nat)
  {
    p < |s| && Distinct(s[..p]) && s[p] in s[..p]
  }

  lemma {:induction false} FirstRepeatExists(s: seq<string>) returns (p: nat)
    requires !Distinct(s)
    ensures FirstRepeat(s, p)
  {
    var n := |s| - 1;
    if Distinct(s[..n]) {
      forall i, j | 0 <= i < j < n
        ensures s[i] != s[j]
      {
        assert s[..n][i] != s[..n][j];
      }
      var i, j :| 0 <= i < j < |s| && s[i] == s[j];
      assert s[..n][i] == s[n];
      p := n;
    } else {
      p := FirstRepeatExists(s[..n]);
      assert s[..n][..p] == s[..p];
    }
  }

  /** Judgments under which exactly the given items are relevant, all alike. */
  function AllAlike(items: seq<string>): (rel: Judgments)
    ensures forall x :: x in rel <==> x in items
    ensures forall x :: x in items ==> rel[x] == 1
  {
    map x | x in items :: 1
  }

  /** Under them the sorted ids are the ideal order, and it gains as much as the items themselves. */
  lemma AlikeIdeal(items: seq<string>) returns (ideal: seq<string>)
    requires Distinct(items)
    ensures IsIdeal(AllAlike(items), ideal) && Gains(AllAlike(items), ideal) == Gains(AllAlike(items), items)
  {
    var rel := AllAlike(items);
    ideal := SortedExists(Members(items));
    DistinctSize(items);
    assert forall x :: x in ideal <==> x in Members(ideal);
    assert forall i :: 0 <= i < |ideal| ==> ideal[i] in ideal && Grade(rel, ideal[i]) == 1;
    assert forall i :: 0 <= i < |items| ==> items[i] in items && Grade(rel, items[i]) == 1;
  }

  /** Further ranks take nothing away. */
  lemma {:induction false} PrefixGainsLess(g: seq<real>, j: nat, w: Discount)
    requires Decreasing(w) && j <= |g| && forall i :: 0 <= i < |g| ==> g[i] >= 0.0
    ensures Discounted(g[..j], w) <= Discounted(g, w)
  {
    if j == |g| {
      assert g[..j] == g;
    } else {
      var n := |g| - 1;
      assert g[..n][..j] == g[..j];
      PrefixGainsLess(g[..n], j, w);
      NonNegativeProduct(g[n], w(|g|));
    }
  }

  lemma QuotientAbove(d: real, best: real)
    requires d > best > 0.0
    ensures d / best > 1.0
  {
  }

  /** One more item of positive gain than the ideal order holds, after as many that gain the same. */
  lemma OneMoreGains(rel: Judgments, ideal: seq<string>, top: seq<string>, w: Discount)
    requires Decreasing(w) && |ideal| < |top| && Gains(rel, ideal) == Gains(rel, top)[..|ideal|]
    requires Grade(rel, top[|ideal|]) == 1
    ensures Discounted(Gains(rel, ideal), w) < Discounted(Gains(rel, top), w)
  {
    hide Discounted;
    var g, p := Gains(rel, top), |ideal|;
    assert g[..p+1][..p] == Gains(rel, ideal);
    assert g[p] == Gain(1) == 1.0;
    LastTerm(g[..p+1], w);
    forall i | 0 <= i < |g|
      ensures g[i] >= 0.0
    {
      PowerPositive(Grade(rel, top[i]));
    }
    PrefixGainsLess(g, p + 1, w);
  }

  lemma AlikePositive(items: seq<string>, ideal: seq<string>, k: nat, w: Discount)
    requires Decreasing(w) && IsIdeal(AllAlike(items), ideal) && items != [] && k >= 1
    ensures Dcg(AllAlike(items), ideal, k, w) > 0.0
  {
    var rel := AllAlike(items);
    assert items[0] in items && rel[items[0]] > 0;
    IdealGainsIffRelevant(rel, ideal, k, w);
  }

  /** The items before the repeat gain as much as the ideal order, and the repeat gains once more. */
  lemma AlikeBeforeRepeat(top: seq<string>, p: nat, ideal: seq<string>)
    requires FirstRepeat(top, p) && Gains(AllAlike(top[..p]), ideal) == Gains(AllAlike(top[..p]), top[..p])
    ensures var rel := AllAlike(top[..p]);
            && |ideal| == p > 0 && Gains(rel, ideal) == Gains(rel, top)[..p]
            && Graded(rel) && Grade(rel, top[p]) == 1
  {
    hide Gain, Distinct;
    var rel := AllAlike(top[..p]);
    assert |Gains(rel, ideal)| == p;
    assert forall i :: 0 <= i < p ==> Gains(rel, top[..p])[i] == Gains(rel, top)[i];
    assert top[p] in rel;
  }

  lemma NdcgAbove(rel: Judgments, ideal: seq<string>, ranking: seq<string>, k: nat, w: Discount)
    requires 0.0 < Dcg(rel, ideal, k, w) < Dcg(rel, ranking, k, w)
    ensures Ndcg(rel, ideal, ranking, k, w) > 1.0
  {
    hide Dcg;
    QuotientAbove(Dcg(rel, ranking, k, w), Dcg(rel, ideal, k, w));
  }

  lemma WholeTop(s: seq<string>, k: nat)
    requires |s| <= k
    ensures Top(s, k) == s
  {
  }

  lemma RepeatWithin(ranking: seq<string>, k: nat, p: nat)
    requires FirstRepeat(Top(ranking, k), p)
    ensures p < |Top(ranking, k)| <= k
  {
  }

  /** Where an item repeats above the cut-off, judging just the items before it relevant scores more than 1. */
  lemma RepeatExceeds(ranking: seq<string>, k: nat, p: nat, w: Discount) returns (rel: Judgments, ideal: seq<string>)
    requires Decreasing(w) && FirstRepeat(Top(ranking, k), p)
    ensures Graded(rel) && IsIdeal(rel, ideal) && Ndcg(rel, ideal, ranking, k, w) > 1.0
  {
    hide Discounted, Decreasing, IsIdeal, Graded, Top, Gains, AllAlike, Grade, Ndcg;
    var top := Top(ranking, k);
    RepeatWithin(ranking, k, p);
    rel := AllAlike(top[..p]);
    ideal := AlikeIdeal(top[..p]);
    AlikeBeforeRepeat(top, p, ideal);
    WholeTop(ideal, k);
    OneMoreGains(rel, ideal, top, w);
    AlikePositive(top[..p], ideal, k, w);
    NdcgAbove(rel, ideal, ranking, k, w);
  }

  ghost predicate NeverExceeds(ranking: seq<string>, k: nat, w: Discount)
  {
    forall rel, ideal :: Graded(rel) && IsIdeal(rel, ideal) ==> Ndcg(rel, ideal, ranking, k, w) <= 1.0
  }

  /** A ranking stays at or below 1 whatever the judgments, exactly when no item repeats above the cut-off. */
  lemma BoundedIffNoRepeats(ranking: seq<string>, k: nat, w: Discount)
    requires Decreasing(w) && k >= 1
    ensures NeverExceeds(ranking, k, w) <==> Distinct(Top(ranking, k))
  {
    hide *;
    if Distinct(Top(ranking, k)) {
      NoRepeatsNeverExceeds(ranking, k, w);
    } else {
      var p := FirstRepeatExists(Top(ranking, k));
      var rel, ideal := RepeatExceeds(ranking, k, p, w);
      ExceedsOnce(rel, ideal, ranking, k, w);
    }
  }

  lemma ExceedsOnce(rel: Judgments, ideal: seq<string>, ranking: seq<string>, k: nat, w: Discount)
    requires Graded(rel) && IsIdeal(rel, ideal) && Ndcg(rel, ideal, ranking, k, w) > 1.0
    ensures !NeverExceeds(ranking, k, w)
  {
  }

  lemma NoRepeatsNeverExceeds(ranking: seq<string>, k: nat, w: Discount)
    requires Decreasing(w) && k >= 1 && Distinct(Top(ranking, k))
    ensures NeverExceeds(ranking, k, w)
  {
    forall rel, ideal | Graded(rel) && IsIdeal(rel, ideal)
      ensures Ndcg(rel, ideal, ranking, k, w) <= 1.0
    {
      NdcgBounded(rel, ideal, ranking, k, w);
    }
  }

  /** The smallest case: repeating the one relevant item scores more than 1. */
  lemma RepeatsExceedOne(w: Discount)
    requires Decreasing(w)
    ensures var rel := map["a" := 1];
            IsIdeal(rel, ["a"]) && Ndcg(rel, ["a"], ["a", "a"], 2, w) > 1.0
  {
    var rel := map["a" := 1];
    assert Gains(rel, ["a"]) == [1.0] && Gains(rel, ["a", "a"]) == [1.0, 1.0];
    assert [1.0][..0] == [] && [1.0, 1.0][..1] == [1.0];
    assert Dcg(rel, ["a"], 2, w) == w(1);
    assert Dcg(rel, ["a", "a"], 2, w) == w(1) + w(2);
    QuotientAbove(w(1) + w(2), w(1));
  }

  // ----- The metrics as they are computed

  /** `sorted` by falling grade and then by id: the sorted ids of each grade in turn. */
  method IdealOrder(rel: Judgments) returns (ideal: seq<string>)
    requires forall x :: x in rel ==> rel[x] <= 3
    ensures IsIdeal(rel, ideal)
  {
    ideal := [];
    var grade := 4;
    while grade > 0
      invariant 0 <= grade <= 4
      invariant forall x :: x in ideal <==> x in rel && rel[x] >= grade
      invariant forall i, j :: 0 <= i < j < |ideal| ==>
        rel[ideal[i]] > rel[ideal[j]] || (rel[ideal[i]] == rel[ideal[j]] && StrLess(ideal[i], ideal[j]))
    {
      grade := grade - 1;
      var names := SortedNames(set x | x in rel && rel[x] == grade);
      ghost var before := ideal;
      assert forall i :: 0 <= i < |names| ==> names[i] in Members(names);
      assert forall i :: 0 <= i < |before| ==> before[i] in before;
      ideal := ideal + names;
      assert forall x :: x in ideal <==> x in before || x in Members(names);
    }
  }

  method NdcgAtK(rel: Judgments, ranking: seq<string>, k: nat, w: Discount) returns (r: real)
    requires (forall x :: x in rel ==> rel[x] <= 3) && k >= 1 && Decreasing(w)
    ensures exists ideal :: IsIdeal(rel, ideal) && r == Ndcg(rel, ideal, ranking, k, w)
    ensures Distinct(Top(ranking, k)) ==> 0.0 <= r <= 1.0
  {
    var ideal := IdealOrder(rel);
    r := Ndcg(rel, ideal, ranking, k, w);
    if Distinct(Top(ranking, k)) {
      NdcgBounded(rel, ideal, ranking, k, w);
    }
  }

  function Relevant(rel: Judgments): set<string>
  {
    set x | x in rel && rel[x] > 0
  }

  /** The share of the relevant items among the first k; without relevant items the program divides by zero. */
  function RecallAtK(rel: Judgments, ranking: seq<string>, k: nat): real
    requires Relevant(rel) != {}
  {
    |Relevant(rel) * Members(Top(ranking, k))| as real / |Relevant(rel)| as real
  }

  ghost predicate IsFirstRelevant(rel: Judgments, top: seq<string>, i: int)
  {
    && 0 <= i < |top| && top[i] in Relevant(rel)
    && forall j :: 0 <= j < i ==> top[j] !in Relevant(rel)
  }

  /** One over the first rank that holds a relevant item. */
  method ReciprocalRank(rel: Judgments, ranking: seq<string>, k: nat) returns (r: real)
    ensures r == 0.0 <==> forall x :: x in Top(ranking, k) ==> x !in Relevant(rel)
    ensures r != 0.0 ==> exists i :: IsFirstRelevant(rel, Top(ranking, k), i) && r == 1.0 / (i + 1) as real
  {
    var top := Top(ranking, k);
    for i := 0 to |top|
      invariant forall j :: 0 <= j < i ==> top[j] !in Relevant(rel)
    {
      if Grade(rel, top[i]) > 0 {
        assert IsFirstRelevant(rel, top, i) && top[i] in top && 1.0 / (i + 1) as real != 0.0;
        return 1.0 / (i + 1) as real;
      }
    }
    r := 0.0;
  }

  /** Recall lies in [0, 1], and is 1 exactly when every relevant item is among the first k. */
  lemma RecallBounded(rel: Judgments, ranking: seq<string>, k: nat)
    requires Relevant(rel) != {}
    ensures 0.0 <= RecallAtK(rel, ranking, k) <= 1.0
    ensures RecallAtK(rel, ranking, k) == 1.0 <==> Relevant(rel) <= Members(Top(ranking, k))
  {
    var found, all := Relevant(rel) * Members(Top(ranking, k)), Relevant(rel);
    SubsetSize(found, all);
    QuotientBounded(|found| as real, |all| as real);
    if |found| == |all| && found != all {
      ProperSubsetSmaller(found, all);
    }
    assert found == all <==> all <= Members(Top(ranking, k));
  }

  lemma ProperSubsetSmaller(a: set<string>, b: set<string>)
    requires a < b
    ensures |a| < |b|
  {
    var x :| x in b && x !in a;
    SubsetSize(a, b - {x});
  }

  /** Recall and discounted gain vanish together: exactly when nothing relevant is among the first k. */
  lemma MetricsVanishTogether(rel: Judgments, ranking: seq<string>, k: nat, w: Discount)
    requires Relevant(rel) != {} && Decreasing(w)
    ensures RecallAtK(rel, ranking, k) == 0.0 <==> Dcg(rel, ranking, k, w) == 0.0
  {
    hide Dcg, Relevant, Decreasing;
    DcgNonNegative(rel, ranking, k, w);
    NothingFound(rel, ranking, k);
    ZeroShare(|Relevant(rel) * Members(Top(ranking, k))|, |Relevant(rel)|);
  }

  lemma NothingFound(rel: Judgments, ranking: seq<string>, k: nat)
    ensures |Relevant(rel) * Members(Top(ranking, k))| == 0 <==> forall x :: x in Top(ranking, k) ==> Grade(rel, x) == 0
  {
    var found := Relevant(rel) * Members(Top(ranking, k));
    if found != {} {
      var x :| x in found;
      assert x in Top(ranking, k) && Grade(rel, x) > 0;
    } else {
      forall x | x in Top(ranking, k)
        ensures Grade(rel, x) == 0
      {
        assert x in Relevant(rel) ==> x in found;
      }
    }
  }

  lemma ZeroShare(part: nat, whole: nat)
    requires whole > 0
    ensures part as real / whole as real == 0.0 <==> part == 0
  {
  }

  // ----- One item at a time

  /** An item of grade g gains 2 to the g, less one. */
  lemma GainMeans()
    ensures Gain(0) == 0.0 && Gain(1) == 1.0 && Gain(2) == 3.0 && Gain(3) == 7.0
    ensures forall g: nat :: Gain(g + 1) == 2.0 * Gain(g) + 1.0
  {
    assert PowerOfTwo(1) == 2 * PowerOfTwo(0);
    assert PowerOfTwo(2) == 2 * PowerOfTwo(1);
    assert PowerOfTwo(3) == 2 * PowerOfTwo(2);
    forall g: nat
      ensures Gain(g + 1) == 2.0 * Gain(g) + 1.0
    {
      assert PowerOfTwo(g + 1) == 2 * PowerOfTwo(g);
    }
  }

  /** The gain of a ranking grows by the weighted gain of each item within the cut-off, counted from rank one. */
  lemma DcgStep(rel: Judgments, ranking: seq<string>, x: string, k: nat, w: Discount)
    ensures Dcg(rel, [], k, w) == 0.0
    ensures |ranking| >= k ==> Dcg(rel, ranking + [x], k, w) == Dcg(rel, ranking, k, w)
    ensures |ranking| < k ==>
              Dcg(rel, ranking + [x], k, w)
              == Dcg(rel, ranking, k, w) + (if x in rel then Gain(rel[x]) else 0.0) * w(|ranking| + 1)
  {
    hide *;
    GainMeans();
    NoGains(rel, k, w);
    if |ranking| < k {
      WholeTop(ranking, k);
      WholeTop(ranking + [x], k);
      OneMoreItem(rel, ranking, x, w);
      DcgIs(rel, ranking, k, w);
      DcgIs(rel, ranking + [x], k, w);
      GradeIs(rel, x);
    } else {
      SameTop(ranking, x, k);
      DcgIs(rel, ranking, k, w);
      DcgIs(rel, ranking + [x], k, w);
    }
  }

  lemma DcgIs(rel: Judgments, ranking: seq<string>, k: nat, w: Discount)
    ensures Dcg(rel, ranking, k, w) == Discounted(Gains(rel, Top(ranking, k)), w)
  {
  }

  lemma NoGains(rel: Judgments, k: nat, w: Discount)
    ensures Dcg(rel, [], k, w) == 0.0
  {
  }

  lemma SameTop(ranking: seq<string>, x: string, k: nat)
    requires |ranking| >= k
    ensures Top(ranking + [x], k) == Top(ranking, k)
  {
    assert (ranking + [x])[..k] == ranking[..k] == Top(ranking, k);
  }

  lemma GradeIs(rel: Judgments, x: string)
    ensures Grade(rel, x) == if x in rel then rel[x] else 0
  {
  }

  lemma OneMoreItem(rel: Judgments, items: seq<string>, x: string, w: Discount)
    ensures Discounted(Gains(rel, items + [x]), w)
         == Discounted(Gains(rel, items), w) + Gain(Grade(rel, x)) * w(|items| + 1)
  {
    hide Gain, Grade;
    assert Gains(rel, items + [x])[..|items|] == Gains(rel, items);
  }

  /** Recall grows by the same share with every relevant item found for the first time, and by nothing else. */
  lemma RecallStep(rel: Judgments, ranking: seq<string>, x: string, k: nat)
    requires Relevant(rel) != {} && |ranking| < k
    ensures RecallAtK(rel, [], k) == 0.0
    ensures RecallAtK(rel, ranking + [x], k) - RecallAtK(rel, ranking, k)
         == if x in rel && rel[x] > 0 && x !in ranking
            then 1.0 / |set y | y in rel && rel[y] > 0| as real else 0.0
  {
    hide *;
    var all := Relevant(rel);
    RelevantMeans(rel);
    RecallIs(rel, [], k);
    RecallIs(rel, ranking, k);
    RecallIs(rel, ranking + [x], k);
    WholeTop([], k);
    WholeTop(ranking, k);
    WholeTop(ranking + [x], k);
    FoundMore(all, ranking, x);
    Quotients(|all * Members(ranking)|, |all|);
    assert x in all <==> x in rel && rel[x] > 0;
  }

  lemma RelevantMeans(rel: Judgments)
    ensures Relevant(rel) == set y | y in rel && rel[y] > 0
  {
  }

  lemma RecallIs(rel: Judgments, ranking: seq<string>, k: nat)
    requires Relevant(rel) != {}
    ensures |Relevant(rel)| > 0
    ensures RecallAtK(rel, ranking, k)
         == |Relevant(rel) * Members(Top(ranking, k))| as real / |Relevant(rel)| as real
  {
  }

  lemma FoundMore(all: set<string>, ranking: seq<string>, x: string)
    ensures |all * Members([])| == 0
    ensures |all * Members(ranking + [x])|
         == |all * Members(ranking)| + if x in all && x !in ranking then 1 else 0
  {
    var found, more := all * Members(ranking), all * Members(ranking + [x]);
    assert all * Members([]) == {};
    assert more == if x in all then found + {x} else found;
    if !(x in all && x !in ranking) {
      assert more == found;
    }
  }

  lemma Quotients(part: nat, whole: nat)
    requires whole > 0
    ensures (part + 1) as real / whole as real - part as real / whole as real == 1.0 / whole as real
    ensures 0.0 / whole as real == 0.0
  {
  }
}
