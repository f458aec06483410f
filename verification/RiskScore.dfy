/** The rule-based risk score. */
module RiskScore {
  import opened Wrappers

  const FEATURE_SCHEMA_VERSION := "change-features-v1"

  const SELECTED_THRESHOLD := 30

  /** The features the score looks at. */
  datatype Name =
    | DependencyFilesChanged
    | FilesChanged
    | LinesAdded
    | LinesDeleted
    | MigrationFilesChanged
    | SensitiveFilesChanged
    | TestFilesChanged
    | BlastTransitiveModules
    | PriorFailureProxyCount

  /** A feature value: an integer, nothing, or something the score refuses. */
  datatype Feature = Whole(n: int) | Null | Other

  const REQUIRED := {DependencyFilesChanged, FilesChanged, LinesAdded, LinesDeleted, MigrationFilesChanged,
                     SensitiveFilesChanged, TestFilesChanged}

  datatype Rule =
    | LargeChange
    | ManyFiles
    | Migration
    | Dependency
    | Sensitive
    | NoTests
    | LargeDeletion
    | WideBlast
    | PriorFailureProxies

  const RULES := [LargeChange, ManyFiles, Migration, Dependency, Sensitive, NoTests, LargeDeletion, WideBlast,
                  PriorFailureProxies]

  datatype Band = Low | Medium | High

  datatype Score = Unscored(missing: set<Name>) | Scored(score: int, band: Band, prediction: bool, rules: seq<Rule>)

  /** A feature as the source looks it up: absent ones are nothing. */
  function Value(values: map<Name, Feature>, name: Name): Feature
  {
    if name in values then values[name] else Null
  }

  function Number(values: map<Name, Feature>, name: Name): int
  {
    if Value(values, name).Whole? then Value(values, name).n else 0
  }

  /** The declared points of a rule. */
  function Points(rule: Rule): nat
  {
    match rule
    case LargeChange => 20
    case ManyFiles => 15
    case Migration => 25
    case Dependency => 15
    case Sensitive => 25
    case NoTests => 10
    case LargeDeletion => 10
    case WideBlast => 15
    case PriorFailureProxies => 15
  }

  /** The declared condition of a rule. */
  ghost predicate Fires(rule: Rule, values: map<Name, Feature>)
  {
    match rule
    case LargeChange => Number(values, LinesAdded) + Number(values, LinesDeleted) >= 100
    case ManyFiles => Number(values, FilesChanged) >= 4
    case Migration => Number(values, MigrationFilesChanged) >= 1
    case Dependency => Number(values, DependencyFilesChanged) >= 1
    case Sensitive => Number(values, SensitiveFilesChanged) >= 1
    case NoTests => Number(values, TestFilesChanged) == 0
    case LargeDeletion => Number(values, LinesDeleted) >= 50
    case WideBlast => Number(values, BlastTransitiveModules) >= 5
    case PriorFailureProxies => Number(values, PriorFailureProxyCount) >= 2
  }

  ghost function Fired(rules: seq<Rule>, values: map<Name, Feature>): seq<Rule>
  {
    if rules == [] then [] else
    var before := Fired(rules[..|rules| - 1], values);
    if Fires(rules[|rules| - 1], values) then before + [rules[|rules| - 1]] else before
  }

  function Sum(rules: seq<Rule>): nat
  {
    if rules == [] then 0 else Sum(rules[..|rules| - 1]) + Points(rules[|rules| - 1])
  }

  function BandOf(score: int): Band
  {
    if score < 20 then Low else if score < 40 then Medium else High
  }

  function Capped(points: int): int
  {
    if points < 100 then points else 100
  }

  /** The score the declared rules call for. */
  ghost function Expected(values: map<Name, Feature>): Score
  {
    var fired := Fired(RULES, values);
    var score := Capped(Sum(fired));
    Scored(score, BandOf(score), score >= SELECTED_THRESHOLD, fired)
  }

  predicate Readable(values: map<Name, Feature>, name: Name)
  {
    Value(values, name) != Other
  }

  function Missing(values: map<Name, Feature>): set<Name>
  {
    set name | name in REQUIRED && Value(values, name) == Null
  }

  /** One conditional step of the scoring: rule `k` is added when its condition holds. */
  method Add(rules: seq<Rule>, k: nat, values: map<Name, Feature>, holds: bool) returns (more: seq<Rule>)
    requires k < |RULES| && rules == Fired(RULES[..k], values) && (holds <==> Fires(RULES[k], values))
    ensures more == Fired(RULES[..k + 1], values)
  {
    hide Fires;
    assert RULES[..k + 1][..k] == RULES[..k];
    more := if holds then rules + [RULES[k]] else rules;
  }

  lemma DeclaredConditions(values: map<Name, Feature>)
    ensures |RULES| == 9
    ensures Fires(RULES[0], values) <==> Number(values, LinesAdded) + Number(values, LinesDeleted) >= 100
    ensures Fires(RULES[1], values) <==> Number(values, FilesChanged) >= 4
    ensures Fires(RULES[2], values) <==> Number(values, MigrationFilesChanged) >= 1
    ensures Fires(RULES[3], values) <==> Number(values, DependencyFilesChanged) >= 1
    ensures Fires(RULES[4], values) <==> Number(values, SensitiveFilesChanged) >= 1
    ensures Fires(RULES[5], values) <==> Number(values, TestFilesChanged) == 0
    ensures Fires(RULES[6], values) <==> Number(values, LinesDeleted) >= 50
    ensures Fires(RULES[7], values) <==> Number(values, BlastTransitiveModules) >= 5
    ensures Fires(RULES[8], values) <==> Number(values, PriorFailureProxyCount) >= 2
  {
  }

  method Gather(values: map<Name, Feature>) returns (rules: seq<Rule>)
    ensures rules == Fired(RULES, values)
  {
    hide *;
    DeclaredConditions(values);
    rules := [];
    var linesAdded, linesDeleted := Number(values, LinesAdded), Number(values, LinesDeleted);
    NothingFired(values);
    rules := Add(rules, 0, values, linesAdded + linesDeleted >= 100);
    rules := Add(rules, 1, values, Number(values, FilesChanged) >= 4);
    rules := Add(rules, 2, values, Number(values, MigrationFilesChanged) >= 1);
    rules := Add(rules, 3, values, Number(values, DependencyFilesChanged) >= 1);
    rules := Add(rules, 4, values, Number(values, SensitiveFilesChanged) >= 1);
    rules := Add(rules, 5, values, Number(values, TestFilesChanged) == 0);
    rules := Add(rules, 6, values, linesDeleted >= 50);
    rules := Add(rules, 7, values, Number(values, BlastTransitiveModules) >= 5);
    rules := Add(rules, 8, values, Number(values, PriorFailureProxyCount) >= 2);
    AllFired(values);
  }

  /**
   * The rules as the source's conditions apply them, one after the other. The two optional features are checked before
   * the first rule here, which changes nothing: either error discards the rules gathered so far.
   */
  method ScoreFeatures(schemaVersion: string, values: map<Name, Feature>) returns (r: Result<Score>)
    ensures r.ValueError? <==>
      || schemaVersion != "change-features-v1"
      || (exists name :: name in REQUIRED && !Readable(values, name))
      || (Missing(values) == {} && !(Readable(values, BlastTransitiveModules)
                                    && Readable(values, PriorFailureProxyCount)))
    ensures r.Ok? ==> r.value == if Missing(values) != {} then Unscored(Missing(values)) else Expected(values)
  {
    hide Fired, Value, Readable, Sum, Number;
    if schemaVersion != FEATURE_SCHEMA_VERSION {
      return ValueError;
    }
    if exists name :: name in REQUIRED && !Readable(values, name) {
      return ValueError;
    }
    if Missing(values) != {} {
      return Ok(Unscored(Missing(values)));
    }
    if !Readable(values, BlastTransitiveModules) || !Readable(values, PriorFailureProxyCount) {
      return ValueError;
    }
    var rules := Gather(values);
    var score := Capped(Sum(rules));
    r := Ok(Scored(score, BandOf(score), score >= SELECTED_THRESHOLD, rules));
  }

  lemma {:induction false} NothingFired(values: map<Name, Feature>)
    ensures Fired(RULES[..0], values) == []
  {
  }

  lemma {:induction false} AllFired(values: map<Name, Feature>)
    ensures Fired(RULES[..9], values) == Fired(RULES, values)
  {
    assert RULES[..9] == RULES;
  }

  // ---------------------------------------------------------------- monotonicity

  /** `more` shows at least as much risk as `less` in every feature. */
  ghost predicate Riskier(less: map<Name, Feature>, more: map<Name, Feature>)
  {
    && (forall name :: name != TestFilesChanged ==> Number(less, name) <= Number(more, name))
    && (Number(less, TestFilesChanged) == 0 ==> Number(more, TestFilesChanged) == 0)
  }

  lemma {:induction false} FiredGrows(rules: seq<Rule>, less: map<Name, Feature>, more: map<Name, Feature>)
    requires Riskier(less, more)
    ensures Sum(Fired(rules, less)) <= Sum(Fired(rules, more))
  {
    if rules != [] {
      var k := |rules| - 1;
      FiredGrows(rules[..k], less, more);
      SumAppend(Fired(rules[..k], less), rules[k]);
      SumAppend(Fired(rules[..k], more), rules[k]);
      StillFires(rules[k], less, more);
    }
  }

  lemma {:induction false} SumAppend(rules: seq<Rule>, rule: Rule)
    ensures Sum(rules + [rule]) == Sum(rules) + Points(rule)
  {
  }

  lemma StillFires(rule: Rule, less: map<Name, Feature>, more: map<Name, Feature>)
    requires Riskier(less, more)
    ensures Fires(rule, less) ==> Fires(rule, more)
  {
  }

  ghost function Rank(band: Band): int
  {
    match band case Low => 0 case Medium => 1 case High => 2
  }

  /** What a feature counts for: its number, or nothing. */
  ghost function Amount(values: map<Name, Feature>, name: Name): int
  {
    if name in values && values[name].Whole? then values[name].n else 0
  }

  ghost function If(b: bool, n: nat): nat
  {
    if b then n else 0
  }

  lemma {:induction false} FiredSum(values: map<Name, Feature>, k: nat)
    requires k < 9
    ensures Sum(Fired(RULES[..k + 1], values))
         == Sum(Fired(RULES[..k], values)) + If(Fires(RULES[k], values), Points(RULES[k]))
  {
    hide Fires, Points;
    assert RULES[..k + 1][..k] == RULES[..k];
    SumAppend(Fired(RULES[..k], values), RULES[k]);
  }

  /** The score in plain numbers: the points of every rule that applies, at most a hundred. */
  lemma ScoreMeans(values: map<Name, Feature>)
    ensures var sum := If(Amount(values, LinesAdded) + Amount(values, LinesDeleted) >= 100, 20)
                       + If(Amount(values, FilesChanged) >= 4, 15)
                       + If(Amount(values, MigrationFilesChanged) >= 1, 25)
                       + If(Amount(values, DependencyFilesChanged) >= 1, 15)
                       + If(Amount(values, SensitiveFilesChanged) >= 1, 25)
                       + If(Amount(values, TestFilesChanged) == 0, 10)
                       + If(Amount(values, LinesDeleted) >= 50, 10)
                       + If(Amount(values, BlastTransitiveModules) >= 5, 15)
                       + If(Amount(values, PriorFailureProxyCount) >= 2, 15);
            var e := Expected(values);
            && e.score == (if sum > 100 then 100 else sum)
            && (e.band == Low <==> e.score < 20) && (e.band == High <==> e.score >= 40)
            && (e.prediction <==> e.score >= 30)
  {
    hide *;
    DeclaredConditions(values);
    DeclaredPoints();
    Amounts(values);
    AddedUp(values);
    ExpectedIs(values);
  }

  lemma {:induction false} ExpectedIs(values: map<Name, Feature>)
    ensures var e, sum := Expected(values), Sum(Fired(RULES, values));
            && e.score == (if sum > 100 then 100 else sum)
            && (e.band == Low <==> e.score < 20) && (e.band == High <==> e.score >= 40)
            && (e.prediction <==> e.score >= 30)
  {
    hide Fired, Sum;
  }

  lemma Amounts(values: map<Name, Feature>)
    ensures forall name: Name :: Number(values, name) == Amount(values, name)
  {
  }

  lemma DeclaredPoints()
    ensures Points(RULES[0]) == 20 && Points(RULES[1]) == 15 && Points(RULES[2]) == 25 && Points(RULES[3]) == 15
    ensures Points(RULES[4]) == 25 && Points(RULES[5]) == 10 && Points(RULES[6]) == 10 && Points(RULES[7]) == 15
    ensures Points(RULES[8]) == 15
  {
  }

  lemma {:induction false} AddedUp(values: map<Name, Feature>)
    ensures Sum(Fired(RULES, values))
         == If(Fires(RULES[0], values), Points(RULES[0])) + If(Fires(RULES[1], values), Points(RULES[1]))
            + If(Fires(RULES[2], values), Points(RULES[2])) + If(Fires(RULES[3], values), Points(RULES[3]))
            + If(Fires(RULES[4], values), Points(RULES[4])) + If(Fires(RULES[5], values), Points(RULES[5]))
            + If(Fires(RULES[6], values), Points(RULES[6])) + If(Fires(RULES[7], values), Points(RULES[7]))
            + If(Fires(RULES[8], values), Points(RULES[8]))
  {
    hide *;
    NothingFired(values);
    AllFired(values);
    NoPoints();
    FiredSum(values, 0);
    FiredSum(values, 1);
    FiredSum(values, 2);
    FiredSum(values, 3);
    FiredSum(values, 4);
    FiredSum(values, 5);
    FiredSum(values, 6);
    FiredSum(values, 7);
    FiredSum(values, 8);
  }

  lemma NoPoints()
    ensures Sum([]) == 0
  {
  }

  /** Which features are missing: those of the seven required ones that are absent or nothing. */
  lemma MissingMeans(values: map<Name, Feature>)
    ensures Missing(values)
         == set name | name in {DependencyFilesChanged, FilesChanged, LinesAdded, LinesDeleted, MigrationFilesChanged,
                                SensitiveFilesChanged, TestFilesChanged}
                       && (name !in values || values[name] == Null)
    ensures forall name :: !Readable(values, name) <==> name in values && values[name] == Other
  {
  }

  /** More evidence of risk never lowers the score or the band, nor takes back a positive prediction. */
  lemma ScoreMonotone(less: map<Name, Feature>, more: map<Name, Feature>)
    requires Riskier(less, more)
    ensures var a, b := Expected(less), Expected(more);
            0 <= a.score <= b.score <= 100 && Rank(a.band) <= Rank(b.band) && (a.prediction ==> b.prediction)
  {
    hide Riskier;
    FiredGrows(RULES, less, more);
  }
}
