/** Temporal splits and their leakage checks. */
module Splits {
  import opened Wrappers
  import opened Labels

  datatype Split = Train | Validation | Test | Excluded

  /** The three boundaries; construction refuses them unless they increase. */
  datatype Policy = Policy(trainBefore: int, validationBefore: int, testBefore: int)

  function Assign(policy: Policy, predictionTime: int, proxy: ProxyLabel): Split
  {
    if proxy == Unknown then Excluded
    else if predictionTime < policy.trainBefore then Train
    else if predictionTime < policy.validationBefore then Validation
    else if predictionTime < policy.testBefore then Test
    else Excluded
  }

  /** Which split a row is in: known rows by the window their time lies in, all others in none. */
  lemma AssignMeans(policy: Policy, predictionTime: int, proxy: ProxyLabel)
    requires policy.trainBefore < policy.validationBefore < policy.testBefore
    ensures var split := Assign(policy, predictionTime, proxy);
            && (split == Train <==> proxy != Unknown && predictionTime < policy.trainBefore)
            && (split == Validation <==>
                  proxy != Unknown && policy.trainBefore <= predictionTime < policy.validationBefore)
            && (split == Test <==> proxy != Unknown && policy.validationBefore <= predictionTime < policy.testBefore)
            && (split == Excluded <==> proxy == Unknown || policy.testBefore <= predictionTime)
  {
  }

  const FEATURE_SCHEMA_VERSION := "change-features-v1"

  /** What a predictor's name or provenance must not mention. */
  const BANNED_TOKENS := {"author_key", "incident", "label", "outcome", "revert", "rollback"}

  /**
   * A materialized row. `predictorText` is the case-folded text of all feature names and provenance entries.
   */
  datatype Row = Row(
    snapshotId: string, predictionTime: int, headSha: string, diffHash: string, nearDuplicateHash: string,
    featureSchemaVersion: string, featureNames: set<string>, predictorText: string,
    assignment: Assignment, split: Split, rowHash: string)

  datatype Code =
    | SplitAssignment
    | FeatureSchema
    | FeatureShape
    | OutcomePredictor
    | FutureInformation
    | UnknownNotExcluded
    | HeadShaCrossSplit
    | DiffHashCrossSplit
    | NearDuplicateCrossSplit
    | RowHashCrossSplit

  datatype Violation = Violation(code: Code, subject: string)

  datatype Report = Passed | LeakageError(violations: set<Violation>)

  predicate FoundAt(text: string, token: string, i: nat)
  {
    i + |token| <= |text| && text[i..i + |token|] == token
  }

  predicate Mentions(text: string, token: string)
  {
    exists i: nat :: i <= |text| && FoundAt(text, token, i)
  }

  predicate MentionsBanned(text: string)
  {
    exists token :: token in BANNED_TOKENS && Mentions(text, token)
  }

  /** The text holds the token somewhere, unbroken. */
  ghost predicate Holds(text: string, token: string)
  {
    exists before, after :: text == before + token + after
  }

  lemma MentionsMeans(text: string)
    ensures MentionsBanned(text) <==>
            exists token :: token in {"author_key", "incident", "label", "outcome", "revert", "rollback"}
                            && Holds(text, token)
  {
    forall token
      ensures Mentions(text, token) <==> Holds(text, token)
    {
      if i: nat :| i <= |text| && FoundAt(text, token, i) {
        assert text == text[..i] + token + text[i + |token|..];
      }
      if before, after :| text == before + token + after {
        assert FoundAt(text, token, |before|);
      }
    }
  }

  /** What one row does wrong on its own. */
  ghost predicate RowViolates(row: Row, policy: Policy, features: set<string>, code: Code)
  {
    match code
    case SplitAssignment => row.split != Assign(policy, row.predictionTime, row.assignment.proxy)
    case FeatureSchema => row.featureSchemaVersion != "change-features-v1"
    case FeatureShape => row.featureNames != features
    case OutcomePredictor =>
      exists token :: token in {"author_key", "incident", "label", "outcome", "revert", "rollback"}
                      && Holds(row.predictorText, token)
    case FutureInformation =>
      row.assignment.proxy != Unknown
      && (row.assignment.observedAt.None? || row.assignment.observedAt.value < row.predictionTime)
    case UnknownNotExcluded => row.assignment.proxy == Unknown && row.split != Excluded
    case _ => false
  }

  /** The value two splits must not share, for a check across splits. */
  function Fingerprint(row: Row, code: Code): Option<string>
  {
    match code
    case HeadShaCrossSplit => Some(row.headSha)
    case DiffHashCrossSplit => Some(row.diffHash)
    case NearDuplicateCrossSplit => Some(row.nearDuplicateHash)
    case RowHashCrossSplit => Some(row.rowHash)
    case _ => None
  }

  ghost predicate Shares(a: Row, b: Row, code: Code, value: string)
  {
    && a.split != Excluded && b.split != Excluded && a.split != b.split
    && Fingerprint(a, code) == Fingerprint(b, code) == Some(value)
  }

  /** Two included rows of different splits carry `value`. */
  ghost predicate Crosses(rows: seq<Row>, code: Code, value: string)
  {
    exists a, b :: a in rows && b in rows && Shares(a, b, code, value)
  }

  /** Exactly which values cross: the head, diff, near-duplicate and row hashes of rows in different splits. */
  lemma CrossesExactly(rows: seq<Row>, code: Code, value: string)
    ensures Crosses(rows, code, value) <==>
            exists a, b :: a in rows && b in rows
                           && a.split != Excluded && b.split != Excluded && a.split != b.split
                           && match code
                              case HeadShaCrossSplit => a.headSha == b.headSha == value
                              case DiffHashCrossSplit => a.diffHash == b.diffHash == value
                              case NearDuplicateCrossSplit => a.nearDuplicateHash == b.nearDuplicateHash == value
                              case RowHashCrossSplit => a.rowHash == b.rowHash == value
                              case _ => false
  {
    if Crosses(rows, code, value) {
      var a, b :| a in rows && b in rows && Shares(a, b, code, value);
    }
    if a, b :| a in rows && b in rows && a.split != Excluded && b.split != Excluded && a.split != b.split
               && Fingerprint(a, code) == Fingerprint(b, code) == Some(value) {
      assert Shares(a, b, code, value);
    }
  }

  /** Some row named by the violation commits it. */
  ghost predicate RowViolation(rows: seq<Row>, policy: Policy, features: set<string>, v: Violation)
  {
    exists row :: row in rows && row.snapshotId == v.subject && RowViolates(row, policy, features, v.code)
  }

  ghost predicate IsViolation(rows: seq<Row>, policy: Policy, features: set<string>, v: Violation)
  {
    RowViolation(rows, policy, features, v) || Crosses(rows, v.code, v.subject)
  }

  ghost predicate Clean(rows: seq<Row>, policy: Policy, features: set<string>)
  {
    forall v :: !IsViolation(rows, policy, features, v)
  }

  /** The included splits in which each value occurs. */
  ghost predicate Located(rows: seq<Row>, code: Code, locations: map<string, set<Split>>)
  {
    && (forall value :: value in locations ==> locations[value] != {})
    && forall value, split :: value in locations && split in locations[value] <==> OccursIn(rows, code, value, split)
  }

  ghost predicate OccursIn(rows: seq<Row>, code: Code, value: string, split: Split)
  {
    exists row :: row in rows && row.split == split != Excluded && Fingerprint(row, code) == Some(value)
  }

  lemma OccursMore(rows: seq<Row>, row: Row, code: Code, value: string, split: Split)
    ensures OccursIn(rows + [row], code, value, split)
       <==> OccursIn(rows, code, value, split)
            || (row.split == split != Excluded && Fingerprint(row, code) == Some(value))
  {
  }

  lemma CrossesMeans(rows: seq<Row>, code: Code, value: string)
    ensures Crosses(rows, code, value)
       <==> exists s, t :: s != t && OccursIn(rows, code, value, s) && OccursIn(rows, code, value, t)
  {
    if Crosses(rows, code, value) {
      var a, b :| a in rows && b in rows && Shares(a, b, code, value);
      assert OccursIn(rows, code, value, a.split) && OccursIn(rows, code, value, b.split);
    }
    if s, t :| s != t && OccursIn(rows, code, value, s) && OccursIn(rows, code, value, t) {
      var a :| a in rows && a.split == s != Excluded && Fingerprint(a, code) == Some(value);
      var b :| b in rows && b.split == t != Excluded && Fingerprint(b, code) == Some(value);
      assert Shares(a, b, code, value);
    }
  }

  lemma TwoMembers(s: set<Split>)
    ensures |s| > 1 <==> exists a, b :: a in s && b in s && a != b
  {
    if a, b :| a in s && b in s && a != b {
      assert {a, b} <= s;
      assert s == {a, b} + (s - {a, b});
    }
    if |s| > 1 {
      var a :| a in s;
      assert s == {a} + (s - {a});
      var b :| b in s - {a};
    }
  }

  /** The values that occur in more than one included split. */
  method CrossSplitDuplicates(rows: seq<Row>, code: Code) returns (values: set<string>)
    requires forall row :: row in rows ==> Fingerprint(row, code).Some?
    ensures forall value :: value in values <==> Crosses(rows, code, value)
  {
    var locations: map<string, set<Split>> := map[];
    for i := 0 to |rows|
      invariant Located(rows[..i], code, locations)
    {
      var row := rows[i];
      assert rows[..i + 1] == rows[..i] + [row];
      LocatedMore(rows[..i], row, code, locations);
      if row.split != Excluded {
        var value := Fingerprint(row, code).value;
        var known := if value in locations then locations[value] else {};
        locations := locations[value := known + {row.split}];
      }
    }
    assert rows[..|rows|] == rows;
    values := set value | value in locations && |locations[value]| > 1;
    forall value
      ensures value in values <==> Crosses(rows, code, value)
    {
      CrossesMeans(rows, code, value);
      if value in locations {
        TwoMembers(locations[value]);
      }
    }
  }

  lemma LocatedMore(rows: seq<Row>, row: Row, code: Code, locations: map<string, set<Split>>)
    requires Located(rows, code, locations)
    ensures row.split == Excluded ==> Located(rows + [row], code, locations)
    ensures row.split != Excluded && Fingerprint(row, code).Some? ==>
      var value := Fingerprint(row, code).value;
      var known := if value in locations then locations[value] else {};
      Located(rows + [row], code, locations[value := known + {row.split}])
  {
    hide Fingerprint, OccursIn;
    forall value, split
      ensures OccursIn(rows + [row], code, value, split)
         <==> OccursIn(rows, code, value, split)
              || (row.split == split != Excluded && Fingerprint(row, code) == Some(value))
    {
      OccursMore(rows, row, code, value, split);
    }
  }

  lemma RowMore(rows: seq<Row>, row: Row, policy: Policy, features: set<string>, v: Violation)
    ensures RowViolation(rows + [row], policy, features, v)
       <==> RowViolation(rows, policy, features, v)
            || (row.snapshotId == v.subject && RowViolates(row, policy, features, v.code))
  {
  }

  method CheckRow(row: Row, policy: Policy, features: set<string>) returns (violations: set<Violation>)
    ensures forall v :: v in violations <==>
      row.snapshotId == v.subject && RowViolates(row, policy, features, v.code)
  {
    hide MentionsBanned, Assign, Holds;
    MentionsMeans(row.predictorText);
    violations := {};
    if row.split != Assign(policy, row.predictionTime, row.assignment.proxy) {
      violations := violations + {Violation(SplitAssignment, row.snapshotId)};
    }
    if row.featureSchemaVersion != FEATURE_SCHEMA_VERSION {
      violations := violations + {Violation(FeatureSchema, row.snapshotId)};
    }
    if row.featureNames != features {
      violations := violations + {Violation(FeatureShape, row.snapshotId)};
    }
    if MentionsBanned(row.predictorText) {
      violations := violations + {Violation(OutcomePredictor, row.snapshotId)};
    }
    if row.assignment.proxy != Unknown {
      if row.assignment.observedAt.None? || row.assignment.observedAt.value < row.predictionTime {
        violations := violations + {Violation(FutureInformation, row.snapshotId)};
      }
    } else if row.split != Excluded {
      violations := violations + {Violation(UnknownNotExcluded, row.snapshotId)};
    }
  }

  const CROSS_CHECKS := [HeadShaCrossSplit, DiffHashCrossSplit, NearDuplicateCrossSplit, RowHashCrossSplit]

  lemma CrossChecksCovered(rows: seq<Row>, code: Code, value: string)
    requires Crosses(rows, code, value)
    ensures code in CROSS_CHECKS
  {
  }

  /** Passes exactly on clean rows, and otherwise names exactly what is wrong. */
  method RunLeakageChecks(rows: seq<Row>, policy: Policy, features: set<string>) returns (report: Report)
    ensures report == Passed <==> Clean(rows, policy, features)
    ensures report.LeakageError? ==>
      forall v :: v in report.violations <==> IsViolation(rows, policy, features, v)
  {
    hide RowViolates, RowViolation, Crosses;
    var violations: set<Violation> := {};
    NoRows(policy, features);
    for i := 0 to |rows|
      invariant forall v :: v in violations <==> RowViolation(rows[..i], policy, features, v)
    {
      var found := CheckRow(rows[i], policy, features);
      assert rows[..i + 1] == rows[..i] + [rows[i]];
      forall v
        ensures v in violations + found <==> RowViolation(rows[..i + 1], policy, features, v)
      {
        RowMore(rows[..i], rows[i], policy, features, v);
      }
      violations := violations + found;
    }
    assert rows[..|rows|] == rows;
    for i := 0 to |CROSS_CHECKS|
      invariant forall v :: v in violations <==>
        RowViolation(rows, policy, features, v) || (v.code in CROSS_CHECKS[..i] && Crosses(rows, v.code, v.subject))
    {
      var code := CROSS_CHECKS[i];
      var duplicates := CrossSplitDuplicates(rows, code);
      assert CROSS_CHECKS[..i + 1] == CROSS_CHECKS[..i] + [code];
      violations := violations + (set value | value in duplicates :: Violation(code, value));
    }
    forall v
      ensures v in violations <==> IsViolation(rows, policy, features, v)
    {
      if Crosses(rows, v.code, v.subject) {
        CrossChecksCovered(rows, v.code, v.subject);
      }
    }
    report := if violations == {} then Passed else LeakageError(violations);
    if violations != {} {
      var v :| v in violations;
      assert IsViolation(rows, policy, features, v);
    }
  }

  lemma NoRows(policy: Policy, features: set<string>)
    ensures forall v :: !RowViolation([], policy, features, v)
  {
  }
}
