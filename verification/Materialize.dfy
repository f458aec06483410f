/** Building a dataset from its parts. */
module Materialize {
  import opened Wrappers
  import opened Labels
  import opened Splits

  const MAX_VERSION_CHARS := 128

  /** An admitted change; `change` stands for its files. */
  datatype Snapshot = Snapshot(id: string, predictionTime: int, headSha: string, change: string,
    outcome: Option<Outcome>)

  /** What the change analysis yields for a row. */
  datatype Analysis = Analysis(
    diffHash: string, nearDuplicateHash: string, featureSchemaVersion: string,
    featureNames: set<string>, predictorText: string)

  /** The calls into code outside this model: the change analysis, which may raise, and the hash of a row's payload. */
  datatype Tools = Tools(
    analyze: string -> Result<Analysis>, rowHash: (Snapshot, Analysis, Assignment, Split) -> string)

  /** `Rejected` stands for the source's `ValueError`, `Leaking` for its `LeakageError`. */
  datatype BuildResult = Built(rows: seq<Row>) | Rejected | Leaking(violations: set<Violation>)

  function MaterializedRow(s: Snapshot, admission: Admission, policy: Policy, tools: Tools): Result<Row>
  {
    match tools.analyze(s.change)
    case ValueError => ValueError
    case Ok(analysis) =>
      match AssignProxyLabel(s.predictionTime, s.outcome, admission)
      case ValueError => ValueError
      case Ok(assignment) =>
        var split := Assign(policy, s.predictionTime, assignment.proxy);
        Ok(Row(s.id, s.predictionTime, s.headSha, analysis.diffHash, analysis.nearDuplicateHash,
               analysis.featureSchemaVersion, analysis.featureNames, analysis.predictorText,
               assignment, split, tools.rowHash(s, analysis, assignment, split)))
  }

  /** Row `i` is record `i` materialized. */
  ghost predicate Materialized(
    records: seq<Snapshot>, admission: Admission, policy: Policy, tools: Tools, rows: seq<Row>)
  {
    && |rows| == |records|
    && forall i :: 0 <= i < |rows| ==> MaterializedRow(records[i], admission, policy, tools) == Ok(rows[i])
  }

  ghost predicate AllMaterialize(records: seq<Snapshot>, admission: Admission, policy: Policy, tools: Tools)
  {
    forall i :: 0 <= i < |records| ==> MaterializedRow(records[i], admission, policy, tools).Ok?
  }

  method BuildDataset(
    version: string, records: seq<Snapshot>, admission: Admission, policy: Policy, features: set<string>,
    commit: string, isSha: string -> bool, tools: Tools) returns (r: BuildResult)
    ensures r.Rejected? <==>
      version == "" || |version| > 128 || !isSha(commit)
      || !AllMaterialize(records, admission, policy, tools)
    ensures r.Built? ==> Materialized(records, admission, policy, tools, r.rows) && Clean(r.rows, policy, features)
    ensures r.Leaking? ==> exists rows ::
      && Materialized(records, admission, policy, tools, rows) && !Clean(rows, policy, features)
      && (forall v :: v in r.violations <==> IsViolation(rows, policy, features, v))
  {
    hide MaterializedRow, Clean, IsViolation;
    if version == "" || |version| > MAX_VERSION_CHARS {
      return Rejected;
    }
    if !isSha(commit) {
      return Rejected;
    }
    var rows: seq<Row> := [];
    for i := 0 to |records|
      invariant Materialized(records[..i], admission, policy, tools, rows)
    {
      var row := MaterializedRow(records[i], admission, policy, tools);
      if row.ValueError? {
        return Rejected;
      }
      rows := rows + [row.value];
    }
    assert records[..|records|] == records;
    var report := RunLeakageChecks(rows, policy, features);
    r := if report == Passed then Built(rows) else Leaking(report.violations);
  }

  // ---------------------------------------------------------------- what a built dataset guarantees

  /** Every value of a row comes from its own record, that record's analysis, or its label and split. */
  lemma RowMeans(s: Snapshot, admission: Admission, policy: Policy, tools: Tools)
    requires MaterializedRow(s, admission, policy, tools).Ok?
    ensures var row, x := MaterializedRow(s, admission, policy, tools).value, tools.analyze(s.change);
            && x.Ok? && Ok(row.assignment) == AssignProxyLabel(s.predictionTime, s.outcome, admission)
            && row.split == Assign(policy, s.predictionTime, row.assignment.proxy)
            && row.snapshotId == s.id && row.predictionTime == s.predictionTime && row.headSha == s.headSha
            && row.diffHash == x.value.diffHash && row.nearDuplicateHash == x.value.nearDuplicateHash
            && row.featureSchemaVersion == x.value.featureSchemaVersion && row.featureNames == x.value.featureNames
            && row.predictorText == x.value.predictorText
            && row.rowHash == tools.rowHash(s, x.value, row.assignment, row.split)
  {
  }

  ghost function Rank(split: Split): int
  {
    match split case Train => 0 case Validation => 1 case Test => 2 case Excluded => 3
  }

  /** Earlier splits hold earlier changes only. */
  lemma SplitsChronological(
    records: seq<Snapshot>, admission: Admission, policy: Policy, tools: Tools, rows: seq<Row>, a: Row, b: Row)
    requires Materialized(records, admission, policy, tools, rows) && a in rows && b in rows
    requires policy.trainBefore < policy.validationBefore < policy.testBefore
    requires Rank(a.split) < Rank(b.split) < Rank(Excluded)
    ensures a.predictionTime < b.predictionTime
  {
  }

  /** An included row's outcome was seen inside a window that had closed by the admitted cutoff. */
  lemma IncludedObserved(
    records: seq<Snapshot>, admission: Admission, policy: Policy, tools: Tools, rows: seq<Row>, row: Row)
    requires Materialized(records, admission, policy, tools, rows) && row in rows && row.split != Excluded
    ensures row.assignment.proxy != Unknown && row.assignment.observedAt.Some?
    ensures SeenInClosedWindow(row.predictionTime, row.assignment.observedAt.value, admission)
  {
  }

  /** No fingerprint of an included row appears in another split. */
  lemma NothingCrosses(rows: seq<Row>, policy: Policy, features: set<string>, a: Row, b: Row)
    requires Clean(rows, policy, features) && a in rows && b in rows
    requires a.split != Excluded && b.split != Excluded && a.split != b.split
    ensures a.headSha != b.headSha && a.diffHash != b.diffHash
    ensures a.nearDuplicateHash != b.nearDuplicateHash && a.rowHash != b.rowHash
  {
    hide RowViolation;
    forall code: Code | Fingerprint(a, code).Some?
      ensures Fingerprint(a, code) != Fingerprint(b, code)
    {
      var value := Fingerprint(a, code).value;
      assert !IsViolation(rows, policy, features, Violation(code, value));
      assert !Shares(a, b, code, value);
    }
    assert Fingerprint(a, HeadShaCrossSplit) != Fingerprint(b, HeadShaCrossSplit);
    assert Fingerprint(a, DiffHashCrossSplit) != Fingerprint(b, DiffHashCrossSplit);
    assert Fingerprint(a, NearDuplicateCrossSplit) != Fingerprint(b, NearDuplicateCrossSplit);
    assert Fingerprint(a, RowHashCrossSplit) != Fingerprint(b, RowHashCrossSplit);
  }

  /** The analysis keeps to the feature schema and mentions nothing banned. */
  ghost predicate GoodAnalysis(tools: Tools, features: set<string>)
  {
    forall change :: tools.analyze(change).Ok? ==>
      && tools.analyze(change).value.featureSchemaVersion == "change-features-v1"
      && tools.analyze(change).value.featureNames == features
      && (forall token :: token in {"author_key", "incident", "label", "outcome", "revert", "rollback"} ==>
            !Holds(tools.analyze(change).value.predictorText, token))
  }

  /** The row hash covers the split, so that rows of different splits never share one. */
  ghost predicate HashCoversSplit(tools: Tools)
  {
    forall s, x, a, split, t, y, b, other ::
      tools.rowHash(s, x, a, split) == tools.rowHash(t, y, b, other) ==> split == other
  }

  /** Rows this builder made pass every check on single rows as long as the analysis keeps to its schema. */
  lemma OwnRowsPass(
    records: seq<Snapshot>, admission: Admission, policy: Policy, tools: Tools, features: set<string>, rows: seq<Row>,
    row: Row, code: Code)
    requires Materialized(records, admission, policy, tools, rows) && row in rows && GoodAnalysis(tools, features)
    ensures !RowViolates(row, policy, features, code)
  {
  }

  /** So such a dataset fails the checks only for a head, diff or near-duplicate hash shared across splits. */
  lemma OnlyCrossingsFail(
    records: seq<Snapshot>, admission: Admission, policy: Policy, tools: Tools, features: set<string>, rows: seq<Row>)
    requires Materialized(records, admission, policy, tools, rows)
    requires GoodAnalysis(tools, features) && HashCoversSplit(tools)
    ensures Clean(rows, policy, features) <==>
      forall a, b :: a in rows && b in rows && a.split != Excluded && b.split != Excluded && a.split != b.split ==>
        a.headSha != b.headSha && a.diffHash != b.diffHash && a.nearDuplicateHash != b.nearDuplicateHash
  {
    hide RowViolates, Materialized, MaterializedRow, AssignProxyLabel, Assign;
    if Clean(rows, policy, features) {
      forall a, b | a in rows && b in rows && a.split != Excluded && b.split != Excluded && a.split != b.split
        ensures a.headSha != b.headSha && a.diffHash != b.diffHash && a.nearDuplicateHash != b.nearDuplicateHash
      {
        NothingCrosses(rows, policy, features, a, b);
      }
    } else {
      var v :| IsViolation(rows, policy, features, v);
      if RowViolation(rows, policy, features, v) {
        var row :| row in rows && row.snapshotId == v.subject && RowViolates(row, policy, features, v.code);
        OwnRowsPass(records, admission, policy, tools, features, rows, row, v.code);
      } else {
        var a, b :| a in rows && b in rows && Shares(a, b, v.code, v.subject);
        RowHashesDiffer(records, admission, policy, tools, rows, a, b);
      }
    }
  }

  lemma RowHashesDiffer(
    records: seq<Snapshot>, admission: Admission, policy: Policy, tools: Tools, rows: seq<Row>, a: Row, b: Row)
    requires Materialized(records, admission, policy, tools, rows) && a in rows && b in rows
    requires HashCoversSplit(tools) && a.split != b.split
    ensures a.rowHash != b.rowHash
  {
  }
}
