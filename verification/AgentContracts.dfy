/** The read-only tools and the deterministic critic. */
module AgentContracts {
  import opened RecommendationPolicy
  import opened Wrappers

  datatype Category = Feature | Graph | Retrieval | Risk | TestResult | Execution

  datatype ToolName = GetFeatures | GetGraph | SearchHistory | GetRisk | GetTestResults | GetExecutionEvidence

  datatype Node =
    | ChangeAnalyst | HistoricalInvestigator | RiskSynthesizer | TestPlanner | ExecutionReader
    | EvidenceCritic | RecommendationComposer

  datatype TerminationReason =
    | Completed | Cancelled | StepBudgetExceeded | ToolBudgetExceeded | LlmBudgetExceeded | WallTimeExceeded
    | NodeTimeout | LoopDetected | ToolFailure | ProviderFailure | CriticRejected

  /** Safe error codes; each stop carries one. */
  datatype Code =
    | ToolFailed(tool: ToolName)
    | StopCode(reason: TerminationReason)
    | LlmCallBudget
    | NodeMismatch
    | Criticism(finding: Finding)

  /** What loop detection remembers of a state; hashing is taken to be injective. */
  datatype Signature = Signature(ids: seq<string>, errors: seq<Code>)

  /** What the critic can object to. */
  datatype Finding =
    | CitationNotReturned | ClaimNotEntailed | ConflictsWithPolicy | MissingNeedsLowConfidence
    | FailedExecutionCannotShip

  datatype Evidence = Evidence(id: string, category: Category, facts: set<string>)

  const EXECUTION_FAILED := "execution:failed"

  datatype Claim = Claim(evidenceIds: seq<string>, facts: set<string>, hypothesis: bool)

  datatype ProviderUsage = ProviderUsage(input: nat, output: nat, cost: nat)

  datatype NodeOutput = NodeOutput(node: Node, claims: seq<Claim>, usage: ProviderUsage,
    proposed: Option<Recommendation>)

  const MAX_DRAFT_CLAIMS := 80
  const MAX_EVENT_IDS := 64

  datatype Limits = Limits(maxSteps: nat, maxToolCalls: nat, maxLlmCalls: nat, maxInput: nat, maxOutput: nat,
                           maxCost: nat, maxWallTime: int, nodeTimeout: int, maxEvidencePerTool: nat)
  {
    ghost predicate Valid()
    {
      && 1 <= maxSteps <= 32 && 1 <= maxToolCalls <= 32 && 1 <= maxLlmCalls <= 16
      && 256 <= maxInput <= 262_144 && 64 <= maxOutput <= 32_768 && 1 <= maxCost <= 100_000_000
      && 1 <= maxEvidencePerTool <= 50 && 0 < nodeTimeout <= maxWallTime
    }
  }

  datatype Usage = Usage(steps: nat, toolCalls: nat, toolErrors: nat, llmCalls: nat, input: nat, output: nat, cost: nat)

  datatype Request = Request(evidence: seq<Evidence>, policy: Recommendation, limits: Limits)
  {
    ghost predicate Valid()
    {
      |evidence| <= 100 && UniqueIds(evidence) && limits.Valid()
    }
  }

  ghost predicate UniqueIds(evidence: seq<Evidence>)
  {
    forall i, j :: 0 <= i < j < |evidence| ==> evidence[i].id != evidence[j].id
  }

  // ----- The read-only tools

  function ToolCategory(tool: ToolName): Category
  {
    match tool
    case GetFeatures => Feature
    case GetGraph => Graph
    case SearchHistory => Retrieval
    case GetRisk => Risk
    case GetTestResults => TestResult
    case GetExecutionEvidence => Execution
  }

  /** The category of each tool, read the other way: which tool finds what. */
  lemma ToolsMean(tool: ToolName)
    ensures ToolCategory(tool) == Feature <==> tool == GetFeatures
    ensures ToolCategory(tool) == Graph <==> tool == GetGraph
    ensures ToolCategory(tool) == Retrieval <==> tool == SearchHistory
    ensures ToolCategory(tool) == Risk <==> tool == GetRisk
    ensures ToolCategory(tool) == TestResult <==> tool == GetTestResults
    ensures ToolCategory(tool) == Execution <==> tool == GetExecutionEvidence
  {
  }

  datatype ToolStatus = Answered | Empty | Broken

  datatype ToolResult = ToolResult(status: ToolStatus, evidence: seq<Evidence>, truncated: bool)

  function OfCategory(evidence: seq<Evidence>, c: Category): (r: seq<Evidence>)
    ensures |r| <= |evidence|
    ensures forall e :: e in r <==> e in evidence && e.category == c
    ensures UniqueIds(evidence) ==> UniqueIds(r)
  {
    if evidence == [] then [] else
    var rest := OfCategory(evidence[1..], c);
    assert forall e :: e in evidence <==> e == evidence[0] || e in evidence[1..];
    if evidence[0].category == c then [evidence[0]] + rest else rest
  }

  /** Filtering keeps the order: what comes first in the evidence comes first among its category. */
  lemma {:induction false} OfCategoryJoined(a: seq<Evidence>, b: seq<Evidence>, c: Category)
    ensures OfCategory(a + b, c) == OfCategory(a, c) + OfCategory(b, c)
  {
    if a == [] {
      assert a + b == b;
    } else {
      assert (a + b)[1..] == a[1..] + b;
      OfCategoryJoined(a[1..], b, c);
    }
  }

  /** A tool returns the first references of its category, nothing when it fails. */
  function Read(request: Request, failed: set<ToolName>, tool: ToolName): (r: ToolResult)
    ensures |r.evidence| <= request.limits.maxEvidencePerTool
    ensures forall e :: e in r.evidence ==> e in request.evidence && e.category == ToolCategory(tool)
    ensures r.status == Broken <==> tool in failed
    ensures r.status == Answered <==> r.evidence != []
    ensures tool !in failed ==>
      |r.evidence| == var all := |OfCategory(request.evidence, ToolCategory(tool))|;
                      if all < request.limits.maxEvidencePerTool then all else request.limits.maxEvidencePerTool
    ensures r.evidence <= OfCategory(request.evidence, ToolCategory(tool))
    ensures r.truncated <==> r.status == Answered && |r.evidence| < |OfCategory(request.evidence, ToolCategory(tool))|
  {
    if tool in failed then ToolResult(Broken, [], false) else
    var matching := OfCategory(request.evidence, ToolCategory(tool));
    var n := request.limits.maxEvidencePerTool;
    var selected := if |matching| <= n then matching else matching[..n];
    assert forall e :: e in selected ==> e in matching;
    if selected == [] then ToolResult(Empty, [], false) else ToolResult(Answered, selected, |matching| > |selected|)
  }

  function Ids(evidence: seq<Evidence>): (ids: seq<string>)
    ensures |ids| == |evidence| && forall i :: 0 <= i < |ids| ==> ids[i] == evidence[i].id
  {
    seq(|evidence|, i requires 0 <= i < |evidence| => evidence[i].id)
  }

  // ----- The critic

  datatype Confidence = Low | High

  datatype Draft = Draft(proposed: Recommendation, claims: seq<Claim>, missing: set<Category>, confidence: Confidence)

  datatype CriticResult = CriticResult(accepts: bool, findings: set<Finding>, claimCount: nat, supportedCount: nat)

  /** The last reference with each id. */
  function ById(evidence: seq<Evidence>): (m: map<string, Evidence>)
    ensures forall id :: id in m ==> m[id] in evidence && m[id].id == id
    ensures forall e :: e in evidence ==> e.id in m
    ensures UniqueIds(evidence) ==> forall e :: e in evidence ==> m[e.id] == e
  {
    if evidence == [] then map[] else
    var last := evidence[|evidence|-1];
    assert forall e :: e in evidence <==> e == last || e in evidence[..|evidence|-1];
    ById(evidence[..|evidence|-1])[last.id := last]
  }

  ghost predicate Cited(claim: Claim, evidence: seq<Evidence>)
  {
    forall id :: id in claim.evidenceIds ==> exists e :: e in evidence && e.id == id
  }

  /** Every cited reference was returned, and together they state every fact the claim makes. */
  ghost predicate Supported(claim: Claim, evidence: seq<Evidence>)
  {
    && Cited(claim, evidence)
    && forall f :: f in claim.facts ==>
         exists id :: id in claim.evidenceIds && id in ById(evidence) && f in ById(evidence)[id].facts
  }

  ghost function CountSupported(claims: seq<Claim>, evidence: seq<Evidence>): nat
  {
    if claims == [] then 0
    else CountSupported(claims[..|claims|-1], evidence) + if Supported(claims[|claims|-1], evidence) then 1 else 0
  }

  /** Where ids are distinct, the facts are those of the cited references. */
  lemma SupportedByReferences(claim: Claim, evidence: seq<Evidence>)
    requires UniqueIds(evidence) && Cited(claim, evidence)
    ensures Supported(claim, evidence) <==>
      forall f :: f in claim.facts ==> exists e :: e in evidence && e.id in claim.evidenceIds && f in e.facts
  {
  }

  function Factual(claims: seq<Claim>): (r: seq<Claim>)
    ensures forall c :: c in r <==> c in claims && !c.hypothesis
  {
    if claims == [] then [] else
    var rest := Factual(claims[1..]);
    assert forall c :: c in claims <==> c == claims[0] || c in claims[1..];
    if claims[0].hypothesis then rest else [claims[0]] + rest
  }

  ghost predicate ExecutionFailed(evidence: seq<Evidence>)
  {
    exists e :: e in evidence && e.category == Execution && "execution:failed" in e.facts
  }

  /** The findings a draft deserves, each for its own reason. */
  ghost predicate Deserves(draft: Draft, evidence: seq<Evidence>, policy: Recommendation, f: Finding)
  {
    match f
    case CitationNotReturned => exists c :: c in draft.claims && !c.hypothesis && !Cited(c, evidence)
    case ClaimNotEntailed =>
      exists c :: c in draft.claims && !c.hypothesis && Cited(c, evidence) && !Supported(c, evidence)
    case ConflictsWithPolicy => draft.proposed != policy
    case MissingNeedsLowConfidence => draft.missing != {} && draft.confidence != Low
    case FailedExecutionCannotShip => ExecutionFailed(evidence) && draft.proposed == Ship
  }

  /** What is wrong with one factual claim, if anything. */
  function ClaimFinding(claim: Claim, byId: map<string, Evidence>): Option<Finding>
  {
    if exists id :: id in claim.evidenceIds && id !in byId then Some(CitationNotReturned) else
    var facts := set id, f | id in claim.evidenceIds && id in byId && f in byId[id].facts :: f;
    if claim.facts <= facts then None else Some(ClaimNotEntailed)
  }

  lemma {:induction false} ClaimFindingMeans(claim: Claim, evidence: seq<Evidence>)
    ensures ClaimFinding(claim, ById(evidence)) ==
            if Supported(claim, evidence) then None
            else Some(if Cited(claim, evidence) then ClaimNotEntailed else CitationNotReturned)
  {
    hide ById;
    var byId := ById(evidence);
    assert Cited(claim, evidence) <==> forall id :: id in claim.evidenceIds ==> id in byId;
    var facts := set id, f | id in claim.evidenceIds && id in byId && f in byId[id].facts :: f;
    assert forall f :: f in facts <==> exists id :: id in claim.evidenceIds && id in byId && f in byId[id].facts;
    assert claim.facts <= facts <==> forall f :: f in claim.facts ==> f in facts;
  }

  /** The findings are exactly the deserved ones, and the counts those of the factual and of the supported claims. */
  method CritiqueDraft(draft: Draft, evidence: seq<Evidence>, policy: Recommendation) returns (r: CriticResult)
    ensures r.accepts <==> r.findings == {}
    ensures forall f :: f in r.findings <==> Deserves(draft, evidence, policy, f)
    ensures r.claimCount == |Factual(draft.claims)|
    ensures r.supportedCount == CountSupported(Factual(draft.claims), evidence) <= r.claimCount
  {
    hide Supported, Cited, Deserves, CountSupported;
    var factual := Factual(draft.claims);
    var findings, supported := CheckClaims(factual, evidence);
    if draft.proposed != policy {
      findings := findings + {ConflictsWithPolicy};
    }
    if draft.missing != {} && draft.confidence != Low {
      findings := findings + {MissingNeedsLowConfidence};
    }
    var executionFailed := exists e :: e in evidence && e.category == Execution && EXECUTION_FAILED in e.facts;
    if executionFailed && draft.proposed == Ship {
      findings := findings + {FailedExecutionCannotShip};
    }
    DeservedFindings(draft, evidence, policy);
    forall f
      ensures f in findings <==> Deserves(draft, evidence, policy, f)
    {
      match f
      case CitationNotReturned =>
      case ClaimNotEntailed =>
      case ConflictsWithPolicy =>
      case MissingNeedsLowConfidence =>
      case FailedExecutionCannotShip =>
    }
    r := CriticResult(findings == {}, findings, |factual|, supported);
  }

  /** Each finding's condition, over the factual claims. */
  lemma DeservedFindings(draft: Draft, evidence: seq<Evidence>, policy: Recommendation)
    ensures Deserves(draft, evidence, policy, CitationNotReturned) <==>
      exists c :: c in Factual(draft.claims) && !Cited(c, evidence)
    ensures Deserves(draft, evidence, policy, ClaimNotEntailed) <==>
      exists c :: c in Factual(draft.claims) && Cited(c, evidence) && !Supported(c, evidence)
    ensures Deserves(draft, evidence, policy, ConflictsWithPolicy) <==> draft.proposed != policy
    ensures Deserves(draft, evidence, policy, MissingNeedsLowConfidence) <==>
      draft.missing != {} && draft.confidence != Low
    ensures Deserves(draft, evidence, policy, FailedExecutionCannotShip) <==>
      draft.proposed == Ship && exists e :: e in evidence && e.category == Execution && "execution:failed" in e.facts
  {
    hide Supported, Cited;
  }

  method CheckClaims(factual: seq<Claim>, evidence: seq<Evidence>) returns (findings: set<Finding>, supported: nat)
    ensures findings <= {CitationNotReturned, ClaimNotEntailed}
    ensures CitationNotReturned in findings <==> exists c :: c in factual && !Cited(c, evidence)
    ensures ClaimNotEntailed in findings <==> exists c :: c in factual && Cited(c, evidence) && !Supported(c, evidence)
    ensures supported == CountSupported(factual, evidence) <= |factual|
  {
    hide Supported, Cited, ClaimFinding, ById;
    var byId := ById(evidence);
    findings, supported := {}, 0;
    for i := 0 to |factual|
      invariant findings <= {CitationNotReturned, ClaimNotEntailed}
      invariant CitationNotReturned in findings <==> exists c :: c in factual[..i] && !Cited(c, evidence)
      invariant ClaimNotEntailed in findings <==>
                exists c :: c in factual[..i] && Cited(c, evidence) && !Supported(c, evidence)
      invariant supported == CountSupported(factual[..i], evidence) <= i
    {
      ClaimFindingMeans(factual[i], evidence);
      SupportedAreCited(factual[i], evidence);
      assert factual[..i+1][..i] == factual[..i];
      assert forall c :: c in factual[..i+1] <==> c in factual[..i] || c == factual[i] by {
        assert factual[..i+1] == factual[..i] + [factual[i]];
      }
      var finding := ClaimFinding(factual[i], byId);
      if finding.Some? {
        findings := findings + {finding.value};
      } else {
        supported := supported + 1;
      }
    }
    assert factual[..|factual|] == factual;
  }

  lemma SupportedAreCited(claim: Claim, evidence: seq<Evidence>)
    ensures Supported(claim, evidence) ==> Cited(claim, evidence)
  {
  }
}
