/** The investigation graph, run once from start to end, and what stops a run. */
module AgentGraph {
  import opened RecommendationPolicy
  import opened Wrappers
  import opened AgentContracts
  import opened AgentGuard

  datatype Kind = ToolEvent | NodeEvent | CriticEvent | ResultEvent | TerminationEvent

  datatype Event = Event(sequence: nat, kind: Kind, node: Node, ids: seq<string>)

  datatype State = State(collected: seq<Evidence>, outputs: seq<NodeOutput>, missing: set<Category>, trace: seq<Event>,
                         errors: seq<Code>, draft: Option<Draft>, critic: Option<CriticResult>,
                         termination: Option<TerminationReason>, partial: bool)

  const INITIAL := State([], [], {}, [], [], None, None, None, false)

  /** What stays fixed during a run. */
  datatype Setting = Setting(request: Request, failed: set<ToolName>, provider: nat -> ProviderReply)
  {
    /** The typed contracts bound what a provider can return. */
    ghost predicate Valid()
    {
      request.Valid() && forall k :: provider(k).Replied? ==> |provider(k).output.claims| <= 20
    }
  }

  /** The k-th model call raises an exception or returns an output. */
  datatype ProviderReply = Raised | Replied(output: NodeOutput)

  /** What a node's body comes to; a crash is a ValueError that no handler catches. */
  datatype Step = Continue(state: State) | Halt(stop: Stop) | Crash

  // ----- Pure parts

  function NodeTools(node: Node): seq<ToolName>
  {
    match node
    case ChangeAnalyst => [GetFeatures, GetGraph]
    case HistoricalInvestigator => [SearchHistory]
    case RiskSynthesizer => [GetRisk]
    case TestPlanner => [GetTestResults]
    case ExecutionReader => [GetExecutionEvidence]
    case EvidenceCritic => []
    case RecommendationComposer => []
  }

  /** The order in which the nodes can run. */
  function Rank(node: Node): nat
  {
    match node
    case ChangeAnalyst => 0 case HistoricalInvestigator => 1 case RiskSynthesizer => 2 case TestPlanner => 3
    case ExecutionReader => 4 case EvidenceCritic => 5 case RecommendationComposer => 6
  }

  predicate HasExecution(c: Setting)
  {
    exists e :: e in c.request.evidence && e.category == Execution
  }

  /** The conditional edges. */
  function NextNode(c: Setting, node: Node, st: State): (next: Option<Node>)
    ensures next.Some? ==> Rank(node) < Rank(next.value) && st.termination.None?
    ensures next.None? ==> st.termination.Some? || node == RecommendationComposer
  {
    if st.termination.Some? then None else
    match node
    case ChangeAnalyst => Some(HistoricalInvestigator)
    case HistoricalInvestigator => Some(RiskSynthesizer)
    case RiskSynthesizer => Some(TestPlanner)
    case TestPlanner =>
      Some(if HasExecution(c) then ExecutionReader else EvidenceCritic)
    case ExecutionReader => Some(EvidenceCritic)
    case EvidenceCritic => Some(RecommendationComposer)
    case RecommendationComposer => None
  }

  /** First occurrences, in order. */
  function Dedupe<T(==,!new)>(s: seq<T>): (r: seq<T>)
    ensures forall x :: x in r <==> x in s
    ensures forall i, j :: 0 <= i < j < |r| ==> r[i] != r[j]
    ensures |r| <= |s|
  {
    if s == [] then [] else
    var last := s[|s|-1];
    assert forall x :: x in s <==> x == last || x in s[..|s|-1];
    var d := Dedupe(s[..|s|-1]);
    if last in d then d else d + [last]
  }

  /** More elements never disturb what is there already. */
  lemma {:induction false} DedupeGrows<T(!new)>(s: seq<T>, t: seq<T>)
    ensures Dedupe(s) <= Dedupe(s + t)
  {
    if t == [] {
      assert s + t == s;
    } else {
      assert (s + t)[..|s + t| - 1] == s + t[..|t| - 1];
      DedupeGrows(s, t[..|t| - 1]);
    }
  }

  function NextEvent(st: State, kind: Kind, node: Node, ids: seq<string>): Event
  {
    Event(|st.trace|, kind, node, ids)
  }

  /** A stop keeps the state from before the node and adds its code and one event. */
  function StopState(st: State, stop: Stop, node: Node): State
  {
    st.(errors := Dedupe(st.errors + [stop.code]), partial := true, termination := Some(stop.reason),
        trace := st.trace + [NextEvent(st, TerminationEvent, node, [])])
  }

  function AllClaims(outputs: seq<NodeOutput>): seq<Claim>
  {
    if outputs == [] then [] else AllClaims(outputs[..|outputs|-1]) + outputs[|outputs|-1].claims
  }

  function AllCitations(claims: seq<Claim>): seq<string>
  {
    if claims == [] then [] else AllCitations(claims[..|claims|-1]) + claims[|claims|-1].evidenceIds
  }

  /** The latest proposal, UNKNOWN without any. */
  function LatestProposal(outputs: seq<NodeOutput>): Recommendation
  {
    if outputs == [] then Unknown
    else if outputs[|outputs|-1].proposed.Some? then outputs[|outputs|-1].proposed.value
    else LatestProposal(outputs[..|outputs|-1])
  }

  ghost predicate ProposesLast(outputs: seq<NodeOutput>, i: nat)
  {
    && i < |outputs| && outputs[i].proposed.Some?
    && forall j :: i < j < |outputs| ==> outputs[j].proposed.None?
  }

  /** The proposal of the last output that makes one. */
  lemma {:induction false} LatestProposalMeans(outputs: seq<NodeOutput>, i: nat)
    ensures ProposesLast(outputs, i) ==> LatestProposal(outputs) == outputs[i].proposed.value
    ensures (forall j :: 0 <= j < |outputs| ==> outputs[j].proposed.None?) ==> LatestProposal(outputs) == Unknown
  {
    if outputs != [] && outputs[|outputs| - 1].proposed.None? {
      LatestProposalMeans(outputs[..|outputs| - 1], i);
    }
  }

  /** Claims are taken output by output, citations claim by claim. */
  lemma {:induction false} ClaimsJoined(a: seq<NodeOutput>, b: seq<NodeOutput>, o: NodeOutput)
    ensures AllClaims(a + b) == AllClaims(a) + AllClaims(b) && AllClaims([o]) == o.claims
  {
    if b == [] {
      assert a + b == a;
    } else {
      assert (a + b)[..|a + b| - 1] == a + b[..|b| - 1];
      ClaimsJoined(a, b[..|b| - 1], o);
    }
    assert [o][..0] == [];
  }

  lemma {:induction false} CitationsJoined(a: seq<Claim>, b: seq<Claim>, claim: Claim)
    ensures AllCitations(a + b) == AllCitations(a) + AllCitations(b) && AllCitations([claim]) == claim.evidenceIds
  {
    if b == [] {
      assert a + b == a;
    } else {
      assert (a + b)[..|a + b| - 1] == a + b[..|b| - 1];
      CitationsJoined(a, b[..|b| - 1], claim);
    }
    assert [claim][..0] == [];
  }

  function SafeRecommendation(c: Setting, st: State): Recommendation
  {
    if st.termination == Some(Completed) then c.request.policy
    else if c.request.policy == Hold then Hold else Unknown
  }

  // ----- Why a run ends

  /** A provider that raised, or answered for another node. */
  ghost predicate ProviderFailed(c: Setting, node: Node, k: nat)
  {
    c.provider(k).Raised? || c.provider(k).output.node != node
  }

  /** Every stop has its cause in the outside world, in the counters or in the provider. */
  ghost predicate StopCaused(c: Setting, guard: BudgetGuard, node: Node, reason: TerminationReason)
    reads guard
  {
    || guard.Caused(reason)
    || (reason == ProviderFailure && IsProvider(node) && guard.usage.llmCalls > 0
        && ProviderFailed(c, node, guard.usage.llmCalls - 1))
  }

  /** The k-th reply cites more ids than an event may list. */
  ghost predicate TooManyCited(c: Setting, k: nat)
  {
    c.provider(k).Replied? && |Dedupe(AllCitations(c.provider(k).output.claims))| > 64
  }

  /** The sizes beyond which a node raises an error nobody catches; `k` numbers the next model call. */
  ghost predicate TooLarge(c: Setting, st: State, node: Node, k: nat)
  {
    if IsProvider(node) then TooManyCited(c, k)
    else node == EvidenceCritic && (|AllClaims(st.outputs)| > 80 || |st.collected| > 64)
  }

  /** What had to be spent before a node, or by its own model call, for a stop of this kind in it. */
  ghost predicate Exhausted(c: Setting, node: Node, before: Usage, reason: TerminationReason)
  {
    var limits := c.request.limits;
    match reason
    case StepBudgetExceeded => before.steps >= limits.maxSteps
    case ToolBudgetExceeded => IsProvider(node) && before.toolCalls + |NodeTools(node)| > limits.maxToolCalls
    case LlmBudgetExceeded =>
      IsProvider(node) && (before.llmCalls >= limits.maxLlmCalls || NothingLeft(c, before) || Overspends(c, before))
    case ProviderFailure => IsProvider(node) && ProviderFailed(c, node, before.llmCalls)
    case _ => true
  }

  /** Some total leaves nothing for another model call. */
  ghost predicate NothingLeft(c: Setting, before: Usage)
  {
    var limits := c.request.limits;
    before.input >= limits.maxInput || before.output >= limits.maxOutput || before.cost >= limits.maxCost
  }

  /** The next reply takes some total beyond its limit. */
  ghost predicate Overspends(c: Setting, before: Usage)
  {
    var limits, reply := c.request.limits, c.provider(before.llmCalls);
    reply.Replied? &&
    (|| before.input + reply.output.usage.input > limits.maxInput
     || before.output + reply.output.usage.output > limits.maxOutput
     || before.cost + reply.output.usage.cost > limits.maxCost)
  }

  predicate IsProvider(node: Node)
  {
    Rank(node) <= Rank(ExecutionReader)
  }

  // ----- What a trace shows

  ghost predicate TraceOk(trace: seq<Event>)
  {
    forall i :: 0 <= i < |trace| ==> trace[i].sequence == i
  }

  ghost function ToolEvents(trace: seq<Event>): nat
  {
    if trace == [] then 0
    else ToolEvents(trace[..|trace|-1]) + if trace[|trace|-1].kind == ToolEvent then 1 else 0
  }

  lemma {:induction false} ToolEventsStep(trace: seq<Event>, e: Event)
    ensures ToolEvents(trace + [e]) == ToolEvents(trace) + if e.kind == ToolEvent then 1 else 0
  {
  }

  /** A tool event of the trace lists the evidence, and the tool that made it returns it. */
  ghost predicate Backed(c: Setting, trace: seq<Event>, e: Evidence)
  {
    exists k, tool :: BackedBy(c, trace, e, k, tool)
  }

  ghost predicate BackedBy(c: Setting, trace: seq<Event>, e: Evidence, k: int, tool: ToolName)
  {
    && 0 <= k < |trace| && trace[k].kind == ToolEvent && tool in NodeTools(trace[k].node)
    && e in Read(c.request, c.failed, tool).evidence
    && trace[k].ids == Ids(Read(c.request, c.failed, tool).evidence)
  }

  ghost predicate Grounded(c: Setting, trace: seq<Event>, collected: seq<Evidence>)
  {
    forall e :: e in collected ==> Backed(c, trace, e)
  }

  lemma BackedGrows(c: Setting, trace: seq<Event>, event: Event, e: Evidence)
    requires Backed(c, trace, e)
    ensures Backed(c, trace + [event], e)
  {
    var k, tool :| BackedBy(c, trace, e, k, tool);
    assert BackedBy(c, trace + [event], e, k, tool);
  }

  /** A state between two nodes, or between two tools of a node. */
  ghost predicate Sound(c: Setting, trace: seq<Event>, collected: seq<Evidence>, errors: seq<Code>, usage: Usage)
  {
    && TraceOk(trace)
    && ToolEvents(trace) == usage.toolCalls
    && (errors == [] <==> usage.toolErrors == 0)
    && UniqueIds(collected)
    && (forall e :: e in collected ==> e in c.request.evidence)
    && Grounded(c, trace, collected)
  }

  ghost predicate Progress(c: Setting, st: State, usage: Usage)
  {
    && Sound(c, st.trace, st.collected, st.errors, usage)
    && (forall o :: o in st.outputs ==> |o.claims| <= 20)
    && st.termination.None? && !st.partial
  }

  // ----- The tools of a provider node

  /** The references of both lists, later ones with a known id dropped. */
  function Merged(collected: seq<Evidence>, found: seq<Evidence>): seq<Evidence>
  {
    if found == [] then collected else
    var k := |found| - 1;
    var before := Merged(collected, found[..k]);
    if exists x :: x in before && x.id == found[k].id then before else before + [found[k]]
  }

  /** What is collected after the given tools. */
  function Gathered(c: Setting, collected: seq<Evidence>, tools: seq<ToolName>): seq<Evidence>
  {
    if tools == [] then collected else
    var k := |tools| - 1;
    Merged(Gathered(c, collected, tools[..k]), Read(c.request, c.failed, tools[k]).evidence)
  }

  lemma {:induction false} MergedMore(collected: seq<Evidence>, found: seq<Evidence>, i: nat)
    requires i < |found|
    ensures var before := Merged(collected, found[..i]);
            Merged(collected, found[..i + 1])
            == if exists x :: x in before && x.id == found[i].id then before else before + [found[i]]
  {
    assert found[..i + 1][..i] == found[..i];
  }

  lemma {:induction false} GatheredMore(c: Setting, collected: seq<Evidence>, tools: seq<ToolName>, i: nat)
    requires i < |tools|
    ensures Gathered(c, collected, tools[..i + 1])
         == Merged(Gathered(c, collected, tools[..i]), Read(c.request, c.failed, tools[i]).evidence)
  {
    assert tools[..i + 1][..i] == tools[..i];
  }

  lemma {:induction false} NothingMerged(collected: seq<Evidence>)
    ensures Merged(collected, []) == collected
  {
  }

  lemma {:induction false} NothingGathered(c: Setting, collected: seq<Evidence>)
    ensures Gathered(c, collected, []) == collected
  {
  }

  lemma KnownId(collected: seq<Evidence>, e: Evidence)
    requires UniqueIds(collected) && !(exists x :: x in collected && x.id == e.id)
    ensures UniqueIds(collected + [e]) && e in collected + [e]
  {
    assert (collected + [e])[|collected|] == e;
  }

  /** Adds the references not collected yet. */
  method Collect(collected0: seq<Evidence>, found: seq<Evidence>) returns (collected: seq<Evidence>)
    requires UniqueIds(collected0)
    ensures UniqueIds(collected) && collected0 <= collected
    ensures forall e :: e in collected ==> e in collected0 || e in found
    ensures forall e :: e in found ==> exists x :: x in collected && x.id == e.id
    ensures collected == Merged(collected0, found)
  {
    hide Merged, UniqueIds;
    NothingMerged(collected0);
    collected := collected0;
    for i := 0 to |found|
      invariant collected == Merged(collected0, found[..i])
      invariant UniqueIds(collected) && collected0 <= collected
      invariant forall e :: e in collected ==> e in collected0 || e in found
      invariant forall k :: 0 <= k < i ==> exists x :: x in collected && x.id == found[k].id
    {
      MergedMore(collected0, found, i);
      ghost var before := collected;
      if !(exists x :: x in collected && x.id == found[i].id) {
        KnownId(collected, found[i]);
        collected := collected + [found[i]];
      }
      assert forall x :: x in before ==> x in collected;
    }
    assert found[..|found|] == found;
  }

  /** A tool of the list failed, or had nothing of its category to return. */
  ghost predicate Lacks(c: Setting, tools: seq<ToolName>, cat: Category)
  {
    exists tool :: tool in tools && LackedBy(c, tool, cat)
  }

  ghost predicate LackedBy(c: Setting, tool: ToolName, cat: Category)
  {
    ToolCategory(tool) == cat && (tool in c.failed || forall e :: e in c.request.evidence ==> e.category != cat)
  }

  lemma LackMeans(c: Setting, tool: ToolName)
    requires c.Valid()
    ensures LackedBy(c, tool, ToolCategory(tool)) <==> Read(c.request, c.failed, tool).status != Answered
  {
    var matching := OfCategory(c.request.evidence, ToolCategory(tool));
    if matching != [] {
      assert matching[0] in matching;
    } else {
      assert forall e :: e !in matching;
    }
  }

  lemma LackedByOwn(c: Setting, tool: ToolName, cat: Category)
    ensures LackedBy(c, tool, cat) ==> cat == ToolCategory(tool)
  {
  }

  lemma LacksMore(c: Setting, tools: seq<ToolName>, i: nat, cat: Category)
    requires i < |tools|
    ensures Lacks(c, tools[..i + 1], cat) <==> Lacks(c, tools[..i], cat) || LackedBy(c, tools[i], cat)
  {
    assert tools[..i + 1] == tools[..i] + [tools[i]];
  }

  /** The codes of the failed tools, in order. */
  ghost function Failures(c: Setting, tools: seq<ToolName>): seq<Code>
  {
    if tools == [] then [] else
    var k := |tools| - 1;
    Failures(c, tools[..k]) + if tools[k] in c.failed then [ToolFailed(tools[k])] else []
  }

  lemma {:induction false} FailuresMore(c: Setting, tools: seq<ToolName>, i: nat)
    requires i < |tools|
    ensures Failures(c, tools[..i + 1])
         == Failures(c, tools[..i]) + if tools[i] in c.failed then [ToolFailed(tools[i])] else []
  {
    assert tools[..i + 1][..i] == tools[..i];
  }

  /** One event for each tool, with the ids it returned. */
  ghost function ToolTrace(c: Setting, node: Node, start: nat, tools: seq<ToolName>): (events: seq<Event>)
    ensures |events| == |tools|
    ensures forall i :: 0 <= i < |tools| ==>
      events[i] == Event(start + i, ToolEvent, node, Ids(Read(c.request, c.failed, tools[i]).evidence))
  {
    seq(|tools|, i requires 0 <= i < |tools| =>
      Event(start + i, ToolEvent, node, Ids(Read(c.request, c.failed, tools[i]).evidence)))
  }

  lemma ToolTraceMore(c: Setting, node: Node, start: nat, tools: seq<ToolName>, i: nat)
    requires i < |tools|
    ensures ToolTrace(c, node, start, tools[..i + 1])
         == ToolTrace(c, node, start, tools[..i])
            + [Event(start + i, ToolEvent, node, Ids(Read(c.request, c.failed, tools[i]).evidence))]
  {
  }

  lemma {:induction false} NothingUsed(c: Setting, node: Node, start: nat)
    ensures Failures(c, []) == [] && ToolTrace(c, node, start, []) == []
    ensures forall cat :: !Lacks(c, [], cat)
  {
  }

  lemma ToolKeepsSound(c: Setting, trace: seq<Event>, collected: seq<Evidence>, errors: seq<Code>, usage: Usage,
                       node: Node, tool: ToolName, collected': seq<Evidence>)
    requires Sound(c, trace, collected, errors, usage) && tool in NodeTools(node)
    requires UniqueIds(collected')
    requires forall e :: e in collected' ==> e in collected || e in Read(c.request, c.failed, tool).evidence
    ensures var result := Read(c.request, c.failed, tool);
            var broken := result.status == Broken;
            Sound(c, trace + [Event(|trace|, ToolEvent, node, Ids(result.evidence))], collected',
                  if broken then errors + [ToolFailed(tool)] else errors,
                  usage.(toolCalls := usage.toolCalls + 1,
                         toolErrors := usage.toolErrors + if broken then 1 else 0))
  {
    var result := Read(c.request, c.failed, tool);
    var event := Event(|trace|, ToolEvent, node, Ids(result.evidence));
    ToolEventsStep(trace, event);
    forall e | e in collected'
      ensures Backed(c, trace + [event], e)
    {
      if e in collected {
        BackedGrows(c, trace, event, e);
      } else {
        assert BackedBy(c, trace + [event], e, |trace|, tool);
      }
    }
  }

  lemma SoundUsage(c: Setting, trace: seq<Event>, collected: seq<Evidence>, errors: seq<Code>,
                   before: Usage, after: Usage)
    requires Sound(c, trace, collected, errors, before)
    requires after.toolCalls == before.toolCalls && after.toolErrors == before.toolErrors
    ensures Sound(c, trace, collected, errors, after)
  {
  }

  lemma SoundUnique(c: Setting, trace: seq<Event>, collected: seq<Evidence>, errors: seq<Code>, usage: Usage)
    requires Sound(c, trace, collected, errors, usage)
    ensures UniqueIds(collected)
  {
  }

  /** One reserved tool call and what it returns; a broken tool is counted. */
  method UseTool(c: Setting, tool: ToolName, guard: BudgetGuard) returns (stop: Option<Stop>, result: ToolResult)
    requires guard.Valid() && guard.Watchful() && guard.open
    modifies guard`ticks, guard`polls, guard`usage, guard`checked
    ensures guard.Valid() && (old(guard.Within()) ==> guard.Within())
    ensures if stop.None? then guard.Watchful() else guard.Stopped(stop.value.reason)
    ensures stop.Some? ==>
      stop.value.reason in {Cancelled, WallTimeExceeded, ToolBudgetExceeded} && guard.Caused(stop.value.reason)
    ensures stop.Some? ==> guard.usage == old(guard.usage)
    ensures stop.None? ==> result == Read(c.request, c.failed, tool)
    ensures stop.None? ==> guard.usage == old(guard.usage).(
      toolCalls := old(guard.usage).toolCalls + 1,
      toolErrors := old(guard.usage).toolErrors + if result.status == Broken then 1 else 0)
  {
    hide Decided, BudgetGuard.Watchful, BudgetGuard.Stopped, BudgetGuard.Caused, BudgetGuard.Within;
    result := ToolResult(Empty, [], false);
    stop := guard.ReserveTool();
    if stop.Some? {
      return;
    }
    result := Read(c.request, c.failed, tool);
    if result.status == Broken {
      guard.RecordToolError();
    }
  }

  lemma ToolExhausted(c: Setting, node: Node, guard: BudgetGuard, before: Usage, reason: TerminationReason)
    requires guard.limits == c.request.limits && guard.Caused(reason) && IsProvider(node)
    requires reason in {Cancelled, WallTimeExceeded, ToolBudgetExceeded}
    requires guard.usage.toolCalls < before.toolCalls + |NodeTools(node)|
    ensures Exhausted(c, node, before, reason)
  {
  }

  /** Runs the tools of a node in order; stops when the guard does. */
  method RunTools(c: Setting, st: State, node: Node, guard: BudgetGuard)
    returns (stop: Option<Stop>, collected: seq<Evidence>, missing: set<Category>, errors: seq<Code>, trace: seq<Event>)
    requires c.Valid() && guard.limits == c.request.limits
    requires guard.Valid() && guard.Within() && Progress(c, st, guard.usage) && IsProvider(node)
    requires guard.Watchful() && guard.open
    modifies guard`ticks, guard`polls, guard`usage, guard`checked
    ensures guard.Valid() && guard.Within()
    ensures if stop.None? then guard.Watchful() else guard.Stopped(stop.value.reason)
    ensures stop.Some? ==>
      stop.value.reason in {Cancelled, WallTimeExceeded, ToolBudgetExceeded} && guard.Caused(stop.value.reason)
    ensures stop.Some? ==> Exhausted(c, node, old(guard.usage), stop.value.reason)
    ensures stop.None? ==> Sound(c, trace, collected, errors, guard.usage)
    ensures if stop.None? then guard.usage.toolCalls == old(guard.usage).toolCalls + |NodeTools(node)|
            else guard.usage.toolCalls < old(guard.usage).toolCalls + |NodeTools(node)|
    ensures guard.usage == old(guard.usage).(toolCalls := guard.usage.toolCalls, toolErrors := guard.usage.toolErrors)
    ensures stop.None? ==> collected == Gathered(c, st.collected, NodeTools(node))
    ensures stop.None? ==> forall cat :: cat in missing <==> cat in st.missing || Lacks(c, NodeTools(node), cat)
    ensures stop.None? ==> errors == st.errors + Failures(c, NodeTools(node))
    ensures stop.None? ==>
      guard.usage.toolErrors == old(guard.usage).toolErrors + |Failures(c, NodeTools(node))|
    ensures stop.None? ==> trace == st.trace + ToolTrace(c, node, |st.trace|, NodeTools(node))
  {
    hide Sound, Gathered, Merged, UniqueIds, ToolCategory, NodeTools, Lacks, LackedBy, Failures, ToolTrace;
    hide Decided, BudgetGuard.Watchful, BudgetGuard.Stopped, BudgetGuard.Caused, Exhausted;
    hide BudgetGuard.Valid, BudgetGuard.Within;
    collected, missing, errors, trace := st.collected, st.missing, st.errors, st.trace;
    NothingGathered(c, collected);
    NothingUsed(c, node, |trace|);
    var tools := NodeTools(node);
    for i := 0 to |tools|
      invariant guard.Valid() && guard.Within()
      invariant Sound(c, trace, collected, errors, guard.usage)
      invariant guard.Watchful() && guard.open
      invariant errors == st.errors + Failures(c, tools[..i])
      invariant guard.usage.toolErrors == old(guard.usage).toolErrors + |Failures(c, tools[..i])|
      invariant trace == st.trace + ToolTrace(c, node, |st.trace|, tools[..i])
      invariant guard.usage.toolCalls == old(guard.usage).toolCalls + i
      invariant guard.usage == old(guard.usage).(toolCalls := guard.usage.toolCalls,
                                                   toolErrors := guard.usage.toolErrors)
      invariant collected == Gathered(c, st.collected, tools[..i])
      invariant forall cat :: cat in missing <==> cat in st.missing || Lacks(c, tools[..i], cat)
    {
      var tool := tools[i];
      ghost var usage := guard.usage;
      var result;
      stop, result := UseTool(c, tool, guard);
      if stop.Some? {
        ToolExhausted(c, node, guard, old(guard.usage), stop.value.reason);
        return;
      }
      ghost var collected0, errors0 := collected, errors;
      if result.status == Broken {
        errors := errors + [ToolFailed(tool)];
        missing := missing + {ToolCategory(tool)};
      } else if result.status == Empty {
        missing := missing + {ToolCategory(tool)};
      }
      LackMeans(c, tool);
      forall cat
        ensures cat in missing <==> cat in st.missing || Lacks(c, tools[..i + 1], cat)
      {
        LacksMore(c, tools, i, cat);
        LackedByOwn(c, tool, cat);
      }
      FailuresMore(c, tools, i);
      ToolTraceMore(c, node, |st.trace|, tools, i);
      SoundUnique(c, trace, collected, errors0, usage);
      collected := Collect(collected, result.evidence);
      GatheredMore(c, st.collected, tools, i);
      ToolKeepsSound(c, trace, collected0, errors0, usage, node, tool, collected);
      trace := trace + [Event(|trace|, ToolEvent, node, Ids(result.evidence))];
    }
    assert tools[..|tools|] == tools;
    stop := None;
  }

  // ----- The nodes

  /** No node of this rank or above has been entered. */
  ghost predicate Fresh(visited: set<(Node, Signature)>, node: Node)
  {
    forall v :: v in visited ==> Rank(v.0) < Rank(node)
  }

  function StateSignature(st: State): Signature
  {
    Signature(Ids(st.collected), st.errors)
  }

  /** The totals after one more model call. */
  function Charged(before: Usage, u: ProviderUsage): Usage
  {
    before.(llmCalls := before.llmCalls + 1, input := before.input + u.input, output := before.output + u.output,
            cost := before.cost + u.cost)
  }

  /** The counters after a node that was not stopped; `k` numbers its model call. */
  ghost predicate Counted(c: Setting, node: Node, before: Usage, after: Usage)
  {
    if IsProvider(node) then
      && c.provider(before.llmCalls).Replied?
      && after == Charged(before, c.provider(before.llmCalls).output.usage).(
                    steps := before.steps + 1, toolCalls := before.toolCalls + |NodeTools(node)|,
                    toolErrors := before.toolErrors + |Failures(c, NodeTools(node))|)
    else after == before.(steps := before.steps + 1)
  }

  /**
   * What a node that was not stopped leaves: a provider's reply, its tools' references, gaps and failures, and one
   * event for each tool and one for itself; or, after the critic and the composer, the same as before.
   */
  ghost predicate Worked(c: Setting, node: Node, st: State, k: nat, next: State)
  {
    if IsProvider(node) then
      && c.provider(k).Replied? && c.provider(k).output.node == node
      && next.outputs == st.outputs + [c.provider(k).output]
      && next.collected == Gathered(c, st.collected, NodeTools(node))
      && (forall cat :: cat in next.missing <==> cat in st.missing || Lacks(c, NodeTools(node), cat))
      && (forall code :: code in next.errors <==> code in st.errors || code in Failures(c, NodeTools(node)))
      && next.trace == st.trace + ToolTrace(c, node, |st.trace|, NodeTools(node))
           + [Event(|st.trace| + |NodeTools(node)|, NodeEvent, node, Dedupe(AllCitations(c.provider(k).output.claims)))]
    else next.outputs == st.outputs && next.collected == st.collected && next.missing == st.missing
  }

  /** A node that was left took no longer than a node may. */
  ghost predicate InTime(guard: BudgetGuard, entered: int)
    requires guard.ticks >= 2
    reads guard
  {
    guard.outside.clock(guard.ticks - 2) - entered <= guard.limits.nodeTimeout
  }

  lemma EnterExhausted(c: Setting, node: Node, guard: BudgetGuard, reason: TerminationReason)
    requires guard.limits == c.request.limits && guard.Caused(reason)
    requires reason in {Cancelled, WallTimeExceeded, StepBudgetExceeded}
    ensures Exhausted(c, node, guard.usage, reason)
  {
  }

  lemma LeaveExhausted(c: Setting, node: Node, before: Usage, reason: TerminationReason)
    requires reason in {NodeTimeout, Cancelled, WallTimeExceeded}
    ensures Exhausted(c, node, before, reason)
  {
  }

  lemma ExhaustedBefore(c: Setting, node: Node, before: Usage, between: Usage, reason: TerminationReason)
    requires Exhausted(c, node, between, reason) && reason != StepBudgetExceeded
    requires reason == ToolBudgetExceeded ==> between.toolCalls == before.toolCalls
    requires between == before.(steps := between.steps, toolCalls := between.toolCalls,
                                  toolErrors := between.toolErrors)
    ensures Exhausted(c, node, before, reason)
  {
  }

  lemma ReserveExhausted(c: Setting, node: Node, guard: BudgetGuard, reason: TerminationReason)
    requires guard.limits == c.request.limits && guard.Caused(reason) && IsProvider(node)
    requires reason in {Cancelled, WallTimeExceeded, LlmBudgetExceeded}
    ensures Exhausted(c, node, guard.usage, reason) && StopCaused(c, guard, node, reason)
  {
  }

  lemma CausedStop(c: Setting, node: Node, guard: BudgetGuard, reason: TerminationReason)
    requires guard.Caused(reason)
    ensures StopCaused(c, guard, node, reason)
  {
  }

  lemma FailedProvider(c: Setting, node: Node, guard: BudgetGuard, before: Usage)
    requires IsProvider(node) && guard.usage.llmCalls == before.llmCalls + 1 && ProviderFailed(c, node, before.llmCalls)
    ensures Exhausted(c, node, before, ProviderFailure) && StopCaused(c, guard, node, ProviderFailure)
  {
  }

  lemma RecordExhausted(c: Setting, node: Node, guard: BudgetGuard, before: Usage)
    requires guard.limits == c.request.limits && IsProvider(node) && c.provider(before.llmCalls).Replied?
    requires !guard.Within() && guard.usage == Charged(before, c.provider(before.llmCalls).output.usage)
    ensures Exhausted(c, node, before, LlmBudgetExceeded)
  {
  }

  /** One reserved model call: the output is counted before anything else is done with it. */
  method AskProvider(c: Setting, node: Node, guard: BudgetGuard, entered: int)
    returns (stop: Option<Stop>, made: Option<NodeOutput>)
    requires c.Valid() && guard.limits == c.request.limits && guard.Valid() && guard.Within() && IsProvider(node)
    requires guard.Watchful() && guard.open && exists k: nat :: entered == guard.outside.clock(k)
    modifies guard`ticks, guard`polls, guard`usage, guard`reserved, guard`open, guard`checked
    ensures guard.Valid()
    ensures if stop.None? then guard.Watchful() && !guard.open else guard.Stopped(stop.value.reason)
    ensures stop.None? ==> guard.ticks >= 2 && InTime(guard, entered)
    ensures guard.usage == old(guard.usage).(llmCalls := guard.usage.llmCalls, input := guard.usage.input,
                                             output := guard.usage.output, cost := guard.usage.cost)
    ensures stop.None? ==> guard.Within() && made.Some? && made.value.node == node
                           && |made.value.claims| <= 20
                           && c.provider(old(guard.usage).llmCalls) == Replied(made.value)
                           && guard.usage == Charged(old(guard.usage), made.value.usage)
    ensures stop.Some? ==> Exhausted(c, node, old(guard.usage), stop.value.reason)
    ensures stop.Some? ==>
      stop.value.reason in {Cancelled, WallTimeExceeded, NodeTimeout, LlmBudgetExceeded, ProviderFailure}
    ensures stop.Some? ==> StopCaused(c, guard, node, stop.value.reason)
    ensures stop.Some? && !guard.Within() ==> stop.value.reason == LlmBudgetExceeded
  {
    hide UniqueIds, NodeTools, IsProvider, Exhausted, StopCaused;
    hide Decided, BudgetGuard.Watchful, BudgetGuard.Stopped, BudgetGuard.Caused, BudgetGuard.Valid, BudgetGuard.Within;
    hide BudgetGuard.Clean;
    made := None;
    var input, output, cost;
    stop, input, output, cost := guard.ReserveLlm();
    if stop.Some? {
      ReserveExhausted(c, node, guard, stop.value.reason);
      return;
    }
    // The request handed to the provider is within its contract.
    assert 1 <= input <= 262_144 && 1 <= output <= 32_768 && 1 <= cost <= 100_000_000;
    var reply := c.provider(guard.usage.llmCalls - 1);
    if reply.Raised? {
      guard.StopsInside(ProviderFailure);
      FailedProvider(c, node, guard, old(guard.usage));
      stop := Some(Stop(ProviderFailure, StopCode(ProviderFailure)));
      return;
    }
    if reply.output.node != node {
      guard.StopsInside(ProviderFailure);
      FailedProvider(c, node, guard, old(guard.usage));
      stop := Some(Stop(ProviderFailure, NodeMismatch));
      return;
    }
    stop := guard.RecordLlm(reply.output.usage);
    if stop.Some? {
      guard.StopsInside(LlmBudgetExceeded);
      RecordExhausted(c, node, guard, old(guard.usage));
      CausedStop(c, node, guard, LlmBudgetExceeded);
      return;
    }
    stop := guard.FinishNode(entered);
    if stop.Some? {
      LeaveExhausted(c, node, old(guard.usage), stop.value.reason);
      CausedStop(c, node, guard, stop.value.reason);
    }
    made := Some(reply.output);
  }

  /** What the pieces of a provider node come to. */
  lemma {:induction false} ProviderLeaves(
    c: Setting, node: Node, st: State, before: Usage, after: Usage, output: NodeOutput, collected: seq<Evidence>,
    missing: set<Category>, errors: seq<Code>, trace: seq<Event>)
    requires IsProvider(node) && c.provider(before.llmCalls) == Replied(output) && output.node == node
    requires collected == Gathered(c, st.collected, NodeTools(node))
    requires forall cat :: cat in missing <==> cat in st.missing || Lacks(c, NodeTools(node), cat)
    requires errors == st.errors + Failures(c, NodeTools(node))
    requires trace == st.trace + ToolTrace(c, node, |st.trace|, NodeTools(node))
    requires after == Charged(before.(steps := before.steps + 1, toolCalls := before.toolCalls + |NodeTools(node)|,
                                      toolErrors := before.toolErrors + |Failures(c, NodeTools(node))|), output.usage)
    ensures Counted(c, node, before, after)
    ensures Worked(c, node, st, before.llmCalls,
                   st.(collected := collected, errors := Dedupe(errors), missing := missing,
                       outputs := st.outputs + [output],
                       trace := trace + [Event(|trace|, NodeEvent, node, Dedupe(AllCitations(output.claims)))]))
  {
    hide Gathered, Lacks, Failures, NodeTools, Rank;
  }

  /** A provider node: its tools, one reserved model call, one trace event for each tool and one for itself. */
  method ProviderNode(c: Setting, st: State, node: Node, guard: BudgetGuard) returns (r: Step)
    requires c.Valid() && guard.limits == c.request.limits && IsProvider(node)
    requires guard.Valid() && guard.Within() && Progress(c, st, guard.usage) && Fresh(guard.visited, node)
    requires guard.Watchful() && !guard.open
    modifies guard
    ensures guard.Valid()
    ensures if r.Halt? then guard.Stopped(r.stop.reason) else guard.Watchful() && !guard.open
    ensures r.Continue? ==> guard.ticks >= 2 && InTime(guard, guard.outside.clock(old(guard.ticks) + 1))
    ensures forall v :: v in guard.visited ==> v in old(guard.visited) || v.0 == node
    ensures guard.usage.steps <= old(guard.usage).steps + 1
    ensures r.Halt? ==> r.stop.reason !in {Completed, LoopDetected} && StopCaused(c, guard, node, r.stop.reason)
    ensures r.Halt? && !guard.Within() ==> r.stop.reason == LlmBudgetExceeded
    ensures r.Halt? ==> Exhausted(c, node, old(guard.usage), r.stop.reason)
    ensures !r.Halt? ==> guard.Within() && Counted(c, node, old(guard.usage), guard.usage)
    ensures !r.Halt? ==> (r.Crash? <==> TooLarge(c, st, node, old(guard.usage).llmCalls))
    ensures r.Continue? ==>
      && Progress(c, r.state, guard.usage)
      && r.state.draft == st.draft && r.state.critic == st.critic
      && Worked(c, node, st, old(guard.usage).llmCalls, r.state)
  {
    hide Sound, Gathered, AllCitations, NodeTools, UniqueIds, Exhausted, BudgetGuard.Caused, ToolCategory, Dedupe;
    hide Lacks, Failures, ToolTrace, IsProvider, StopCaused, Counted, Worked, Read, Charged, StateSignature, InTime;
    hide Decided, BudgetGuard.Watchful, BudgetGuard.Stopped, BudgetGuard.Valid, BudgetGuard.Within, Setting.Valid;
    var stop, entered := guard.EnterNode(node, StateSignature(st));
    if stop.Some? {
      EnterExhausted(c, node, guard, stop.value.reason);
      CausedStop(c, node, guard, stop.value.reason);
      return Halt(stop.value);
    }
    SoundUsage(c, st.trace, st.collected, st.errors, old(guard.usage), guard.usage);
    var collected, missing, errors, trace;
    stop, collected, missing, errors, trace := RunTools(c, st, node, guard);
    ghost var reading := guard.usage;
    if stop.Some? {
      ExhaustedBefore(c, node, old(guard.usage), old(guard.usage).(steps := old(guard.usage).steps + 1),
                      stop.value.reason);
      CausedStop(c, node, guard, stop.value.reason);
      return Halt(stop.value);
    }
    var made: Option<NodeOutput>;
    stop, made := AskProvider(c, node, guard, entered);
    if stop.Some? {
      ExhaustedBefore(c, node, old(guard.usage), reading, stop.value.reason);
      return Halt(stop.value);
    }
    var cited := Dedupe(AllCitations(made.value.claims));
    ProviderLeaves(c, node, st, old(guard.usage), guard.usage, made.value, collected, missing, errors, trace);
    if |cited| > MAX_EVENT_IDS {
      return Crash;
    }
    SoundUsage(c, trace, collected, errors, reading, guard.usage);
    var event := Event(|trace|, NodeEvent, node, cited);
    EventKeepsSound(c, trace, collected, errors, guard.usage, event);
    r := Continue(st.(collected := collected, errors := Dedupe(errors), missing := missing,
                      outputs := st.outputs + [made.value], trace := trace + [event]));
  }

  /** An event that is no tool event changes none of the counts. */
  lemma {:induction false} EventKeepsSound(
    c: Setting, trace: seq<Event>, collected: seq<Evidence>, errors: seq<Code>, usage: Usage, event: Event)
    requires Sound(c, trace, collected, errors, usage) && event.kind != ToolEvent && event.sequence == |trace|
    ensures Sound(c, trace + [event], collected, Dedupe(errors), usage)
  {
    hide Backed, ToolEvents, UniqueIds, Dedupe;
    ToolEventsStep(trace, event);
    SameErrors(errors);
    forall e | e in collected
      ensures Backed(c, trace + [event], e)
    {
      BackedGrows(c, trace, event, e);
    }
  }

  /** The draft a state amounts to. */
  ghost function Drafted(st: State): Draft
  {
    Draft(LatestProposal(st.outputs), AllClaims(st.outputs), st.missing,
          if st.missing == {} && st.errors == [] then High else Low)
  }

  /** A verdict names exactly what the draft deserves, and counts its factual and its supported claims. */
  ghost predicate Judges(critic: CriticResult, draft: Draft, evidence: seq<Evidence>, policy: Recommendation)
  {
    && (forall f :: f in critic.findings <==> Deserves(draft, evidence, policy, f))
    && critic.claimCount == |Factual(draft.claims)|
    && critic.supportedCount == CountSupported(Factual(draft.claims), evidence)
  }

  /** The draft of the state is judged, its verdict and faults are recorded, and a fault ends the run. */
  ghost predicate Judged(c: Setting, st: State, next: State)
  {
    var draft, policy := Drafted(st), c.request.policy;
    && next.draft == Some(draft) && next.critic.Some? && Judges(next.critic.value, draft, st.collected, policy)
    && (next.termination
        == if forall f :: !Deserves(draft, st.collected, policy, f) then None else Some(CriticRejected))
    && (next.partial <==> next.termination.Some?)
    && (forall code :: code in next.errors <==>
          code in st.errors || (code.Criticism? && Deserves(draft, st.collected, policy, code.finding)))
    && next.trace == st.trace + [Event(|st.trace|, CriticEvent, EvidenceCritic, Ids(st.collected))]
    && next.collected == st.collected && next.outputs == st.outputs && next.missing == st.missing
  }

  /** What the critic leaves behind when it accepts: the draft is exactly what the outputs say, and it holds up. */
  ghost predicate Accepted(c: Setting, st: State)
  {
    && st.draft.Some? && st.critic.Some? && st.critic.value.accepts
    && st.draft.value.claims == AllClaims(st.outputs) && st.draft.value.proposed == LatestProposal(st.outputs)
    && st.draft.value.missing == st.missing && |st.collected| <= 64
    && (forall f :: !Deserves(st.draft.value, st.collected, c.request.policy, f))
  }

  /** What it leaves behind otherwise: a draft with at least one fault. */
  ghost predicate Rejected(c: Setting, st: State)
  {
    && st.draft.Some? && st.critic.Some? && !st.critic.value.accepts
    && st.draft.value.claims == AllClaims(st.outputs) && st.draft.value.proposed == LatestProposal(st.outputs)
    && exists f :: Deserves(st.draft.value, st.collected, c.request.policy, f)
  }

  /** The state after the critic: its verdict is recorded, and a rejection ends the run. */
  function JudgedState(st: State, draft: Draft, critic: CriticResult): State
  {
    var judged := st.(critic := Some(critic), draft := Some(draft),
                      trace := st.trace + [NextEvent(st, CriticEvent, EvidenceCritic, Ids(st.collected))]);
    if critic.accepts then judged
    else judged.(errors := Dedupe(st.errors + Criticisms(critic.findings)), partial := true,
                 termination := Some(CriticRejected))
  }

  lemma CriticismsListed(findings: set<Finding>)
    ensures forall code :: code in Criticisms(findings) <==> code.Criticism? && code.finding in findings
  {
    forall code
      ensures code in Criticisms(findings) <==> code.Criticism? && code.finding in findings
    {
      if code.Criticism? {
        match code.finding
        case CitationNotReturned =>
        case ClaimNotEntailed =>
        case ConflictsWithPolicy =>
        case MissingNeedsLowConfidence =>
        case FailedExecutionCannotShip =>
      }
    }
  }

  lemma JudgedOk(c: Setting, st: State, usage: Usage, draft: Draft, critic: CriticResult)
    requires Progress(c, st, usage) && |st.collected| <= 64 && draft == Drafted(st)
    requires critic.accepts <==> critic.findings == {}
    requires Judges(critic, draft, st.collected, c.request.policy)
    ensures var st' := JudgedState(st, draft, critic);
            && TraceOk(st'.trace) && ToolEvents(st'.trace) == usage.toolCalls
            && (critic.accepts ==> Progress(c, st', usage) && Accepted(c, st'))
            && (!critic.accepts ==> Rejected(c, st'))
            && Judged(c, st, st') && (st'.termination.None? <==> critic.accepts)
  {
    hide Deserves;
    CriticismsListed(critic.findings);
    var event := NextEvent(st, CriticEvent, EvidenceCritic, Ids(st.collected));
    EventKeepsSound(c, st.trace, st.collected, st.errors, usage, event);
    SameErrors(st.errors);
    if !critic.accepts {
      var f :| f in critic.findings;
      assert Deserves(draft, st.collected, c.request.policy, f);
    }
  }

  lemma JudgedEnds(c: Setting, st: State, next: State)
    requires Judged(c, st, next)
    ensures next.collected == st.collected && next.outputs == st.outputs && next.missing == st.missing
    ensures next.draft == Some(Drafted(st))
    ensures next.termination.None? <==> forall f :: !Deserves(Drafted(st), st.collected, c.request.policy, f)
    ensures next.termination.Some? ==> next.termination == Some(CriticRejected)
  {
    hide Deserves;
  }

  method CriticNode(c: Setting, st: State, guard: BudgetGuard) returns (r: Step)
    requires c.Valid() && guard.limits == c.request.limits
    requires guard.Valid() && guard.Within() && Progress(c, st, guard.usage) && Fresh(guard.visited, EvidenceCritic)
    requires guard.Watchful() && !guard.open
    modifies guard`ticks, guard`polls, guard`visited, guard`usage, guard`open, guard`checked
    ensures guard.Valid() && guard.Within()
    ensures if r.Halt? then guard.Stopped(r.stop.reason) else guard.Watchful() && (r.Continue? ==> !guard.open)
    ensures r.Continue? ==> guard.ticks >= 2 && InTime(guard, guard.outside.clock(old(guard.ticks) + 1))
    ensures r.Continue? ==> Judged(c, st, r.state)
    ensures forall v :: v in guard.visited ==> v in old(guard.visited) || v.0 == EvidenceCritic
    ensures guard.usage.steps <= old(guard.usage).steps + 1
    ensures guard.usage.toolCalls == old(guard.usage).toolCalls && guard.usage.toolErrors == old(guard.usage).toolErrors
    ensures r.Halt? ==>
      r.stop.reason !in {Completed, LoopDetected} && StopCaused(c, guard, EvidenceCritic, r.stop.reason)
    ensures r.Halt? ==> Exhausted(c, EvidenceCritic, old(guard.usage), r.stop.reason)
    ensures !r.Halt? ==> Counted(c, EvidenceCritic, old(guard.usage), guard.usage)
    ensures !r.Halt? ==> (r.Crash? <==> TooLarge(c, st, EvidenceCritic, old(guard.usage).llmCalls))
    ensures r.Continue? ==>
      && TraceOk(r.state.trace) && ToolEvents(r.state.trace) == guard.usage.toolCalls
      && (r.state.termination.None? ==> Progress(c, r.state, guard.usage) && Accepted(c, r.state))
      && (r.state.termination.Some? ==> Rejected(c, r.state))
  {
    hide Backed, Grounded, UniqueIds, Deserves, TraceOk, ToolEvents, Accepted, Rejected, AllClaims, LatestProposal;
    hide Decided, BudgetGuard.Watchful, BudgetGuard.Stopped, BudgetGuard.Caused, Dedupe, Factual, CountSupported;
    hide Exhausted;
    hide StopCaused, JudgedState, Judged, Sound, BudgetGuard.Valid, BudgetGuard.Within, Setting.Valid;
    var stop, entered := guard.EnterNode(EvidenceCritic, StateSignature(st));
    if stop.Some? {
      EnterExhausted(c, EvidenceCritic, guard, stop.value.reason);
      CausedStop(c, EvidenceCritic, guard, stop.value.reason);
      return Halt(stop.value);
    }
    var claims := AllClaims(st.outputs);
    if |claims| > MAX_DRAFT_CLAIMS {
      return Crash;
    }
    var draft := Draft(LatestProposal(st.outputs), claims, st.missing,
                       if st.missing != {} || st.errors != [] then Low else High);
    var critic := CritiqueDraft(draft, st.collected, c.request.policy);
    stop := guard.FinishNode(entered);
    if stop.Some? {
      LeaveExhausted(c, EvidenceCritic, old(guard.usage), stop.value.reason);
      CausedStop(c, EvidenceCritic, guard, stop.value.reason);
      return Halt(stop.value);
    }
    if |st.collected| > MAX_EVENT_IDS {
      return Crash;
    }
    SoundUsage(c, st.trace, st.collected, st.errors, old(guard.usage), guard.usage);
    JudgedOk(c, st, guard.usage, draft, critic);
    r := Continue(JudgedState(st, draft, critic));
  }

  lemma {:induction false} SameErrors(errors: seq<Code>)
    ensures Dedupe(errors) == [] <==> errors == []
  {
  }

  /** The critic's codes in a fixed order. */
  function Criticisms(findings: set<Finding>): seq<Code>
  {
    (if CitationNotReturned in findings then [Criticism(CitationNotReturned)] else [])
    + (if ClaimNotEntailed in findings then [Criticism(ClaimNotEntailed)] else [])
    + (if FailedExecutionCannotShip in findings then [Criticism(FailedExecutionCannotShip)] else [])
    + (if MissingNeedsLowConfidence in findings then [Criticism(MissingNeedsLowConfidence)] else [])
    + (if ConflictsWithPolicy in findings then [Criticism(ConflictsWithPolicy)] else [])
  }

  method ComposerNode(c: Setting, st: State, guard: BudgetGuard) returns (r: Step)
    requires c.Valid() && guard.limits == c.request.limits
    requires guard.Valid() && guard.Within() && Progress(c, st, guard.usage)
    requires Fresh(guard.visited, RecommendationComposer) && Accepted(c, st)
    requires guard.Watchful() && !guard.open
    modifies guard`ticks, guard`polls, guard`visited, guard`usage, guard`open, guard`checked
    ensures guard.Valid() && guard.Within()
    ensures if r.Halt? then guard.Stopped(r.stop.reason) else guard.Watchful() && !guard.open
    ensures r.Continue? ==> guard.ticks >= 2 && InTime(guard, guard.outside.clock(old(guard.ticks) + 1))
    ensures forall v :: v in guard.visited ==> v in old(guard.visited) || v.0 == RecommendationComposer
    ensures guard.usage.steps <= old(guard.usage).steps + 1
    ensures guard.usage.toolCalls == old(guard.usage).toolCalls && guard.usage.toolErrors == old(guard.usage).toolErrors
    ensures r.Halt? ==>
      r.stop.reason !in {Completed, LoopDetected} && StopCaused(c, guard, RecommendationComposer, r.stop.reason)
    ensures !r.Crash?
    ensures r.Halt? ==> Exhausted(c, RecommendationComposer, old(guard.usage), r.stop.reason)
    ensures !r.Halt? ==> Counted(c, RecommendationComposer, old(guard.usage), guard.usage)
    ensures r.Continue? ==>
      && TraceOk(r.state.trace) && ToolEvents(r.state.trace) == guard.usage.toolCalls
      && Grounded(c, r.state.trace, r.state.collected)
      && r.state == st.(trace := r.state.trace, termination := r.state.termination, partial := r.state.partial)
      && r.state.trace == st.trace + [Event(|st.trace|, ResultEvent, RecommendationComposer, Ids(st.collected))]
      && r.state.termination == Some(if st.errors == [] then Completed else ToolFailure)
      && r.state.partial == (st.errors != [])
  {
    hide Backed, UniqueIds, Deserves, TraceOk, ToolEvents, AllClaims, LatestProposal;
    hide Decided, BudgetGuard.Watchful, BudgetGuard.Stopped, BudgetGuard.Caused, Exhausted, StopCaused;
    hide BudgetGuard.Valid, BudgetGuard.Within, Setting.Valid;
    var stop, entered := guard.EnterNode(RecommendationComposer, StateSignature(st));
    if stop.Some? {
      EnterExhausted(c, RecommendationComposer, guard, stop.value.reason);
      CausedStop(c, RecommendationComposer, guard, stop.value.reason);
      return Halt(stop.value);
    }
    var termination := if st.errors != [] then ToolFailure else Completed;
    stop := guard.FinishNode(entered);
    if stop.Some? {
      LeaveExhausted(c, RecommendationComposer, old(guard.usage), stop.value.reason);
      CausedStop(c, RecommendationComposer, guard, stop.value.reason);
      return Halt(stop.value);
    }
    // The critic has already listed the same references in one event.
    assert |st.collected| <= MAX_EVENT_IDS;
    var event := NextEvent(st, ResultEvent, RecommendationComposer, Ids(st.collected));
    EventKeepsSound(c, st.trace, st.collected, st.errors, guard.usage, event);
    r := Continue(st.(partial := st.errors != [], termination := Some(termination), trace := st.trace + [event]));
  }

  // ----- The run

  datatype Investigation = Investigation(recommendation: Recommendation, termination: TerminationReason, partial: bool,
                                         evidenceIds: seq<string>, draft: Option<Draft>, critic: Option<CriticResult>,
                                         trace: seq<Event>, usage: Usage, errors: seq<Code>)

  datatype Result = Finished(report: Investigation) | Crashed

  method RunNode(c: Setting, st: State, node: Node, guard: BudgetGuard) returns (r: Step)
    requires c.Valid() && guard.limits == c.request.limits
    requires guard.Valid() && guard.Within() && Progress(c, st, guard.usage) && Fresh(guard.visited, node)
    requires node == RecommendationComposer ==> Accepted(c, st)
    requires guard.Watchful() && !guard.open
    modifies guard
    ensures guard.Valid()
    ensures if r.Halt? then guard.Stopped(r.stop.reason) else guard.Watchful() && (r.Continue? ==> !guard.open)
    ensures r.Continue? ==> guard.ticks >= 2 && InTime(guard, guard.outside.clock(old(guard.ticks) + 1))
    ensures forall v :: v in guard.visited ==> v in old(guard.visited) || v.0 == node
    ensures guard.usage.steps <= old(guard.usage).steps + 1
    ensures r.Halt? ==> r.stop.reason !in {Completed, LoopDetected} && StopCaused(c, guard, node, r.stop.reason)
    ensures r.Halt? ==> Exhausted(c, node, old(guard.usage), r.stop.reason)
    ensures r.Halt? && !guard.Within() ==> r.stop.reason == LlmBudgetExceeded
    ensures r.Halt? && !IsProvider(node) ==> ToolEvents(st.trace) == guard.usage.toolCalls
    ensures !r.Halt? ==> guard.Within() && Counted(c, node, old(guard.usage), guard.usage)
    ensures !r.Halt? ==> (r.Crash? <==> TooLarge(c, st, node, old(guard.usage).llmCalls))
    ensures r.Continue? ==> Worked(c, node, st, old(guard.usage).llmCalls, r.state)
    ensures r.Continue? && r.state.termination.None? ==>
      Progress(c, r.state, guard.usage) && (node == EvidenceCritic ==> Accepted(c, r.state))
      && node != RecommendationComposer
    ensures r.Continue? && r.state.termination.Some? ==> !IsProvider(node)
    ensures r.Continue? && r.state.termination.Some? ==> Ended(c, r.state, guard.usage)
    ensures r.Continue? && node == EvidenceCritic ==> Judged(c, st, r.state)
    ensures r.Continue? && node == RecommendationComposer ==>
      && r.state.draft == st.draft && r.state.errors == st.errors
      && r.state.termination == Some(if st.errors == [] then Completed else ToolFailure)
  {
    if IsProvider(node) {
      r := ProviderNode(c, st, node, guard);
    } else if node == EvidenceCritic {
      r := CriticNode(c, st, guard);
      if r.Continue? {
        JudgedEnds(c, st, r.state);
      }
    } else {
      r := ComposerNode(c, st, guard);
    }
  }

  /** A run that ended by the critic or the composer, not by a stop. */
  ghost predicate Ended(c: Setting, st: State, usage: Usage)
  {
    && TraceOk(st.trace) && ToolEvents(st.trace) == usage.toolCalls
    && st.termination.Some? && st.termination.value in {Completed, ToolFailure, CriticRejected}
    && (st.termination == Some(ToolFailure) ==> usage.toolErrors > 0)
    && (st.termination == Some(CriticRejected) ==> Rejected(c, st))
    && (st.termination == Some(Completed) ==>
          && Accepted(c, st) && Grounded(c, st.trace, st.collected) && st.errors == [] && usage.toolErrors == 0)
  }

  /** What every finished investigation promises. */
  ghost predicate Kept(c: Setting, st: State, usage: Usage, within: bool, stopped: Option<Node>, r: Investigation)
  {
    && TraceOk(r.trace)
    && (ToolEvents(r.trace) == usage.toolCalls || (stopped.Some? && IsProvider(stopped.value)))
    && (r.partial <==> r.termination != Completed)
    && r.termination != LoopDetected
    && (!within ==> r.termination == LlmBudgetExceeded)
    && Caution(c.request.policy) <= Caution(r.recommendation)
    && (r.termination == Completed ==> r.recommendation == c.request.policy)
    && (r.termination != Completed ==> Caution(Unknown) <= Caution(r.recommendation))
    && (r.recommendation == Hold <==> c.request.policy == Hold)
    && (r.termination == Completed ==> Justified(c, st, usage, r))
  }

  /** A completed investigation rests on evidence the tools returned. */
  ghost predicate Justified(c: Setting, st: State, usage: Usage, r: Investigation)
  {
    && r.critic.Some? && r.critic.value.accepts && r.draft.Some?
    && r.recommendation == c.request.policy == r.draft.value.proposed
    && usage.toolErrors == 0 && r.errors == []
    && r.evidenceIds == Ids(st.collected) && Grounded(c, r.trace, st.collected)
    && r.draft.value.claims == AllClaims(st.outputs)
    && (forall claim :: claim in r.draft.value.claims && !claim.hypothesis ==> Supported(claim, st.collected))
    && (r.recommendation == Ship ==> !ExecutionFailed(st.collected))
  }

  lemma AcceptedIsSupported(c: Setting, st: State)
    requires Accepted(c, st)
    ensures forall claim :: claim in st.draft.value.claims && !claim.hypothesis ==> Supported(claim, st.collected)
    ensures st.draft.value.proposed == c.request.policy
    ensures st.draft.value.proposed == Ship ==> !ExecutionFailed(st.collected)
  {
    assert !Deserves(st.draft.value, st.collected, c.request.policy, CitationNotReturned);
    assert !Deserves(st.draft.value, st.collected, c.request.policy, ClaimNotEntailed);
    assert !Deserves(st.draft.value, st.collected, c.request.policy, ConflictsWithPolicy);
    assert !Deserves(st.draft.value, st.collected, c.request.policy, FailedExecutionCannotShip);
  }

  function Report(c: Setting, st: State, usage: Usage): Investigation
    requires st.termination.Some?
  {
    Investigation(SafeRecommendation(c, st), st.termination.value, st.termination != Some(Completed), Ids(st.collected),
                  st.draft, st.critic, st.trace, usage, st.errors)
  }

  lemma EndedIsKept(c: Setting, st: State, usage: Usage)
    requires Ended(c, st, usage)
    ensures Kept(c, st, usage, true, None, Report(c, st, usage))
  {
    if st.termination == Some(Completed) {
      AcceptedIsSupported(c, st);
    }
  }

  lemma StoppedIsKept(c: Setting, st: State, usage0: Usage, usage: Usage, within: bool, node: Node, stop: Stop)
    requires Progress(c, st, usage0) && stop.reason !in {Completed, LoopDetected}
    requires !within ==> stop.reason == LlmBudgetExceeded
    requires !IsProvider(node) ==> ToolEvents(st.trace) == usage.toolCalls
    ensures Kept(c, StopState(st, stop, node), usage, within, Some(node), Report(c, StopState(st, stop, node), usage))
    ensures var st' := StopState(st, stop, node);
            && st'.trace == st.trace + [Event(|st.trace|, TerminationEvent, node, [])]
            && st'.collected == st.collected && st'.outputs == st.outputs && st'.missing == st.missing
            && st'.draft == st.draft && st'.critic == st.critic && st'.termination == Some(stop.reason) && st'.partial
            && forall code :: code in st'.errors <==> code in st.errors || code == stop.code
  {
    hide Dedupe, Backed, ToolEvents, UniqueIds;
    ToolEventsStep(st.trace, NextEvent(st, TerminationEvent, node, []));
  }

  // ----- What a run comes to when nothing stops it

  /** The provider nodes a run goes through. */
  function Route(c: Setting): (route: seq<Node>)
    ensures |route| == if HasExecution(c) then 5 else 4
    ensures forall k :: 0 <= k < |route| ==> Rank(route[k]) == k && IsProvider(route[k])
  {
    [ChangeAnalyst, HistoricalInvestigator, RiskSynthesizer, TestPlanner]
    + if HasExecution(c) then [ExecutionReader] else []
  }

  /** The first `k` replies. */
  function Replies(c: Setting, k: nat): seq<NodeOutput>
  {
    if k == 0 then []
    else Replies(c, k - 1) + if c.provider(k - 1).Replied? then [c.provider(k - 1).output] else []
  }

  /** What the tools of the first `k` nodes have brought together. */
  function Collected(c: Setting, k: nat): seq<Evidence>
    requires k <= |Route(c)|
  {
    if k == 0 then [] else Gathered(c, Collected(c, k - 1), NodeTools(Route(c)[k - 1]))
  }

  /** The tools of the first `k` nodes. */
  function Tools(c: Setting, k: nat): seq<ToolName>
    requires k <= |Route(c)|
  {
    if k == 0 then [] else Tools(c, k - 1) + NodeTools(Route(c)[k - 1])
  }

  function ToolCalls(c: Setting, k: nat): nat
    requires k <= |Route(c)|
  {
    if k == 0 then 0 else ToolCalls(c, k - 1) + |NodeTools(Route(c)[k - 1])|
  }

  /** What the first `k` replies use up. */
  function Spent(c: Setting, k: nat): ProviderUsage
  {
    if k == 0 then ProviderUsage(0, 0, 0) else
    var before := Spent(c, k - 1);
    match c.provider(k - 1)
    case Raised => before
    case Replied(output) =>
      ProviderUsage(before.input + output.usage.input, before.output + output.usage.output,
                    before.cost + output.usage.cost)
  }

  /**
   * A reply of the run cites too many ids, or all its replies make too many claims, or its tools return too many
   * references.
   */
  ghost predicate Oversized(c: Setting)
  {
    || (exists k :: 0 <= k < |Route(c)| && TooManyCited(c, k))
    || |AllClaims(Replies(c, |Route(c)|))| > 80
    || |Collected(c, |Route(c)|)| > 64
  }

  /** Nothing outside, no budget and no reply can stop the run. */
  ghost predicate Calm(c: Setting, outside: Outside)
  {
    var limits, n := c.request.limits, |Route(c)|;
    && (forall k :: !outside.cancelled(k))
    && (forall k :: outside.clock(k) - outside.clock(0) <= limits.maxWallTime)
    && (forall j, k :: outside.clock(k) - outside.clock(j) <= limits.nodeTimeout)
    && n + 2 <= limits.maxSteps && ToolCalls(c, n) <= limits.maxToolCalls && n <= limits.maxLlmCalls
    && (forall k :: 0 <= k < n ==> Affordable(c, k))
    && (forall k :: 0 <= k < n ==> !ProviderFailed(c, Route(c)[k], k))
  }

  /** Something is left for the k-th model call, and its reply stays within the limits. */
  ghost predicate Affordable(c: Setting, k: nat)
  {
    var limits, before, after := c.request.limits, Spent(c, k), Spent(c, k + 1);
    && before.input < limits.maxInput && before.output < limits.maxOutput && before.cost < limits.maxCost
    && after.input <= limits.maxInput && after.output <= limits.maxOutput && after.cost <= limits.maxCost
  }

  /** A run that has got through its first `k` provider nodes. */
  ghost predicate Reached(c: Setting, st: State, k: nat)
  {
    && k <= |Route(c)| && st.outputs == Replies(c, k) && st.collected == Collected(c, k)
    && (forall cat :: cat in st.missing <==> Lacks(c, Tools(c, k), cat))
    && forall j :: 0 <= j < k ==> c.provider(j).Replied? && !TooManyCited(c, j)
  }

  ghost predicate CountersAt(c: Setting, usage: Usage, k: nat)
    requires k <= |Route(c)|
  {
    && usage.llmCalls == k && usage.toolCalls == ToolCalls(c, k)
    && ProviderUsage(usage.input, usage.output, usage.cost) == Spent(c, k)
  }

  /** How many provider nodes come before a node. */
  function Place(c: Setting, node: Node): nat
  {
    if IsProvider(node) then Rank(node) else |Route(c)|
  }

  /** The draft is the one the state amounts to, and nothing is wrong with it. */
  ghost predicate Faultless(c: Setting, st: State)
  {
    st.draft == Some(Drafted(st)) && forall f :: !Deserves(Drafted(st), st.collected, c.request.policy, f)
  }

  /** A run that is about to enter a node. */
  ghost predicate Before(c: Setting, st: State, node: Node, usage: Usage)
  {
    && (IsProvider(node) ==> Rank(node) < |Route(c)|)
    && Reached(c, st, Place(c, node)) && CountersAt(c, usage, Place(c, node))
    && (forall code :: code in st.errors <==> code in Failures(c, Tools(c, Place(c, node))))
    && (node == RecommendationComposer ==> Faultless(c, st))
    && usage.steps == Place(c, node) + (if node == RecommendationComposer then 1 else 0)
    && (node == RecommendationComposer ==> !TooLarge(c, st, EvidenceCritic, usage.llmCalls))
  }

  lemma Starts(c: Setting, visited: set<(Node, Signature)>)
    requires visited == {}
    ensures var usage := Usage(0, 0, 0, 0, 0, 0, 0);
            Before(c, INITIAL, ChangeAnalyst, usage) && Progress(c, INITIAL, usage) && Fresh(visited, ChangeAnalyst)
  {
  }

  /** Where the edges lead. */
  lemma NextPlace(c: Setting, node: Node, st: State)
    requires st.termination.None? && node != RecommendationComposer && (IsProvider(node) ==> Rank(node) < |Route(c)|)
    ensures var next := NextNode(c, node, st);
            && next.Some?
            && Place(c, next.value) == Place(c, node) + (if IsProvider(node) then 1 else 0)
            && (IsProvider(next.value) ==> Rank(next.value) < |Route(c)|)
            && (next.value == RecommendationComposer <==> node == EvidenceCritic)
  {
  }

  lemma {:induction false} ReachedMore(c: Setting, st: State, node: Node, usage: Usage, after: Usage, next: State)
    requires IsProvider(node) && Before(c, st, node, usage) && Counted(c, node, usage, after)
    requires Worked(c, node, st, usage.llmCalls, next) && !TooManyCited(c, usage.llmCalls)
    ensures Reached(c, next, Place(c, node) + 1) && CountersAt(c, after, Place(c, node) + 1)
    ensures forall code :: code in next.errors <==> code in Failures(c, Tools(c, Place(c, node) + 1))
  {
    hide TooManyCited, Gathered, HasExecution, NodeTools, Lacks, Failures, AllCitations, Dedupe, ToolTrace, Rank;
    hide IsProvider, Read, Drafted, Route;
    var k := Place(c, node);
    assert Route(c)[k] == node by { PlaceOf(c, node); SameRank(c, node); }
    GapsMore(c, st, next, k);
    ErrorsMore(c, st, next, k);
    PiecesMore(c, k);
  }

  lemma PlaceOf(c: Setting, node: Node)
    ensures IsProvider(node) ==> Place(c, node) == Rank(node)
  {
  }

  /** One more node's tools. */
  lemma PiecesMore(c: Setting, k: nat)
    requires k < |Route(c)|
    ensures Tools(c, k + 1) == Tools(c, k) + NodeTools(Route(c)[k])
  {
    hide NodeTools, Route;
  }

  lemma LacksEither(c: Setting, a: seq<ToolName>, b: seq<ToolName>, cat: Category)
    ensures Lacks(c, a + b, cat) <==> Lacks(c, a, cat) || Lacks(c, b, cat)
  {
    hide LackedBy;
    if Lacks(c, a + b, cat) {
      var tool :| tool in a + b && LackedBy(c, tool, cat);
      assert tool in a || tool in b;
    }
    if tool :| tool in a && LackedBy(c, tool, cat) {
      assert tool in a + b;
    }
    if tool :| tool in b && LackedBy(c, tool, cat) {
      assert tool in a + b;
    }
  }

  /** The codes are those of the failed tools. */
  lemma {:induction false} FailuresMean(c: Setting, tools: seq<ToolName>)
    ensures forall code :: code in Failures(c, tools) <==>
      code.ToolFailed? && code.tool in tools && code.tool in c.failed
  {
    if tools != [] {
      var k := |tools| - 1;
      FailuresMean(c, tools[..k]);
      assert forall tool :: tool in tools <==> tool in tools[..k] || tool == tools[k];
    }
  }

  lemma GapsMore(c: Setting, st: State, next: State, k: nat)
    requires k < |Route(c)|
    requires forall cat :: cat in st.missing <==> Lacks(c, Tools(c, k), cat)
    requires forall cat :: cat in next.missing <==> cat in st.missing || Lacks(c, NodeTools(Route(c)[k]), cat)
    ensures forall cat :: cat in next.missing <==> Lacks(c, Tools(c, k + 1), cat)
  {
    hide NodeTools, Route, Lacks, Tools;
    PiecesMore(c, k);
    forall cat
      ensures cat in next.missing <==> Lacks(c, Tools(c, k + 1), cat)
    {
      LacksEither(c, Tools(c, k), NodeTools(Route(c)[k]), cat);
    }
  }

  lemma ErrorsMore(c: Setting, st: State, next: State, k: nat)
    requires k < |Route(c)|
    requires forall code :: code in st.errors <==> code in Failures(c, Tools(c, k))
    requires forall code :: code in next.errors <==> code in st.errors || code in Failures(c, NodeTools(Route(c)[k]))
    ensures forall code :: code in next.errors <==> code in Failures(c, Tools(c, k + 1))
  {
    hide NodeTools, Route, Failures, Tools;
    PiecesMore(c, k);
    FailuresMean(c, Tools(c, k));
    FailuresMean(c, NodeTools(Route(c)[k]));
    FailuresMean(c, Tools(c, k + 1));
  }

  lemma SameRank(c: Setting, node: Node)
    requires IsProvider(node) && Rank(node) < |Route(c)|
    ensures Route(c)[Rank(node)] == node
  {
    assert Rank(Route(c)[Rank(node)]) == Rank(node);
  }

  /** One node further. */
  lemma BeforeNext(c: Setting, st: State, node: Node, usage: Usage, after: Usage, next: State)
    requires Before(c, st, node, usage) && Counted(c, node, usage, after) && Worked(c, node, st, usage.llmCalls, next)
    requires !TooLarge(c, st, node, usage.llmCalls) && next.termination.None? && node != RecommendationComposer
    requires node == EvidenceCritic ==> Judged(c, st, next)
    ensures Before(c, next, NextNode(c, node, next).value, after)
    ensures NextNode(c, node, next).value == RecommendationComposer ==> node == EvidenceCritic
  {
    hide Route, HasExecution, Gathered, TooManyCited, AllClaims, Collected, Spent, ToolCalls, NextNode;
    hide Lacks, Failures, Tools, Deserves, ToolTrace, Judged, Drafted, AllCitations;
    NextPlace(c, node, next);
    if IsProvider(node) {
      ReachedMore(c, st, node, usage, after, next);
    } else {
      JudgedFaultless(c, st, next);
    }
  }

  /** An accepted draft is still that of the state after the verdict, which adds no code. */
  lemma JudgedFaultless(c: Setting, st: State, next: State)
    requires Judged(c, st, next) && next.termination.None?
    ensures Faultless(c, next) && forall code :: code in next.errors <==> code in st.errors
  {
    hide Deserves, AllClaims, LatestProposal;
    assert next.errors != [] ==> next.errors[0] in next.errors;
    assert st.errors != [] ==> st.errors[0] in st.errors;
  }

  /** The draft of a run that nothing stopped. */
  ghost predicate Draws(c: Setting, draft: Draft)
  {
    var n := |Route(c)|;
    && draft.proposed == LatestProposal(Replies(c, n)) && draft.claims == AllClaims(Replies(c, n))
    && (forall cat :: cat in draft.missing <==> Lacks(c, Tools(c, n), cat))
    && (draft.confidence == High <==> draft.missing == {})
  }

  /**
   * What a run comes to that nothing stopped: its draft is made of the replies and the gaps, and it is rejected exactly
   * when the draft has a fault, completed exactly when it has none and no tool failed.
   */
  ghost predicate Outcome(c: Setting, final: State)
  {
    var n := |Route(c)|;
    && final.outputs == Replies(c, n) && final.collected == Collected(c, n)
    && final.draft.Some? && Draws(c, final.draft.value)
    && final.termination == Some(
         if exists f :: Deserves(final.draft.value, final.collected, c.request.policy, f) then CriticRejected
         else if exists tool :: tool in Tools(c, n) && tool in c.failed then ToolFailure
         else Completed)
  }

  lemma {:induction false} DraftShown(c: Setting, st: State, k: nat)
    requires Reached(c, st, k) && k == |Route(c)|
    requires forall code :: code in st.errors <==> code in Failures(c, Tools(c, k))
    ensures Draws(c, Drafted(st))
    ensures st.errors != [] <==> exists tool :: tool in Tools(c, k) && tool in c.failed
  {
    hide Failures, AllClaims, LatestProposal, Route, Tools, Replies, Collected, TooManyCited;
    FailuresMean(c, Tools(c, k));
    if st.errors != [] {
      assert st.errors[0] in st.errors;
      var tool := st.errors[0].tool;
      assert LackedBy(c, tool, ToolCategory(tool));
      assert ToolCategory(tool) in st.missing;
    }
    if tool :| tool in Tools(c, k) && tool in c.failed {
      assert ToolFailed(tool) in st.errors;
    }
  }

  lemma OutcomeShown(c: Setting, st: State, node: Node, usage: Usage, next: State)
    requires Before(c, st, node, usage) && !IsProvider(node) && next.termination.Some?
    requires Worked(c, node, st, usage.llmCalls, next)
    requires node == EvidenceCritic ==> Judged(c, st, next)
    requires node == RecommendationComposer ==>
      && next.draft == st.draft && next.termination == Some(if st.errors == [] then Completed else ToolFailure)
    ensures Outcome(c, next)
  {
    hide Failures, AllClaims, LatestProposal, Route, Tools, Replies, Collected, TooManyCited, Deserves, Drafted, Draws;
    hide Lacks, Gathered, ToolTrace, CountersAt, TooLarge, Dedupe, AllCitations, Judges;
    DraftShown(c, st, |Route(c)|);
  }

  /** A crash comes from a size the setting already shows, and a run without stop or crash from none. */
  lemma SizeShown(c: Setting, st: State, node: Node, usage: Usage)
    requires Before(c, st, node, usage)
    ensures TooLarge(c, st, node, usage.llmCalls) ==> Oversized(c)
    ensures !IsProvider(node) && !TooLarge(c, st, node, usage.llmCalls) ==> !Oversized(c)
  {
    hide Route, TooManyCited, AllClaims, Collected, Spent, ToolCalls, Replies;
  }

  /** In calm nothing has what it takes to stop a node. */
  lemma CalmNeverStops(c: Setting, outside: Outside, guard: BudgetGuard, st: State, node: Node, usage: Usage,
                       reason: TerminationReason)
    requires Calm(c, outside) && Before(c, st, node, usage)
    requires guard.outside == outside && guard.started == outside.clock(0) && guard.limits == c.request.limits
    ensures !(StopCaused(c, guard, node, reason) && Exhausted(c, node, usage, reason))
  {
    hide Route, Replies, Collected, TooManyCited, AllClaims, Reached, NodeTools;
    var k := Place(c, node);
    if IsProvider(node) {
      SameRank(c, node);
      assert Affordable(c, k) && !ProviderFailed(c, Route(c)[k], k);
      CallsWithin(c, k);
    }
  }

  lemma {:induction false} RepliesCount(c: Setting, k: nat)
    requires forall j :: 0 <= j < k ==> c.provider(j).Replied?
    ensures |Replies(c, k)| == k
  {
    if k > 0 {
      RepliesCount(c, k - 1);
    }
  }

  lemma CrashShown(c: Setting, st: State, node: Node, usage: Usage)
    requires Before(c, st, node, usage) && Progress(c, st, usage) && TooLarge(c, st, node, usage.llmCalls)
    ensures Reached(c, st, |st.outputs|) && TraceOk(st.trace)
    ensures TooManyCited(c, |st.outputs|) || TooLarge(c, st, EvidenceCritic, |st.outputs|)
  {
    hide Route, TooManyCited, AllClaims, Collected, Spent, ToolCalls, Backed, ToolEvents;
    RepliesCount(c, Place(c, node));
  }

  lemma StepsBounded(guard: BudgetGuard, node: Node)
    requires guard.Valid()
    ensures guard.usage.steps <= guard.limits.maxSteps && Rank(node) <= 6
  {
  }

  lemma CountedStep(c: Setting, node: Node, before: Usage, after: Usage)
    requires Counted(c, node, before, after)
    ensures after.steps == before.steps + 1
  {
  }

  lemma FreshNext(before: set<(Node, Signature)>, after: set<(Node, Signature)>, node: Node, next: Node)
    requires Fresh(before, node) && Rank(node) < Rank(next)
    requires forall v :: v in after ==> v in before || v.0 == node
    ensures Fresh(after, next)
  {
  }

  lemma StopReported(c: Setting, st: State, stop: Stop, node: Node, usage: Usage)
    ensures StopState(st, stop, node).termination.Some?
    ensures Report(c, StopState(st, stop, node), usage).termination == stop.reason
  {
  }

  /** A report shows the state the run ended in. */
  ghost predicate Shows(r: Investigation, final: State, usage: Usage)
  {
    && final.termination == Some(r.termination) && r.evidenceIds == Ids(final.collected)
    && r.draft == final.draft && r.critic == final.critic && r.trace == final.trace && r.errors == final.errors
    && r.usage == usage
  }

  lemma StateReported(c: Setting, st: State, usage: Usage)
    requires st.termination.Some?
    ensures Shows(Report(c, st, usage), st, usage) && Report(c, st, usage).termination == st.termination.value
  {
  }

  lemma NotCancelled(c: Setting, st: State, usage: Usage)
    requires Ended(c, st, usage)
    ensures st.termination != Some(Cancelled)
  {
  }

  lemma StopKeepsReach(c: Setting, st: State, stop: Stop, node: Node, usage: Usage)
    requires Before(c, st, node, usage)
    ensures Reached(c, StopState(st, stop, node), Place(c, node))
  {
    hide Failures, Route, Tools, Replies, Collected, TooManyCited, Lacks, Dedupe, Faultless, CountersAt;
  }

  /** What the guard's own record says of a run that was stopped. */
  lemma StopWatched(guard: BudgetGuard, reason: TerminationReason)
    requires guard.Valid() && guard.Stopped(reason)
    ensures reason == Cancelled <==> exists k: nat :: k < guard.polls && guard.outside.cancelled(k)
    ensures guard.outside.cancelled(0) || guard.outside.clock(1) - guard.started > guard.limits.maxWallTime ==>
      guard.usage == Usage(0, 0, 0, 0, 0, 0, 0)
    ensures guard.outside.cancelled(0) ==> reason == Cancelled
    ensures !guard.outside.cancelled(0) && guard.outside.clock(1) - guard.started > guard.limits.maxWallTime ==>
      reason == WallTimeExceeded
  {
    if reason == Cancelled {
      assert guard.outside.cancelled(guard.polls - 1);
    }
    if guard.checked != [] {
      assert guard.outside.clock(guard.checked[0]) - guard.started <= guard.limits.maxWallTime;
    }
  }

  /** What it says of a run that was not: every check was asked, and every answer was no. */
  lemma EndWatched(guard: BudgetGuard)
    requires guard.Watchful() && guard.usage.steps > 0
    ensures forall k: nat :: k < guard.polls ==> !guard.outside.cancelled(k)
    ensures !guard.outside.cancelled(0) && guard.outside.clock(1) - guard.started <= guard.limits.maxWallTime
    ensures !guard.open ==> guard.polls == 2 * guard.usage.steps + guard.usage.toolCalls + guard.usage.llmCalls
  {
    assert guard.checked != [];
    assert guard.outside.clock(guard.checked[0]) - guard.started <= guard.limits.maxWallTime;
  }

  lemma {:induction false} CallsGrow(c: Setting, k: nat, n: nat)
    requires k <= n <= |Route(c)|
    ensures ToolCalls(c, k) <= ToolCalls(c, n)
  {
    if k < n {
      CallsGrow(c, k, n - 1);
    }
  }

  lemma {:induction false} CallsWithin(c: Setting, k: nat)
    requires k < |Route(c)|
    ensures ToolCalls(c, k) + |NodeTools(Route(c)[k])| <= ToolCalls(c, |Route(c)|)
  {
    CallsGrow(c, k + 1, |Route(c)|);
  }

  /**
    One investigation. `guard` holds the counters it ends with, `final` its last state, `stopped` the node a stop was
    raised in, and `entered` the number of nodes run, which stays below the recursion limit of the graph library. A run
    that is not stopped crashes exactly when a size the setting fixes is too large.
  */
  method RunInvestigation(c: Setting, outside: Outside)
    returns (r: Result, guard: BudgetGuard, ghost final: State, ghost stopped: Option<Node>, ghost entered: nat)
    requires c.Valid()
    ensures guard.limits == c.request.limits && guard.Valid()
    ensures r.Crashed? <==> stopped.None? && Oversized(c)
    ensures Calm(c, outside) ==> stopped.None?
    ensures r.Crashed? ==> guard.Within() && Reached(c, final, |final.outputs|) && TraceOk(final.trace)
    ensures r.Crashed? ==> TooManyCited(c, |final.outputs|) || TooLarge(c, final, EvidenceCritic, |final.outputs|)
    ensures r.Finished? && stopped.Some? ==> StopCaused(c, guard, stopped.value, r.report.termination)
    ensures r.Finished? && stopped.None? ==> Ended(c, final, guard.usage) && Outcome(c, final)
    ensures r.Finished? && stopped.Some? ==> Reached(c, final, Place(c, stopped.value))
    ensures r.Finished? ==> Shows(r.report, final, guard.usage)
    ensures outside.cancelled(0) ==>
      r.Finished? && r.report.termination == Cancelled && guard.usage == Usage(0, 0, 0, 0, 0, 0, 0)
    ensures !outside.cancelled(0) && outside.clock(1) - outside.clock(0) > c.request.limits.maxWallTime ==>
      r.Finished? && r.report.termination == WallTimeExceeded && guard.usage == Usage(0, 0, 0, 0, 0, 0, 0)
    ensures r.Finished? ==>
      (r.report.termination == Cancelled <==> exists k: nat :: k < guard.polls && outside.cancelled(k))
    ensures r.Finished? && stopped.None? ==>
      guard.polls == 2 * guard.usage.steps + guard.usage.toolCalls + guard.usage.llmCalls
    ensures r.Finished? ==> Kept(c, final, guard.usage, guard.Within(), stopped, r.report)
    ensures entered <= c.request.limits.maxSteps + 1 && entered <= 7
  {
    hide *;
    guard := new BudgetGuard(c.request.limits, outside);
    var st, node := INITIAL, ChangeAnalyst;
    entered, stopped := 0, None;
    Starts(c, guard.visited);
    while true
      invariant guard.limits == c.request.limits && guard.outside == outside && guard.started == outside.clock(0)
      invariant guard.Valid() && guard.Within() && fresh(guard)
      invariant Progress(c, st, guard.usage) && Fresh(guard.visited, node)
      invariant node == RecommendationComposer ==> Accepted(c, st)
      invariant Before(c, st, node, guard.usage)
      invariant entered == guard.usage.steps <= Rank(node) && stopped.None?
      invariant guard.Watchful() && !guard.open
      decreases 7 - Rank(node)
    {
      ghost var usage, visited := guard.usage, guard.visited;
      StepsBounded(guard, node);
      var step := RunNode(c, st, node, guard);
      entered := entered + 1;
      SizeShown(c, st, node, usage);
      match step
      case Crash =>
        CrashShown(c, st, node, usage);
        CountedStep(c, node, usage, guard.usage);
        EndWatched(guard);
        final := st;
        return Crashed, guard, final, stopped, entered;
      case Halt(stop) =>
        StoppedIsKept(c, st, usage, guard.usage, guard.Within(), node, stop);
        if Calm(c, outside) {
          CalmNeverStops(c, outside, guard, st, node, usage, stop.reason);
        }
        StopReported(c, st, stop, node, guard.usage);
        StopKeepsReach(c, st, stop, node, usage);
        StopWatched(guard, stop.reason);
        stopped := Some(node);
        st := StopState(st, stop, node);
        StateReported(c, st, guard.usage);
        final := st;
        return Finished(Report(c, st, guard.usage)), guard, final, stopped, entered;
      case Continue(next) =>
        var following := NextNode(c, node, next);
        if following.None? {
          EndedIsKept(c, next, guard.usage);
          OutcomeShown(c, st, node, usage, next);
          CountedStep(c, node, usage, guard.usage);
          EndWatched(guard);
          StateReported(c, next, guard.usage);
          NotCancelled(c, next, guard.usage);
          final := next;
          return Finished(Report(c, next, guard.usage)), guard, final, stopped, entered;
        }
        CountedStep(c, node, usage, guard.usage);
        BeforeNext(c, st, node, usage, guard.usage, next);
        FreshNext(visited, guard.visited, node, following.value);
        st, node := next, following.value;
    }
  }
}
