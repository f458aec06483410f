/** Which investigations end in an uncaught error. */
module AgentCrash {
  import opened RecommendationPolicy
  import Wrappers
  import opened AgentContracts
  import opened AgentGuard
  import opened AgentGraph
  import Order

  // ----- How many references a run brings together

  lemma {:induction false} ToolsListed(c: Setting)
    ensures Tools(c, |Route(c)|)
         == [GetFeatures, GetGraph, SearchHistory, GetRisk, GetTestResults]
            + if HasExecution(c) then [GetExecutionEvidence] else []
  {
    assert Tools(c, 1) == [GetFeatures, GetGraph];
    assert Tools(c, 2) == [GetFeatures, GetGraph, SearchHistory];
    assert Tools(c, 3) == [GetFeatures, GetGraph, SearchHistory, GetRisk];
    assert Tools(c, 4) == [GetFeatures, GetGraph, SearchHistory, GetRisk, GetTestResults];
  }

  /** How many references the tools return, each counted for the tool that returns it. */
  function Returned(c: Setting, tools: seq<ToolName>): nat
  {
    if tools == [] then 0 else
    var k := |tools| - 1;
    Returned(c, tools[..k]) + |Read(c.request, c.failed, tools[k]).evidence|
  }

  lemma {:induction false} GatheredTwice(c: Setting, collected: seq<Evidence>, a: seq<ToolName>, b: seq<ToolName>)
    ensures Gathered(c, Gathered(c, collected, a), b) == Gathered(c, collected, a + b)
  {
    hide Merged, Read;
    if b == [] {
      assert a + b == a;
    } else {
      var k := |b| - 1;
      GatheredTwice(c, collected, a, b[..k]);
      assert (a + b)[..|a + b| - 1] == a + b[..k];
    }
  }

  lemma {:induction false} CollectedByTools(c: Setting, k: nat)
    requires k <= |Route(c)|
    ensures Collected(c, k) == Gathered(c, [], Tools(c, k))
  {
    hide Gathered, NodeTools, Route;
    if k == 0 {
      NothingGathered(c, []);
    } else {
      CollectedByTools(c, k - 1);
      GatheredTwice(c, [], Tools(c, k - 1), NodeTools(Route(c)[k - 1]));
    }
  }

  lemma {:induction false} MergedDisjoint(collected: seq<Evidence>, found: seq<Evidence>)
    requires UniqueIds(collected) && UniqueIds(found)
    requires forall x, e :: x in collected && e in found ==> x.id != e.id
    ensures Merged(collected, found) == collected + found && UniqueIds(collected + found)
  {
    if found == [] {
      assert collected + found == collected;
    } else {
      var k := |found| - 1;
      MergedDisjoint(collected, found[..k]);
      assert found[k] in found;
      assert forall x :: x in collected + found[..k] <==> x in collected || x in found[..k];
      assert (collected + found[..k]) + [found[k]] == collected + found;
    }
  }

  /** Every reference gathered is one of the request, for one of the tools. */
  ghost predicate FromTools(c: Setting, collected: seq<Evidence>, tools: seq<ToolName>)
  {
    && UniqueIds(collected)
    && forall e :: e in collected ==>
         e in c.request.evidence && exists tool :: tool in tools && e.category == ToolCategory(tool)
  }

  ghost predicate AllDifferent(tools: seq<ToolName>)
  {
    forall i, j :: 0 <= i < j < |tools| ==> tools[i] != tools[j]
  }

  lemma SameCategory(a: ToolName, b: ToolName)
    requires ToolCategory(a) == ToolCategory(b)
    ensures a == b
  {
  }

  lemma SameId(evidence: seq<Evidence>, x: Evidence, e: Evidence)
    requires UniqueIds(evidence) && x in evidence && e in evidence && x.id == e.id
    ensures x == e
  {
  }

  /** Different tools return different references, so nothing is ever dropped. */
  lemma {:induction false} ReadDisjoint(c: Setting, collected: seq<Evidence>, tools: seq<ToolName>, tool: ToolName)
    requires UniqueIds(c.request.evidence) && FromTools(c, collected, tools) && tool !in tools
    ensures var found := Read(c.request, c.failed, tool).evidence;
            && Merged(collected, found) == collected + found
            && FromTools(c, collected + found, tools + [tool])
  {
    hide Merged, ToolCategory;
    var found := Read(c.request, c.failed, tool).evidence;
    ReadUnique(c, tool);
    forall x, e | x in collected && e in found
      ensures x.id != e.id
    {
      if x.id == e.id {
        SameId(c.request.evidence, x, e);
        var other :| other in tools && x.category == ToolCategory(other);
        SameCategory(other, tool);
      }
    }
    MergedDisjoint(collected, found);
    assert tool in tools + [tool] && forall other :: other in tools ==> other in tools + [tool];
  }

  lemma ReadUnique(c: Setting, tool: ToolName)
    requires UniqueIds(c.request.evidence)
    ensures UniqueIds(Read(c.request, c.failed, tool).evidence)
  {
    var all := OfCategory(c.request.evidence, ToolCategory(tool));
    assert UniqueIds(all);
  }

  lemma {:induction false} GatheredCount(c: Setting, tools: seq<ToolName>)
    requires UniqueIds(c.request.evidence) && AllDifferent(tools)
    ensures |Gathered(c, [], tools)| == Returned(c, tools) && FromTools(c, Gathered(c, [], tools), tools)
  {
    hide Merged, Read, FromTools;
    if tools == [] {
      NothingFromTools(c);
    } else {
      var k := |tools| - 1;
      GatheredCount(c, tools[..k]);
      ReadDisjoint(c, Gathered(c, [], tools[..k]), tools[..k], tools[k]);
      assert tools == tools[..k] + [tools[k]];
    }
  }

  lemma NothingFromTools(c: Setting)
    ensures FromTools(c, [], [])
  {
  }

  /** A run collects exactly as many references as its tools return one by one. */
  lemma {:induction false} CollectedCount(c: Setting)
    requires c.Valid()
    ensures |Collected(c, |Route(c)|)| == Returned(c, Tools(c, |Route(c)|)) <= |c.request.evidence|
  {
    hide Collected, Gathered, Returned, Tools, Route;
    var tools := Tools(c, |Route(c)|);
    ToolsListed(c);
    CollectedByTools(c, |Route(c)|);
    GatheredCount(c, tools);
    UniqueSubset(Collected(c, |Route(c)|), c.request.evidence);
  }

  lemma {:induction false} UniqueSize(evidence: seq<Evidence>)
    requires UniqueIds(evidence)
    ensures |set e | e in evidence| == |evidence|
  {
    if evidence != [] {
      var k := |evidence| - 1;
      UniqueSize(evidence[..k]);
      assert (set e | e in evidence) == (set e | e in evidence[..k]) + {evidence[k]};
    }
  }

  lemma UniqueSubset(a: seq<Evidence>, b: seq<Evidence>)
    requires UniqueIds(a) && UniqueIds(b) && forall e :: e in a ==> e in b
    ensures |a| <= |b|
  {
    hide UniqueIds;
    UniqueSize(a);
    UniqueSize(b);
    Order.SubsetSize(set e | e in a, set e | e in b);
  }

  // ----- Runs that never crash

  /** Enough room for the claims of every reply, and for its citations. */
  ghost predicate ModestReply(c: Setting, k: nat)
  {
    c.provider(k).Replied? ==>
      && |c.provider(k).output.claims| * |Route(c)| <= 80
      && |AllCitations(c.provider(k).output.claims)| <= 64
  }

  lemma {:induction false} ClaimsMore(outputs: seq<NodeOutput>, o: NodeOutput)
    ensures AllClaims(outputs + [o]) == AllClaims(outputs) + o.claims
  {
  }

  lemma {:induction false} ClaimsBounded(c: Setting, k: nat)
    requires forall j: nat :: ModestReply(c, j)
    ensures |AllClaims(Replies(c, k))| * |Route(c)| <= k * 80
  {
    hide AllClaims, AllCitations;
    if k == 0 {
      assert AllClaims([]) == [] by { NoClaims(); }
    } else {
      ClaimsBounded(c, k - 1);
      assert ModestReply(c, k - 1);
      if c.provider(k - 1).Replied? {
        ClaimsMore(Replies(c, k - 1), c.provider(k - 1).output);
      } else {
        assert Replies(c, k) == Replies(c, k - 1);
      }
    }
  }

  lemma NoClaims()
    ensures AllClaims([]) == []
  {
  }

  lemma FairShare(claims: nat, nodes: nat)
    requires nodes > 0 && claims * nodes <= nodes * 80
    ensures claims <= 80
  {
  }

  lemma ModestCited(c: Setting, k: nat)
    requires ModestReply(c, k)
    ensures !TooManyCited(c, k)
  {
    hide AllCitations;
  }

  /** With at most 64 references in the request and modest replies no run crashes, whatever happens outside. */
  lemma ModestNeverOversized(c: Setting)
    requires c.Valid() && |c.request.evidence| <= 64 && forall k: nat :: ModestReply(c, k)
    ensures !Oversized(c)
  {
    hide AllClaims, AllCitations, Collected, Replies, Route, ModestReply, TooManyCited, Request.Valid, Setting.Valid;
    CollectedCount(c);
    ClaimsBounded(c, |Route(c)|);
    FairShare(|AllClaims(Replies(c, |Route(c)|))|, |Route(c)|);
    forall k: nat
      ensures !TooManyCited(c, k)
    {
      ModestCited(c, k);
    }
  }

  // ----- A run that crashes

  function NodeNumber(k: nat): Node
  {
    if k == 0 then ChangeAnalyst else if k == 1 then HistoricalInvestigator else if k == 2 then RiskSynthesizer
    else if k == 3 then TestPlanner else ExecutionReader
  }

  /** Every reply makes twenty hypotheses, as many as the contracts allow. */
  function Talkative(k: nat): ProviderReply
  {
    Replied(NodeOutput(NodeNumber(k), seq(20, i => Claim([], {}, true)),
                       ProviderUsage(1, 1, 1), Wrappers.None))
  }

  const FULL := Limits(32, 32, 16, 262_144, 32_768, 100_000_000, 600, 300, 50)

  /** One reference, about an execution, so that five nodes ask the provider. */
  const CROWDED := Setting(Request([Evidence("run", Execution, {"execution:passed"})], Ship, FULL), {}, Talkative)

  const QUIET := Outside((k: nat) => 0, (k: nat) => false)

  lemma CrowdedRoute()
    ensures CROWDED.Valid() && |Route(CROWDED)| == 5
    ensures forall k :: 0 <= k < 5 ==> Route(CROWDED)[k] == NodeNumber(k)
  {
    assert CROWDED.request.evidence[0] in CROWDED.request.evidence;
  }

  lemma {:induction false} TalkativeTotals(k: nat)
    ensures |AllClaims(Replies(CROWDED, k))| == k * 20
    ensures Spent(CROWDED, k) == ProviderUsage(k, k, k)
  {
    if k > 0 {
      TalkativeTotals(k - 1);
      assert CROWDED.provider(k - 1) == Talkative(k - 1);
      ClaimsMore(Replies(CROWDED, k - 1), Talkative(k - 1).output);
    }
  }

  lemma CrowdedCalls()
    ensures ToolCalls(CROWDED, 5) <= 6
  {
    hide HasExecution;
    CrowdedRoute();
    assert ToolCalls(CROWDED, 2) == ToolCalls(CROWDED, 1) + 1;
    assert ToolCalls(CROWDED, 4) == ToolCalls(CROWDED, 3) + 1 == ToolCalls(CROWDED, 2) + 2;
  }

  /** Nothing stops this run, and its hundred claims are too many. */
  lemma CrowdedCrashes()
    ensures CROWDED.Valid() && Calm(CROWDED, QUIET) && Oversized(CROWDED)
  {
    hide Route, AllClaims, Replies, Spent, ToolCalls;
    CrowdedRoute();
    CrowdedCalls();
    TalkativeTotals(5);
    forall k | 0 <= k < 5
      ensures Affordable(CROWDED, k) && !ProviderFailed(CROWDED, Route(CROWDED)[k], k)
    {
      TalkativeTotals(k);
      TalkativeTotals(k + 1);
    }
  }

  method CrashingRun() returns (r: AgentGraph.Result)
    ensures r.Crashed?
  {
    hide *;
    CrowdedCrashes();
    var guard;
    ghost var final, stopped, entered;
    r, guard, final, stopped, entered := RunInvestigation(CROWDED, QUIET);
  }
}
