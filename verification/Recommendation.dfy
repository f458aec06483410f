/** The recommendation policy. */
module RecommendationPolicy {
  import opened Wrappers

  datatype Recommendation = Ship | Review | Hold | Unknown

  datatype Status = Available | Missing | Failed

  datatype Component = Component(status: Status, fact: string, evidenceIds: seq<string>, deterministicHold: bool)

  const MUTATION_REVIEW_THRESHOLD_PERCENT := 50

  /** Six mandatory components, in the order of `NAMES`. */
  datatype Inputs = Inputs(components: seq<Component>, mutationScore: Option<int>,
    llmSuggestion: Option<Recommendation>)
  {
    /** What the constructors of the inputs check. */
    ghost predicate Valid()
    {
      && |components| == |NAMES|
      && (forall c :: c in components ==>
            |c.evidenceIds| <= 32 && (c.deterministicHold ==> c.status == Available))
      && (mutationScore.Some? ==> 0 <= mutationScore.value <= 100)
      && (components[5].status == Available ==> mutationScore.Some?)
    }
  }

  const NAMES: seq<string> := ["model_risk", "retrieval", "generated_tests", "execution", "differential", "mutation"]

  datatype Reason = Held(name: string) | Unavailable(name: string, status: Status) | LowMutationScore | NeedsReview
    | AllClear

  datatype Decision = Decision(recommendation: Recommendation, reasons: seq<Reason>, evidenceIds: set<string>)

  // ----- The policy as it branches

  function Holds(cs: seq<Component>, names: seq<string>): seq<Reason>
    requires |cs| == |names|
  {
    if cs == [] then [] else
    (if cs[0].deterministicHold then [Held(names[0])] else []) + Holds(cs[1..], names[1..])
  }

  function Unavailables(cs: seq<Component>, names: seq<string>): seq<Reason>
    requires |cs| == |names|
  {
    if cs == [] then [] else
    (if cs[0].status != Available then [Unavailable(names[0], cs[0].status)] else [])
    + Unavailables(cs[1..], names[1..])
  }

  predicate FactNeedsReview(fact: string)
  {
    fact in {"review", "warning", "survived"}
  }

  function IdsOf(cs: seq<Component>): set<string>
  {
    set c, id | c in cs && id in c.evidenceIds :: id
  }

  function FuseRecommendation(inputs: Inputs): Decision
    requires |inputs.components| == |NAMES|
  {
    var cs := inputs.components;
    var ids := IdsOf(cs);
    var holds := Holds(cs, NAMES);
    if holds != [] then Decision(Hold, holds, ids) else
    var unavailable := Unavailables(cs, NAMES);
    if unavailable != [] then Decision(Unknown, unavailable, ids)
    else if inputs.mutationScore.Some? && inputs.mutationScore.value < MUTATION_REVIEW_THRESHOLD_PERCENT then
      Decision(Review, [LowMutationScore], ids)
    else if exists c :: c in cs && FactNeedsReview(c.fact) then Decision(Review, [NeedsReview], ids)
    else Decision(Ship, [AllClear], ids)
  }

  // ----- The policy as the maximum of independent cautions

  /** SHIP < REVIEW < UNKNOWN < HOLD. */
  function Caution(r: Recommendation): nat
  {
    match r case Ship => 0 case Review => 1 case Unknown => 2 case Hold => 3
  }

  /** The caution one component asks for on its own. */
  ghost function ComponentCaution(c: Component): nat
  {
    if c.deterministicHold then 3 else if c.status != Available then 2 
    else if c.fact in {"review", "warning", "survived"} then 1 else 0
  }

  ghost function ScoreCaution(score: Option<int>): nat
  {
    if score.Some? && score.value < 50 then 1 else 0
  }

  /** `n` is the largest caution asked for by the score or a component. */
  ghost predicate IsGreatestCaution(inputs: Inputs, n: nat)
  {
    && ScoreCaution(inputs.mutationScore) <= n
    && (forall c :: c in inputs.components ==> ComponentCaution(c) <= n)
    && (n == ScoreCaution(inputs.mutationScore) || exists c :: c in inputs.components && ComponentCaution(c) == n)
  }

  lemma {:induction false} HoldsListed(cs: seq<Component>, names: seq<string>)
    requires |cs| == |names|
    ensures Holds(cs, names) != [] <==> exists c :: c in cs && c.deterministicHold
    ensures forall r :: r in Holds(cs, names) <==>
                        exists i :: 0 <= i < |cs| && cs[i].deterministicHold && r == Held(names[i])
    ensures |Holds(cs, names)| <= |cs|
  {
    if cs != [] {
      HoldsListed(cs[1..], names[1..]);
      assert forall c :: c in cs <==> c == cs[0] || c in cs[1..];
      forall r
        ensures r in Holds(cs, names) <==>
                exists i :: 0 <= i < |cs| && cs[i].deterministicHold && r == Held(names[i])
      {
        if r in Holds(cs[1..], names[1..]) {
          var i :| 0 <= i < |cs[1..]| && cs[1..][i].deterministicHold && r == Held(names[1..][i]);
          assert cs[i+1].deterministicHold && r == Held(names[i+1]);
        }
        if i :| 0 < i < |cs| && cs[i].deterministicHold && r == Held(names[i]) {
          assert cs[1..][i-1].deterministicHold && r == Held(names[1..][i-1]);
        }
      }
    }
  }

  lemma {:induction false} UnavailablesListed(cs: seq<Component>, names: seq<string>)
    requires |cs| == |names|
    ensures Unavailables(cs, names) != [] <==> exists c :: c in cs && c.status != Available
    ensures forall r :: r in Unavailables(cs, names) <==>
                        exists i :: 0 <= i < |cs| && cs[i].status != Available &&
                                    r == Unavailable(names[i], cs[i].status)
    ensures |Unavailables(cs, names)| <= |cs|
  {
    if cs != [] {
      UnavailablesListed(cs[1..], names[1..]);
      assert forall c :: c in cs <==> c == cs[0] || c in cs[1..];
      forall r
        ensures r in Unavailables(cs, names) <==>
                exists i :: 0 <= i < |cs| && cs[i].status != Available && r == Unavailable(names[i], cs[i].status)
      {
        if r in Unavailables(cs[1..], names[1..]) {
          var i :| 0 <= i < |cs[1..]| && cs[1..][i].status != Available &&
                   r == Unavailable(names[1..][i], cs[1..][i].status);
          assert cs[i+1].status != Available && r == Unavailable(names[i+1], cs[i+1].status);
        }
        if i :| 0 < i < |cs| && cs[i].status != Available && r == Unavailable(names[i], cs[i].status) {
          assert cs[1..][i-1].status != Available && r == Unavailable(names[1..][i-1], cs[1..][i-1].status);
        }
      }
    }
  }

  /** The branching policy is the maximum of the cautions of its parts. */
  lemma FusionIsMaximumCaution(inputs: Inputs)
    requires |inputs.components| == |NAMES|
    ensures IsGreatestCaution(inputs, Caution(FuseRecommendation(inputs).recommendation))
  {
    var cs := inputs.components;
    HoldsListed(cs, NAMES);
    UnavailablesListed(cs, NAMES);
    assert cs[0] in cs;
  }

  /** The suggestion of the language model changes nothing. */
  lemma SuggestionIgnored(inputs: Inputs, suggestion: Option<Recommendation>)
    requires |inputs.components| == |NAMES|
    ensures FuseRecommendation(inputs.(llmSuggestion := suggestion)) == FuseRecommendation(inputs)
  {
  }

  /** Replacing one component by a more cautious one never lowers the recommendation. */
  lemma MoreCautiousEvidence(inputs: Inputs, i: nat, c: Component)
    requires |inputs.components| == |NAMES| && i < |NAMES|
    requires ComponentCaution(inputs.components[i]) <= ComponentCaution(c)
    ensures var inputs' := inputs.(components := inputs.components[i := c]);
            Caution(FuseRecommendation(inputs).recommendation) <= Caution(FuseRecommendation(inputs').recommendation)
  {
    var inputs' := inputs.(components := inputs.components[i := c]);
    FusionIsMaximumCaution(inputs);
    FusionIsMaximumCaution(inputs');
    forall d | d in inputs.components
      ensures ComponentCaution(d) <= Caution(FuseRecommendation(inputs').recommendation)
    {
      var j :| 0 <= j < |inputs.components| && inputs.components[j] == d;
      assert inputs'.components[j] in inputs'.components;
    }
  }

  /**
   * A hold names exactly the components that hold, an unknown exactly those unavailable, and there is always a reason.
   * A review is for the score if that is low, and every decision carries the evidence of all components.
   */
  lemma ReasonsExact(inputs: Inputs)
    requires |inputs.components| == |NAMES|
    ensures var d := FuseRecommendation(inputs);
            var names := ["model_risk", "retrieval", "generated_tests", "execution", "differential", "mutation"];
            var low := inputs.mutationScore.Some? && inputs.mutationScore.value < 50;
            && 1 <= |d.reasons| <= 16
            && (d.recommendation == Hold ==> forall r :: r in d.reasons <==>
                  exists i :: 0 <= i < 6 && inputs.components[i].deterministicHold && r == Held(names[i]))
            && (d.recommendation == Unknown ==> forall r :: r in d.reasons <==>
                  exists i :: 0 <= i < 6 && inputs.components[i].status != Available
                              && r == Unavailable(names[i], inputs.components[i].status))
            && (d.recommendation == Review ==> d.reasons == [if low then LowMutationScore else NeedsReview])
            && (d.recommendation == Ship ==> d.reasons == [AllClear])
            && (forall id :: id in d.evidenceIds <==> exists c :: c in inputs.components && id in c.evidenceIds)
  {
    HoldsListed(inputs.components, NAMES);
    UnavailablesListed(inputs.components, NAMES);
  }

  lemma {:induction false} SizeOfIds(ids: seq<string>)
    ensures |set id | id in ids| <= |ids|
  {
    if ids != [] {
      SizeOfIds(ids[1..]);
      assert (set id | id in ids) == {ids[0]} + set id | id in ids[1..];
    }
  }

  lemma {:induction false} IdsBounded(cs: seq<Component>)
    requires forall c :: c in cs ==> |c.evidenceIds| <= 32
    ensures |IdsOf(cs)| <= 32 * |cs|
  {
    if cs == [] {
      assert IdsOf(cs) == {};
    } else {
      IdsBounded(cs[1..]);
      SizeOfIds(cs[0].evidenceIds);
      var own := set id | id in cs[0].evidenceIds;
      assert IdsOf(cs) == own + IdsOf(cs[1..]);
    }
  }

  ghost predicate AllDistinct<T>(s: seq<T>)
  {
    forall i, j :: 0 <= i < j < |s| ==> s[i] != s[j]
  }

  lemma {:induction false} HoldsDistinct(cs: seq<Component>, names: seq<string>)
    requires |cs| == |names| && AllDistinct(names)
    ensures AllDistinct(Holds(cs, names))
  {
    if cs != [] {
      HoldsDistinct(cs[1..], names[1..]);
      HoldsListed(cs[1..], names[1..]);
      var rest := Holds(cs[1..], names[1..]);
      assert forall i :: 0 <= i < |rest| ==> rest[i] in rest;
    }
  }

  lemma {:induction false} UnavailablesDistinct(cs: seq<Component>, names: seq<string>)
    requires |cs| == |names| && AllDistinct(names)
    ensures AllDistinct(Unavailables(cs, names))
  {
    if cs != [] {
      UnavailablesDistinct(cs[1..], names[1..]);
      UnavailablesListed(cs[1..], names[1..]);
      var rest := Unavailables(cs[1..], names[1..]);
      assert forall i :: 0 <= i < |rest| ==> rest[i] in rest;
    }
  }

  lemma NamesDistinct()
    ensures AllDistinct(NAMES)
  {
    assert NAMES[0][1] == 'o' && NAMES[1][0] == 'r' && NAMES[2][0] == 'g';
    assert NAMES[3][0] == 'e' && NAMES[4][0] == 'd' && NAMES[5][0] == 'm' && NAMES[5][1] == 'u';
  }

  /** The decision on valid inputs passes the checks of its own constructor, so the policy never raises. */
  lemma DecisionConstructs(inputs: Inputs)
    requires inputs.Valid()
    ensures var d := FuseRecommendation(inputs);
            1 <= |d.reasons| <= 16 && AllDistinct(d.reasons) && |d.evidenceIds| <= 192
  {
    hide Holds, Unavailables;
    NamesDistinct();
    HoldsListed(inputs.components, NAMES);
    UnavailablesListed(inputs.components, NAMES);
    HoldsDistinct(inputs.components, NAMES);
    UnavailablesDistinct(inputs.components, NAMES);
    IdsBounded(inputs.components);
  }
}
