/** Proxy labels of observed outcomes. */
module Labels {
  import opened Wrappers

  /** Moments are counted in one unit throughout; this many of them make a day. */
  const DAY := 86_400

  datatype Kind = ExplicitRevert | Hotfix | RapidFollowupFix | FailedRequiredCheck | NoProxyObserved | Ambiguous

  const POSITIVE_KINDS := {ExplicitRevert, Hotfix, RapidFollowupFix, FailedRequiredCheck}

  datatype ProxyLabel = Positive | Negative | Unknown

  datatype Outcome = Outcome(kind: Kind, observedAt: Option<int>)

  datatype Rule =
    | IncompleteWindow
    | MissingOutcome
    | AmbiguousOutcome
    | MissingObservationTime
    | OutsideWindow
    | Observed(kind: Kind)

  datatype Assignment = Assignment(proxy: ProxyLabel, rule: Rule, kind: Option<Kind>, observedAt: Option<int>)

  /** The source's admission, as far as labels go. */
  datatype Admission = Admission(asOf: int, observationWindowDays: nat)

  function WindowEnd(predictionTime: int, admission: Admission): int
  {
    predictionTime + admission.observationWindowDays * DAY
  }

  function Recorded(proxy: ProxyLabel, rule: Rule, outcome: Outcome): Result<Assignment>
  {
    Ok(Assignment(proxy, rule, Some(outcome.kind), outcome.observedAt))
  }

  function AssignProxyLabel(predictionTime: int, outcome: Option<Outcome>, admission: Admission): Result<Assignment>
  {
    var windowEnd := WindowEnd(predictionTime, admission);
    if windowEnd > admission.asOf then
      if outcome.Some? then Recorded(Unknown, IncompleteWindow, outcome.value)
      else Ok(Assignment(Unknown, IncompleteWindow, None, None))
    else if outcome.None? then Ok(Assignment(Unknown, MissingOutcome, None, None))
    else
      var o := outcome.value;
      if o.kind == Ambiguous then Recorded(Unknown, AmbiguousOutcome, o)
      else if o.observedAt.None? then Recorded(Unknown, MissingObservationTime, o)
      else if o.observedAt.value < predictionTime then ValueError
      else if o.observedAt.value > admission.asOf then ValueError
      else if o.observedAt.value > windowEnd then Recorded(Unknown, OutsideWindow, o)
      else if o.kind in POSITIVE_KINDS then Recorded(Positive, Observed(o.kind), o)
      else if o.observedAt.value != windowEnd then ValueError
      else Recorded(Negative, Observed(o.kind), o)
  }

  /** An outcome seen at `at`, no later than the end of a window that had closed by `asOf`. */
  ghost predicate SeenInClosedWindow(predictionTime: int, at: int, admission: Admission)
  {
    predictionTime <= at <= predictionTime + admission.observationWindowDays * 86_400 <= admission.asOf
  }

  /** Exactly which outcomes make a label, and which are refused. */
  lemma LabelMeans(predictionTime: int, outcome: Option<Outcome>, admission: Admission)
    ensures var r := AssignProxyLabel(predictionTime, outcome, admission);
            var timed := outcome.Some? && outcome.value.observedAt.Some?;
            var end := predictionTime + admission.observationWindowDays * 86_400;
            && (r.Ok? && r.value.proxy == Positive <==>
                  timed && outcome.value.kind !in {NoProxyObserved, Ambiguous}
                  && SeenInClosedWindow(predictionTime, outcome.value.observedAt.value, admission))
            && (r.Ok? && r.value.proxy == Negative <==>
                  timed && outcome.value.kind == NoProxyObserved
                  && outcome.value.observedAt.value == end <= admission.asOf)
            && (r.ValueError? <==>
                  timed && outcome.value.kind != Ambiguous && end <= admission.asOf
                  && var at := outcome.value.observedAt.value;
                     at < predictionTime || at > admission.asOf
                     || (outcome.value.kind == NoProxyObserved && at < end))
            && (r.Ok? && r.value.proxy != Unknown ==> r.value.rule == Observed(outcome.value.kind))
            && (r.Ok? && outcome.Some? ==>
                  r.value.observedAt == outcome.value.observedAt && r.value.kind == Some(outcome.value.kind))
            && (r.Ok? && outcome.None? ==> r.value.observedAt == None && r.value.kind == None)
  {
  }

  /** Which reason an unknown label carries: the first of these that applies. */
  lemma UnknownMeans(predictionTime: int, outcome: Option<Outcome>, admission: Admission)
    requires var r := AssignProxyLabel(predictionTime, outcome, admission); r.Ok? && r.value.proxy == Unknown
    ensures var rule := AssignProxyLabel(predictionTime, outcome, admission).value.rule;
            var end := predictionTime + admission.observationWindowDays * 86_400;
            var closed := end <= admission.asOf;
            var ambiguous := outcome.Some? && outcome.value.kind == Ambiguous;
            && (rule == IncompleteWindow <==> !closed)
            && (rule == MissingOutcome <==> closed && outcome.None?)
            && (rule == AmbiguousOutcome <==> closed && ambiguous)
            && (rule == MissingObservationTime <==>
                  closed && outcome.Some? && !ambiguous && outcome.value.observedAt.None?)
            && (rule == OutsideWindow <==>
                  closed && outcome.Some? && !ambiguous && outcome.value.observedAt.Some?
                  && end < outcome.value.observedAt.value <= admission.asOf)
  {
  }
}
