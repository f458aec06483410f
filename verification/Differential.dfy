/** Two observations compared, on both sides. */
module Differential {
  import opened Wrappers

  datatype Json =
    | Null
    | Bool(flag: bool)
    | Int(number: int)
    | Str(text: string)
    | Array(items: seq<Json>)
    | Object(fields: map<string, Json>)

  datatype WorkloadOutcome = Passed | Failed | Timeout | Unavailable

  datatype Verdict = NoDifference | Difference | BaseFailed | Undecided

  datatype Code =
    | TestsOutcome
    | HttpStatus
    | HttpSchema
    | HttpBody
    | HttpMissing
    | StateSelected
    | EventsSelected

  /** The order in which differences are listed. */
  const CODES := [TestsOutcome, HttpStatus, HttpSchema, HttpBody, HttpMissing, StateSelected, EventsSelected]

  /** A parsed observation. */
  datatype Observation = Observation(
    outcome: WorkloadOutcome, testExitCode: Option<int>, testElapsed: int, probeExitCode: Option<int>,
    probeElapsed: int,
    http: Option<map<string, Json>>, state: Option<map<string, Json>>, events: seq<Json>, stdout: Json, stderr: Json)

  /** The same observation as the document the runner builds and compares. */
  datatype Raw = Raw(outcome: string, http: Json, state: Json, events: Json)

  function OutcomeText(outcome: WorkloadOutcome): string
  {
    match outcome case Passed => "passed" case Failed => "failed"
    case Timeout => "timeout" case Unavailable => "unavailable"
  }

  function Document(o: Observation): Raw
  {
    Raw(OutcomeText(o.outcome),
        if o.http.Some? then Object(o.http.value) else Null,
        if o.state.Some? then Object(o.state.value) else Null,
        Array(o.events))
  }

  /** A field, or null where there is none. */
  function Get(fields: map<string, Json>, key: string): Json
  {
    if key in fields then fields[key] else Null
  }

  /** A state without its time of update. */
  function Selected(state: map<string, Json>): map<string, Json>
  {
    state - {"updated_at"}
  }

  function SelectedState(state: Option<map<string, Json>>): Option<map<string, Json>>
  {
    if state.Some? then Some(Selected(state.value)) else None
  }

  function SelectedJson(state: Json): Json
  {
    if state.Object? then Object(Selected(state.fields)) else state
  }

  /** Whether two observations differ in the fact that `code` stands for. */
  ghost predicate Differs(base: Observation, candidate: Observation, code: Code)
  {
    var both := base.http.Some? && candidate.http.Some?;
    match code
    case TestsOutcome => candidate.outcome != Passed
    case HttpStatus => both && Get(base.http.value, "status") != Get(candidate.http.value, "status")
    case HttpSchema => both && Get(base.http.value, "schema") != Get(candidate.http.value, "schema")
    case HttpBody => both && Get(base.http.value, "body") != Get(candidate.http.value, "body")
    case HttpMissing => base.http.Some? != candidate.http.Some?
    case StateSelected => SelectedState(base.state) != SelectedState(candidate.state)
    case EventsSelected => base.events != candidate.events
  }

  ghost function Listed(base: Observation, candidate: Observation, codes: seq<Code>): seq<Code>
  {
    if codes == [] then [] else
    var k := |codes| - 1;
    var before := Listed(base, candidate, codes[..k]);
    if Differs(base, candidate, codes[k]) then before + [codes[k]] else before
  }

  /** What a comparison must answer: which verdict, and the codes that differ in their fixed order. */
  ghost function Expected(base: Observation, candidate: Observation): (Verdict, seq<Code>)
  {
    if base.outcome != Passed then (BaseFailed, [])
    else if candidate.outcome in {Timeout, Unavailable} then (Undecided, [])
    else
      var differences := Listed(base, candidate, CODES);
      (if differences == [] then NoDifference else Difference, differences)
  }

  lemma {:induction false} ListedMore(base: Observation, candidate: Observation, k: nat)
    requires k < |CODES|
    ensures var before := Listed(base, candidate, CODES[..k]);
            Listed(base, candidate, CODES[..k + 1])
            == if Differs(base, candidate, CODES[k]) then before + [CODES[k]] else before
  {
    hide Differs;
    assert CODES[..k + 1][..k] == CODES[..k];
  }

  lemma {:induction false} NothingListed(base: Observation, candidate: Observation)
    ensures Listed(base, candidate, CODES[..0]) == []
  {
  }

  lemma {:induction false} AllListed(base: Observation, candidate: Observation)
    ensures Listed(base, candidate, CODES[..7]) == Listed(base, candidate, CODES)
  {
    assert CODES[..7] == CODES;
  }

  /** The control plane's comparison of typed observations. */
  method CompareObservations(base: Observation, candidate: Observation)
    returns (verdict: Verdict, differences: seq<Code>)
    ensures (verdict, differences) == Expected(base, candidate)
  {
    hide Listed, Get, SelectedState;
    differences := [];
    if base.outcome != Passed {
      return BaseFailed, [];
    }
    if candidate.outcome in {Timeout, Unavailable} {
      return Undecided, [];
    }
    NothingListed(base, candidate);
    ListedMore(base, candidate, 0);
    if candidate.outcome != Passed {
      differences := differences + [TestsOutcome];
    }
    ListedMore(base, candidate, 1);
    ListedMore(base, candidate, 2);
    ListedMore(base, candidate, 3);
    ListedMore(base, candidate, 4);
    if base.http.Some? && candidate.http.Some? {
      if Get(base.http.value, "status") != Get(candidate.http.value, "status") {
        differences := differences + [HttpStatus];
      }
      if Get(base.http.value, "schema") != Get(candidate.http.value, "schema") {
        differences := differences + [HttpSchema];
      }
      if Get(base.http.value, "body") != Get(candidate.http.value, "body") {
        differences := differences + [HttpBody];
      }
    } else if base.http != candidate.http {
      differences := differences + [HttpMissing];
    }
    ListedMore(base, candidate, 5);
    if SelectedState(base.state) != SelectedState(candidate.state) {
      differences := differences + [StateSelected];
    }
    ListedMore(base, candidate, 6);
    if base.events != candidate.events {
      differences := differences + [EventsSelected];
    }
    AllListed(base, candidate);
    verdict := if differences != [] then Difference else NoDifference;
  }

  const HTTP_KEYS := [("status", HttpStatus), ("schema", HttpSchema), ("body", HttpBody)]

  /** What the runner sees in two documents says which facts differ. */
  lemma DocumentsTell(b: Observation, c: Observation)
    ensures var base, candidate := Document(b), Document(c);
            && (base.outcome == "passed" <==> b.outcome == Passed)
            && (candidate.outcome in {"timeout", "unavailable"} <==> c.outcome in {Timeout, Unavailable})
            && (candidate.outcome != "passed" <==> Differs(b, c, TestsOutcome))
            && (base.http.Object? && candidate.http.Object? ==>
                  !Differs(b, c, HttpMissing)
                  && forall k :: 0 <= k < 3 ==>
                       (Get(base.http.fields, HTTP_KEYS[k].0) != Get(candidate.http.fields, HTTP_KEYS[k].0)
                        <==> Differs(b, c, HTTP_KEYS[k].1)))
            && (!(base.http.Object? && candidate.http.Object?) ==>
                  && !Differs(b, c, HttpStatus) && !Differs(b, c, HttpSchema) && !Differs(b, c, HttpBody)
                  && (base.http != candidate.http <==> Differs(b, c, HttpMissing)))
            && (SelectedJson(base.state) != SelectedJson(candidate.state) <==> Differs(b, c, StateSelected))
            && (base.events != candidate.events <==> Differs(b, c, EventsSelected))
  {
  }

  /** The runner's comparison of the documents of two observations answers the same. */
  method CompareDocuments(base: Raw, candidate: Raw, ghost b: Observation, ghost c: Observation)
    returns (verdict: Verdict, differences: seq<Code>)
    requires base == Document(b) && candidate == Document(c)
    ensures (verdict, differences) == Expected(b, c)
  {
    hide Listed, Differs, Document, Get, SelectedJson;
    DocumentsTell(b, c);
    differences := [];
    if base.outcome != "passed" {
      return BaseFailed, [];
    }
    if candidate.outcome in {"timeout", "unavailable"} {
      return Undecided, [];
    }
    NothingListed(b, c);
    ListedMore(b, c, 0);
    if candidate.outcome != "passed" {
      differences := differences + [TestsOutcome];
    }
    if base.http.Object? && candidate.http.Object? {
      for k := 0 to |HTTP_KEYS|
        invariant differences == Listed(b, c, CODES[..k + 1])
      {
        var (key, code) := HTTP_KEYS[k];
        ListedMore(b, c, k + 1);
        if Get(base.http.fields, key) != Get(candidate.http.fields, key) {
          differences := differences + [code];
        }
      }
      ListedMore(b, c, 4);
    } else {
      ListedMore(b, c, 1);
      ListedMore(b, c, 2);
      ListedMore(b, c, 3);
      ListedMore(b, c, 4);
      if base.http != candidate.http {
        differences := differences + [HttpMissing];
      }
    }
    ListedMore(b, c, 5);
    if SelectedJson(base.state) != SelectedJson(candidate.state) {
      differences := differences + [StateSelected];
    }
    ListedMore(b, c, 6);
    if base.events != candidate.events {
      differences := differences + [EventsSelected];
    }
    AllListed(b, c);
    verdict := if differences != [] then Difference else NoDifference;
  }

  // ---------------------------------------------------------------- what a verdict means

  lemma {:induction false} ListedExact(base: Observation, candidate: Observation, codes: seq<Code>, code: Code)
    ensures code in Listed(base, candidate, codes) <==> code in codes && Differs(base, candidate, code)
  {
    hide Differs;
    if codes != [] {
      var k := |codes| - 1;
      ListedExact(base, candidate, codes[..k], code);
      assert codes == codes[..k] + [codes[k]];
    }
  }

  lemma EveryCode(code: Code)
    ensures code in CODES
  {
  }

  /** The facts that are compared: everything else is masked. */
  ghost predicate SameFacts(a: Observation, b: Observation)
  {
    && a.http.Some? == b.http.Some?
    && (a.http.Some? && b.http.Some? ==>
          && Get(a.http.value, "status") == Get(b.http.value, "status")
          && Get(a.http.value, "schema") == Get(b.http.value, "schema")
          && Get(a.http.value, "body") == Get(b.http.value, "body"))
    && SelectedState(a.state) == SelectedState(b.state)
    && a.events == b.events
  }

  /** Exactly when each verdict is given, and exactly which differences are listed. */
  lemma VerdictMeans(base: Observation, candidate: Observation)
    ensures var (verdict, differences) := Expected(base, candidate);
            && (verdict == BaseFailed <==> base.outcome != Passed)
            && (verdict == Undecided <==> base.outcome == Passed && candidate.outcome in {Timeout, Unavailable})
            && (verdict == NoDifference <==>
                  base.outcome == Passed && candidate.outcome == Passed && SameFacts(base, candidate))
            && (verdict != Difference ==> differences == [])
            && (verdict == Difference ==>
                  forall code :: code in differences <==> Differs(base, candidate, code))
  {
    hide Listed;
    forall code
      ensures code in Listed(base, candidate, CODES) <==> Differs(base, candidate, code)
    {
      EveryCode(code);
      ListedExact(base, candidate, CODES, code);
    }
    var all := Listed(base, candidate, CODES);
    if all == [] {
      assert forall code :: !Differs(base, candidate, code);
      assert !Differs(base, candidate, TestsOutcome) && !Differs(base, candidate, HttpStatus)
        && !Differs(base, candidate, HttpSchema) && !Differs(base, candidate, HttpBody)
        && !Differs(base, candidate, HttpMissing) && !Differs(base, candidate, StateSelected)
        && !Differs(base, candidate, EventsSelected);
    } else {
      assert Differs(base, candidate, all[0]);
    }
  }

  /** A field has the same value on both sides, where a missing field and a null one are the same. */
  ghost predicate SameField(a: map<string, Json>, b: map<string, Json>, key: string)
  {
    && (key in a && key in b ==> a[key] == b[key])
    && (key in a && key !in b ==> a[key] == Null)
    && (key !in a && key in b ==> b[key] == Null)
  }

  /** The two states hold the same under every key but the time of update. */
  ghost predicate SameState(a: map<string, Json>, b: map<string, Json>)
  {
    forall key :: key != "updated_at" ==> (key in a <==> key in b) && (key in a && key in b ==> a[key] == b[key])
  }

  /** What each code says about the two observations. */
  lemma CodesMean(base: Observation, candidate: Observation)
    ensures Differs(base, candidate, TestsOutcome) <==> candidate.outcome != Passed
    ensures Differs(base, candidate, HttpMissing) <==> base.http.None? != candidate.http.None?
    ensures base.http.Some? && candidate.http.Some? ==>
              && (Differs(base, candidate, HttpStatus) <==> !SameField(base.http.value, candidate.http.value, "status"))
              && (Differs(base, candidate, HttpSchema) <==> !SameField(base.http.value, candidate.http.value, "schema"))
              && (Differs(base, candidate, HttpBody) <==> !SameField(base.http.value, candidate.http.value, "body"))
    ensures base.http.None? || candidate.http.None? ==>
              forall code :: code in {HttpStatus, HttpSchema, HttpBody} ==> !Differs(base, candidate, code)
    ensures Differs(base, candidate, StateSelected) <==>
            (base.state.None? != candidate.state.None?
             || (base.state.Some? && candidate.state.Some? && !SameState(base.state.value, candidate.state.value)))
    ensures Differs(base, candidate, EventsSelected) <==> base.events != candidate.events
  {
    if base.state.Some? && candidate.state.Some? {
      StatesMean(base.state.value, candidate.state.value);
    }
  }

  lemma StatesMean(a: map<string, Json>, b: map<string, Json>)
    ensures Selected(a) == Selected(b) <==> SameState(a, b)
  {
    if Selected(a) == Selected(b) {
      forall key | key != "updated_at"
        ensures (key in a <==> key in b) && (key in a && key in b ==> a[key] == b[key])
      {
        assert key in a <==> key in Selected(a);
        assert key in b <==> key in Selected(b);
      }
    }
  }

  /** Where a code stands in a list of differences. */
  ghost function Place(code: Code): nat
  {
    match code case TestsOutcome => 0 case HttpStatus => 1 case HttpSchema => 2 case HttpBody => 3
    case HttpMissing => 4 case StateSelected => 5 case EventsSelected => 6
  }

  /** Differences are listed in the order of the codes, each once. */
  lemma {:induction false} ListedOrdered(base: Observation, candidate: Observation, n: nat)
    requires n <= |CODES|
    ensures var l := Listed(base, candidate, CODES[..n]);
            && (forall i :: 0 <= i < |l| ==> Place(l[i]) < n)
            && (forall i, j :: 0 <= i < j < |l| ==> Place(l[i]) < Place(l[j]))
  {
    hide Differs;
    if n > 0 {
      ListedOrdered(base, candidate, n - 1);
      ListedMore(base, candidate, n - 1);
      assert Place(CODES[n - 1]) == n - 1;
    }
  }

  lemma DifferencesOrdered(base: Observation, candidate: Observation)
    ensures var l := Expected(base, candidate).1;
            forall i, j :: 0 <= i < j < |l| ==> Place(l[i]) < Place(l[j])
  {
    hide Differs, Listed;
    ListedOrdered(base, candidate, |CODES|);
    AllListed(base, candidate);
  }

  lemma {:induction false} ListedSame(
    base: Observation, candidate: Observation, otherBase: Observation, otherCandidate: Observation, codes: seq<Code>)
    requires SameFacts(base, otherBase) && SameFacts(candidate, otherCandidate)
    requires candidate.outcome == otherCandidate.outcome
    ensures Listed(base, candidate, codes) == Listed(otherBase, otherCandidate, codes)
  {
    if codes != [] {
      ListedSame(base, candidate, otherBase, otherCandidate, codes[..|codes| - 1]);
    }
  }

  /** Headers, times of update, timings, exit codes and output never change the answer. */
  lemma MaskedIrrelevant(
    base: Observation, candidate: Observation, otherBase: Observation, otherCandidate: Observation)
    requires base.outcome == otherBase.outcome && candidate.outcome == otherCandidate.outcome
    requires SameFacts(base, otherBase) && SameFacts(candidate, otherCandidate)
    ensures Expected(base, candidate) == Expected(otherBase, otherCandidate)
  {
    ListedSame(base, candidate, otherBase, otherCandidate, CODES);
  }

  /** Which of an HTTP answer's fields and a state's fields are masked. */
  lemma MaskedFields(o: Observation, headers: Json, updatedAt: Json)
    requires o.http.Some? && o.state.Some?
    ensures SameFacts(o, o.(http := Some(o.http.value["headers" := headers]),
                            state := Some(o.state.value["updated_at" := updatedAt])))
  {
    var http := o.http.value["headers" := headers];
    assert "status" != "headers" && "schema" != "headers" && "body" != "headers";
    assert Selected(o.state.value["updated_at" := updatedAt]) == Selected(o.state.value);
  }
}
