/** What every run of the S3 client guarantees. */
module S3Guarantees {
  import opened ObjectStorage
  import opened S3Protocol

  lemma StepKeepsObjects(sha: Bytes -> string, s: System, a: Action, key: string)
    requires key in s.bucket
    ensures key in Step(sha, s, a).bucket && Step(sha, s, a).bucket[key] == s.bucket[key]
  {
  }

  /** Once stored, an object never changes, whatever happens next. */
  lemma {:induction false} ObjectsNeverChange(sha: Bytes -> string, before: seq<Action>,
    after: seq<Action>, key: string)
    requires key in Run(sha, before).bucket
    ensures key in Run(sha, before + after).bucket
    ensures Run(sha, before + after).bucket[key] == Run(sha, before).bucket[key]
  {
    if after == [] {
      assert before + after == before;
    } else {
      var a := after[|after|-1];
      hide Step;
      assert (before + after)[..|before + after|-1] == before + after[..|after|-1];
      ObjectsNeverChange(sha, before, after[..|after|-1], key);
      StepKeepsObjects(sha, Run(sha, before + after[..|after|-1]), a, key);
    }
  }

  /** A call that did not give up is logged with what it returned, between its start and its end. */
  ghost predicate TookEffect(s: System, r: Returned)
  {
    !GaveUp(r.op.req, r.outcome) ==> exists i :: Logged(s.log, i, r.op, r.outcome) && i < r.end
  }

  /** A put that gave up is logged, if at all, as a success; one that is not logged changed nothing. */
  ghost predicate AtMostStored(s: System, r: Returned)
  {
    GaveUp(r.op.req, r.outcome) && r.op.req.Put? ==>
      forall i :: 0 <= i < |s.log| && s.log[i].op == r.op.id ==> s.log[i].outcome == Described(Expected(r.op.req))
  }

  /** The log explains the bucket and every returned call. */
  ghost predicate Linearized(sha: Bytes -> string, s: System)
  {
    && Legal(sha, s.log)
    && Replay(sha, s.log) == Abstract(s.bucket)
    && (forall i, j :: 0 <= i < j < |s.log| ==> s.log[i].op != s.log[j].op)
    && (forall id: nat :: id in s.returned ==> TookEffect(s, s.returned[id]) && AtMostStored(s, s.returned[id]))
  }

  lemma {:induction false} EveryRunLinearizes(sha: Bytes -> string, actions: seq<Action>)
    requires Injective(sha)
    ensures Linearized(sha, Run(sha, actions))
  {
    var s := Run(sha, actions);
    RunKeeps(sha, actions);
    forall id: nat | id in s.returned
      ensures TookEffect(s, s.returned[id]) && AtMostStored(s, s.returned[id])
    {
      ReturnExplained(sha, s, id);
    }
  }

  lemma ReturnExplained(sha: Bytes -> string, s: System, id: nat)
    requires Inv(sha, s) && id in s.returned
    ensures TookEffect(s, s.returned[id]) && AtMostStored(s, s.returned[id])
  {
    var r := s.returned[id];
    assert ReturnOk(s, id, r);
    forall i | 0 <= i < |s.log| && s.log[i].op == id && GaveUp(r.op.req, r.outcome) && r.op.req.Put?
      ensures s.log[i].outcome == Described(Expected(r.op.req))
    {
      OnlyEntry(sha, s, r, i);
    }
  }

  /** The one entry of a put never reports that the object is missing or the store unavailable. */
  lemma OnlyEntry(sha: Bytes -> string, s: System, r: Returned, i: nat)
    requires LogOk(sha, s) && ReturnOk(s, r.op.id, r)
    requires i < |s.log| && s.log[i].op == r.op.id && GaveUp(r.op.req, r.outcome) && r.op.req.Put?
    ensures s.log[i].outcome == Described(Expected(r.op.req))
  {
    LegalAt(sha, s.log, i);
    forall j, o | Logged(s.log, j, r.op, o)
      ensures j == i
    {
      OneEntryEach(sha, s, i, j);
    }
  }

  lemma OneEntryEach(sha: Bytes -> string, s: System, i: nat, j: nat)
    requires LogOk(sha, s) && i < |s.log| && j < |s.log| && s.log[i].op == s.log[j].op
    ensures i == j
  {
  }

  /** A call that was answered before another was made takes effect before it. */
  lemma {:induction false} RealTimeOrder(sha: Bytes -> string, actions: seq<Action>, a: nat, b: nat, i: nat, j: nat)
    requires Injective(sha)
    requires var s := Run(sha, actions);
             && a in s.returned && !GaveUp(s.returned[a].op.req, s.returned[a].outcome)
             && b in s.returned && s.returned[a].end <= s.returned[b].op.start
             && i < |s.log| && j < |s.log| && s.log[i].op == a && s.log[j].op == b
    ensures i < j
  {
    var s := Run(sha, actions);
    RunKeeps(sha, actions);
    assert ReturnOk(s, a, s.returned[a]) && ReturnOk(s, b, s.returned[b]);
  }

  lemma {:induction false} LegalAt(sha: Bytes -> string, log: seq<Entry>, i: nat)
    requires Legal(sha, log) && i < |log|
    ensures log[i].outcome == Atomic(sha, Replay(sha, log[..i]), log[i].req).1
    decreases |log|
  {
    if i < |log| - 1 {
      LegalAt(sha, log[..|log|-1], i);
      assert log[..|log|-1][..i] == log[..i];
    }
  }

  lemma {:induction false} ReplayGrows(sha: Bytes -> string, log: seq<Entry>, i: nat, key: string)
    requires i <= |log| && key in Replay(sha, log[..i])
    ensures key in Replay(sha, log) && Replay(sha, log)[key] == Replay(sha, log[..i])[key]
    decreases |log|
  {
    if i < |log| {
      assert log[..|log|-1][..i] == log[..i];
      ReplayGrows(sha, log[..|log|-1], i, key);
    } else {
      assert log[..i] == log;
    }
  }

  /** A logged put that succeeded left its own object, and it is there to stay. */
  lemma {:induction false} StoredByPut(sha: Bytes -> string, log: seq<Entry>, i: nat)
    requires Legal(sha, log) && i < |log| && log[i].req.Put? && log[i].outcome.Described?
    ensures var r := log[i].req;
            && log[i].outcome == Described(Expected(r))
            && r.key in Replay(sha, log) && Replay(sha, log)[r.key] == Stored(r.data, Expected(r))
  {
    LegalAt(sha, log, i);
    assert log[..i+1][..i] == log[..i];
    ReplayGrows(sha, log, i + 1, log[i].req.key);
  }

  /** Which entry of the log a call that returned metadata is. */
  lemma ReturnedEntry(s: System, id: nat) returns (i: nat)
    requires id in s.returned && ReturnOk(s, id, s.returned[id]) && s.returned[id].outcome.Described?
    ensures i < |s.log| && s.log[i].req == s.returned[id].op.req && s.log[i].outcome == s.returned[id].outcome
  {
    i :| Logged(s.log, i, s.returned[id].op, s.returned[id].outcome);
  }

  /** A put that returns reports its own metadata, and the bucket holds exactly its object. */
  lemma {:induction false} PutReturnsItsOwn(sha: Bytes -> string, actions: seq<Action>, id: nat)
    requires Injective(sha)
    requires var s := Run(sha, actions);
             id in s.returned && s.returned[id].op.req.Put? && s.returned[id].outcome.Described?
    ensures var s := Run(sha, actions);
            var r := s.returned[id].op.req;
            && s.returned[id].outcome == Described(Expected(r))
            && r.key in s.bucket && s.bucket[r.key] == Remote(r.data, r.contentType, r.sha256)
  {
    hide Run, PhaseOk, ReturnOk, Legal, Replay, ValidKey, WellStored, Injective;
    var s := Run(sha, actions);
    RunKeeps(sha, actions);
    assert ReturnOk(s, id, s.returned[id]);
    var i := ReturnedEntry(s, id);
    StoredByPut(sha, s.log, i);
  }

  /** Two puts of different objects under one key never both return. */
  lemma {:induction false} ConflictingPutsNeverBothReturn(sha: Bytes -> string, actions: seq<Action>, a: nat, b: nat)
    requires Injective(sha)
    requires var s := Run(sha, actions);
             && a in s.returned && s.returned[a].op.req.Put? && s.returned[a].outcome.Described?
             && b in s.returned && s.returned[b].op.req.Put? && s.returned[b].outcome.Described?
             && s.returned[a].op.req.key == s.returned[b].op.req.key
    ensures var s := Run(sha, actions); s.returned[a].op.req == s.returned[b].op.req
  {
    PutReturnsItsOwn(sha, actions, a);
    PutReturnsItsOwn(sha, actions, b);
  }

  /** The key held nothing at some moment between the start and the end of the call. */
  ghost predicate WasMissing(sha: Bytes -> string, s: System, r: Returned)
  {
    exists i :: r.op.start <= i < r.end <= |s.log| && r.op.req.key !in Replay(sha, s.log[..i])
  }

  /**
   * A get never sees bytes that disagree with the metadata it read before: it returns what the bucket holds, unless the
   * key held nothing while it ran.
   */
  lemma {:induction false} GetReturnsStoredBytes(sha: Bytes -> string, actions: seq<Action>, id: nat)
    requires Injective(sha)
    requires var s := Run(sha, actions);
             id in s.returned && s.returned[id].op.req.Get? && s.returned[id].outcome != Failed(Unavailable)
    ensures var s := Run(sha, actions);
            var r := s.returned[id];
            var key := r.op.req.key;
            if !ValidKey(key) then r.outcome == Failed(InvalidInput)
            else if r.outcome == Failed(NotFound) then WasMissing(sha, s, r)
            else key in s.bucket && r.outcome == Content(s.bucket[key].data)
  {
    var s := Run(sha, actions);
    RunKeeps(sha, actions);
    assert ReturnOk(s, id, s.returned[id]);
    var key := s.returned[id].op.req.key;
    var i :| Logged(s.log, i, s.returned[id].op, s.returned[id].outcome) && i < s.returned[id].end;
    LegalAt(sha, s.log, i);
    if ValidKey(key) && key in Replay(sha, s.log[..i]) {
      ReplayGrows(sha, s.log, i, key);
      assert WellStored(sha, key, s.bucket[key]);
    }
  }
}
