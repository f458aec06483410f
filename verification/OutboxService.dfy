/** The services, proved to be steps of the outbox. */
module OutboxService {
  import opened Outbox

  datatype RelayResult = Relayed(published: nat, failed: nat) | ValueError | Died

  ghost predicate Listable(s: State, org: string, id: nat)
  {
    Selectable(s, org, id) && s.events[id].attempts < s.events[id].maxAttempts
  }

  class Database {
    var jobs: map<string, Job>
    var events: map<nat, Event>
    var sent: seq<Message>
    var nextEvent: nat

    function View(): State
      reads this
    {
      State(jobs, events, sent, nextEvent)
    }

    constructor ()
      ensures View() == Initial
    {
      jobs, events, sent, nextEvent := map[], map[], [], 0;
    }

    method CreateJobWithOutbox(org: string, key: string, jobType: JobType, hasSnapshot: bool, id: string)
      returns (created: bool)
      modifies this
      ensures View() == Create(old(View()), org, key, jobType, hasSnapshot, id)
      ensures created <==> !KeyTaken(old(View()), key) && id !in old(jobs)
    {
      created := !(exists j :: j in jobs && jobs[j].key == key) && id !in jobs;
      if created {
        jobs := jobs[id := Job(org, key, jobType, hasSnapshot, Pending, 0, MAX_ATTEMPTS, "", "")];
        events := events[nextEvent := Event(org, id, TOPIC, org, id, Waiting, 0, MAX_ATTEMPTS, "")];
        nextEvent := nextEvent + 1;
      }
    }

    /** The ids a relay starts from: waiting events of the organization with attempts left, oldest first. */
    method ListWaiting(org: string, limit: nat) returns (ids: seq<nat>)
      ensures |ids| <= limit
      ensures forall i, j :: 0 <= i < j < |ids| ==> ids[i] < ids[j]
      ensures forall id :: id in ids ==> Listable(View(), org, id)
      ensures |ids| < limit ==> forall id: nat :: id < nextEvent && Listable(View(), org, id) ==> id in ids
      ensures forall id: nat, i :: id < nextEvent && Listable(View(), org, id) && id !in ids && 0 <= i < |ids| ==>
                                     ids[i] < id
    {
      ids := [];
      var id := 0;
      while id < nextEvent && |ids| < limit
        invariant |ids| <= limit
        invariant forall i, j :: 0 <= i < j < |ids| ==> ids[i] < ids[j]
        invariant forall i :: 0 <= i < |ids| ==> ids[i] < id && Listable(View(), org, ids[i])
        invariant forall i: nat :: i < id && Listable(View(), org, i) ==> i in ids
      {
        if id in events && events[id].state == Waiting && events[id].org == org
           && events[id].attempts < events[id].maxAttempts {
          ids := ids + [id];
          assert ids[|ids|-1] == id;
        }
        id := id + 1;
      }
    }

    /** One transaction of the relay loop. */
    method RelayOne(org: string, id: nat, p: Publishing) returns (published: bool, failed: bool)
      modifies this
      ensures View() == Relay(old(View()), org, id, p)
      ensures published <==> Selectable(old(View()), org, id) && p.Accepted?
      ensures failed <==> Selectable(old(View()), org, id) && p.BrokerError?
    {
      published, failed := false, false;
      if id !in events || events[id].state != Waiting || events[id].org != org {
        return;
      }
      var event := events[id];
      var message := Message(event.topic, event.payloadOrg, event.payloadJob, event.job);
      if p.Accepted? || p.delivered {
        sent := sent + [message];
      }
      match p
      case Crash(_) =>
        assert events[id := event] == events;
      case BrokerError(_) =>
        event := event.(attempts := event.attempts + 1, error := "broker_unavailable");
        if event.attempts >= event.maxAttempts {
          event := event.(state := Abandoned);
        }
        events := events[id := event];
        failed := true;
      case Accepted =>
        event := event.(attempts := event.attempts + 1, state := Published, error := "");
        events := events[id := event];
        published := true;
    }

    /** The relay loop, alone on the database; `publisher(k)` is what becomes of the k-th id of the list. */
    method RelayOutbox(org: string, limit: int, publisher: nat -> Publishing)
      returns (r: RelayResult, ids: seq<nat>)
      modifies this
      ensures r == ValueError <==> limit < 1 || limit > 1_000
      ensures r == ValueError ==> View() == old(View())
      ensures |ids| <= 1_000 && forall id :: id in ids ==> Selectable(old(View()), org, id)
      ensures r.Relayed? ==> Explains(old(View()), View(), org, ids, publisher, |ids|, r.published, r.failed)
      ensures r == Died ==>
        exists n :: 0 <= n < |ids| && publisher(n).Crash? &&
                      View() == RelaySome(old(View()), org, ids, publisher, n + 1)
    {
      ids := [];
      if limit < 1 || limit > 1_000 {
        return ValueError, ids;
      }
      ids := ListWaiting(org, limit);
      ghost var start := View();
      assert PublishedSince(start, start) == {} && FailedSince(start, start) == {};
      assert forall id :: id in ids ==> Selectable(start, org, id);
      var published, failed := 0, 0;
      for k := 0 to |ids|
        invariant start == old(View())
        invariant Explains(start, View(), org, ids, publisher, k, published, failed)
      {
        assert RelaySome(start, org, ids, publisher, k + 1) == Relay(View(), org, ids[k], publisher(k));
        StillWaiting(start, org, ids, publisher, k);
        if publisher(k).Crash? {
          var _, _ := RelayOne(org, ids[k], publisher(k));
          return Died, ids;
        }
        ghost var before := View();
        var done, refused := RelayOne(org, ids[k], publisher(k));
        OneMoreExplained(start, before, org, ids, publisher, k, published, failed);
        published := published + if done then 1 else 0;
        failed := failed + if refused then 1 else 0;
      }
      return Relayed(published, failed), ids;
    }

    /** The worker: RUNNING is saved inside the transaction, and a crash restores the rows from before it. */
    method ProcessIngestionJob(org: string, id: string, active: bool, analysis: Analysis) returns (verdict: Verdict)
      modifies this
      ensures (View(), verdict) == Process(old(View()), org, id, active, analysis)
    {
      if id !in jobs || jobs[id].org != org || !active {
        return NotFound;
      }
      if jobs[id].state == Completed {
        return Duplicate;
      }
      if jobs[id].state == Failed || jobs[id].attempts >= jobs[id].maxAttempts {
        return Terminal;
      }
      var savepoint := jobs;
      var job := jobs[id].(state := Running, attempts := jobs[id].attempts + 1);
      jobs := jobs[id := job];
      var outcome := "lifecycle_recorded";
      if job.jobType == PullRequestSnapshot {
        if !job.hasSnapshot {
          job := job.(state := Failed, error := "snapshot_missing");
          jobs := jobs[id := job];
          assert jobs == savepoint[id := job];
          return Rejected;
        }
        match analysis
        case InvalidInput =>
          job := job.(state := Failed, error := "change_intelligence_invalid_input");
          jobs := jobs[id := job];
          assert jobs == savepoint[id := job];
          return Rejected;
        case Crashed =>
          jobs := savepoint;
          return RolledBack;
        case Available => outcome := "change_intelligence_complete";
        case Partial => outcome := "change_intelligence_partial";
      }
      job := job.(state := Completed, outcome := outcome);
      jobs := jobs[id := job];
      assert jobs == savepoint[id := job];
      verdict := Done;
    }
  }

  // ----- The loop as a series of steps

  /** The first `n` ids of the list, one transaction each. */
  function RelaySome(s: State, org: string, ids: seq<nat>, publisher: nat -> Publishing, n: nat): State
    requires n <= |ids|
  {
    if n == 0 then s else Relay(RelaySome(s, org, ids, publisher, n - 1), org, ids[n-1], publisher(n - 1))
  }

  function PublishedSince(s: State, s': State): set<nat>
  {
    set i | i in s.events && i in s'.events && s.events[i].state == Waiting && s'.events[i].state == Published
  }

  function FailedSince(s: State, s': State): set<nat>
  {
    set i | i in s.events && i in s'.events && s'.events[i].attempts == s.events[i].attempts + 1
            && s'.events[i].state != Published
  }

  /** The state is that of the first `n` steps, and the counters count the events they published and failed. */
  ghost predicate Explains(s: State, s': State, org: string, ids: seq<nat>, publisher: nat -> Publishing, n: nat,
                           published: nat, failed: nat)
  {
    && n <= |ids|
    && s' == RelaySome(s, org, ids, publisher, n)
    && (forall k :: 0 <= k < n ==> !publisher(k).Crash?)
    && published == |PublishedSince(s, s')|
    && failed == |FailedSince(s, s')|
  }

  ghost predicate Distinct(ids: seq<nat>)
  {
    forall i, j :: 0 <= i < j < |ids| ==> ids[i] != ids[j]
  }

  /** An id whose turn has not come is as it was when the list was made. */
  lemma {:induction false} Untouched(s: State, org: string, ids: seq<nat>, publisher: nat -> Publishing,
                                    n: nat, id: nat)
    requires n <= |ids| && id in s.events && id !in ids[..n]
    ensures id in RelaySome(s, org, ids, publisher, n).events
    ensures RelaySome(s, org, ids, publisher, n).events[id] == s.events[id]
  {
    if n > 0 {
      assert ids[..n] == ids[..n-1] + [ids[n-1]];
      Untouched(s, org, ids, publisher, n - 1, id);
    }
  }

  lemma {:induction false} StillWaiting(s: State, org: string, ids: seq<nat>, publisher: nat -> Publishing, n: nat)
    requires n < |ids| && Distinct(ids) && Selectable(s, org, ids[n])
    ensures Selectable(RelaySome(s, org, ids, publisher, n), org, ids[n])
    ensures RelaySome(s, org, ids, publisher, n).events[ids[n]] == s.events[ids[n]]
  {
    Untouched(s, org, ids, publisher, n, ids[n]);
  }

  /** One step on an event still as it was moves that event alone between the two sets. */
  lemma StepCounts(s: State, before: State, org: string, id: nat, p: Publishing)
    requires Selectable(s, org, id) && Selectable(before, org, id) && before.events[id] == s.events[id]
    requires !p.Crash?
    ensures var after := Relay(before, org, id, p);
            && PublishedSince(s, after) == PublishedSince(s, before) + (if p.Accepted? then {id} else {})
            && FailedSince(s, after) == FailedSince(s, before) + (if p.BrokerError? then {id} else {})
    ensures id !in PublishedSince(s, before) && id !in FailedSince(s, before)
  {
  }

  lemma OneMoreExplained(s: State, before: State, org: string, ids: seq<nat>, publisher: nat -> Publishing, k: nat,
                         published: nat, failed: nat)
    requires Explains(s, before, org, ids, publisher, k, published, failed)
    requires k < |ids| && Distinct(ids) && Selectable(s, org, ids[k]) && !publisher(k).Crash?
    ensures var p := publisher(k);
            Explains(s, Relay(before, org, ids[k], p), org, ids, publisher, k + 1,
                     published + if p.Accepted? then 1 else 0, failed + if p.BrokerError? then 1 else 0)
  {
    StillWaiting(s, org, ids, publisher, k);
    StepCounts(s, before, org, ids[k], publisher(k));
    hide Relay, PublishedSince, FailedSince, Selectable;
  }
}
