/**
 * The transactional outbox. A job and its outbox event are committed together, relays hand events to the broker, and a
 * worker processes what the broker delivers. Each transaction is one step that commits or rolls back.
 */
module Outbox {
  datatype JobType = PullRequestSnapshot | InstallationLifecycle | RepositoryLifecycle

  datatype JobState = Pending | Running | Completed | Failed

  datatype EventState = Waiting | Published | Abandoned

  const MAX_ATTEMPTS: nat := 5
  const TOPIC := "releaseproof.analysis.process_job.v1"

  datatype Job = Job(org: string, key: string, jobType: JobType, hasSnapshot: bool, state: JobState, attempts: nat,
                     maxAttempts: nat, outcome: string, error: string)

  datatype Event = Event(org: string, job: string, topic: string, payloadOrg: string, payloadJob: string,
                         state: EventState, attempts: nat, maxAttempts: nat, error: string)

  datatype Message = Message(topic: string, payloadOrg: string, payloadJob: string, idempotencyKey: string)

  /** The committed rows, jobs by public id and events by row id, and everything the broker has accepted so far. */
  datatype State = State(jobs: map<string, Job>, events: map<nat, Event>, sent: seq<Message>, nextEvent: nat)

  const Initial := State(map[], map[], [], 0)

  /** What becomes of one attempt to publish. */
  datatype Publishing =
    | Accepted                        // the broker takes the message
    | BrokerError(delivered: bool)    // the publisher reports an error, although the broker may have the message
    | Crash(delivered: bool)          // the relay dies before it commits

  /** What analysing a snapshot yields. */
  datatype Analysis = Available | Partial | InvalidInput | Crashed

  // ----- The steps

  function NewJob(org: string, key: string, jobType: JobType, hasSnapshot: bool): Job
  {
    Job(org, key, jobType, hasSnapshot, Pending, 0, MAX_ATTEMPTS, "", "")
  }

  function NewEvent(org: string, job: string): Event
  {
    Event(org, job, TOPIC, org, job, Waiting, 0, MAX_ATTEMPTS, "")
  }

  predicate KeyTaken(s: State, key: string)
  {
    exists j :: j in s.jobs && s.jobs[j].key == key
  }

  /** Creates a job with its event, unless the key is taken; then nothing changes, whoever holds it. */
  function Create(s: State, org: string, key: string, jobType: JobType, hasSnapshot: bool, id: string): State
  {
    if KeyTaken(s, key) || id in s.jobs then s else
    s.(jobs := s.jobs[id := NewJob(org, key, jobType, hasSnapshot)],
       events := s.events[s.nextEvent := NewEvent(org, id)],
       nextEvent := s.nextEvent + 1)
  }

  function MessageOf(e: Event): Message
  {
    Message(e.topic, e.payloadOrg, e.payloadJob, e.job)
  }

  predicate Selectable(s: State, org: string, id: nat)
  {
    id in s.events && s.events[id].state == Waiting && s.events[id].org == org
  }

  function AfterPublishing(e: Event, p: Publishing): Event
  {
    match p
    case Accepted => e.(attempts := e.attempts + 1, state := Published, error := "")
    case BrokerError(_) =>
      e.(attempts := e.attempts + 1, error := "broker_unavailable",
         state := if e.attempts + 1 >= e.maxAttempts then Abandoned else e.state)
    case Crash(_) => e
  }

  /** One transaction of a relay for one id of its list, which may be out of date. */
  function Relay(s: State, org: string, id: nat, p: Publishing): State
  {
    if !Selectable(s, org, id) then s else
    var e := s.events[id];
    var reaches := p.Accepted? || p.delivered;
    s.(events := s.events[id := AfterPublishing(e, p)], sent := if reaches then s.sent + [MessageOf(e)] else s.sent)
  }

  datatype Verdict = NotFound | Duplicate | Terminal | Done | Rejected | RolledBack

  /** What the worker's transaction makes of a job it may process; RUNNING is only ever an intermediate value. */
  function Processed(row: Job, analysis: Analysis): (Job, Verdict)
  {
    var job := row.(state := Running, attempts := row.attempts + 1);
    if job.jobType != PullRequestSnapshot then (job.(state := Completed, outcome := "lifecycle_recorded"), Done)
    else if !job.hasSnapshot then (job.(state := Failed, error := "snapshot_missing"), Rejected)
    else match analysis
      case Available => (job.(state := Completed, outcome := "change_intelligence_complete"), Done)
      case Partial => (job.(state := Completed, outcome := "change_intelligence_partial"), Done)
      case InvalidInput => (job.(state := Failed, error := "change_intelligence_invalid_input"), Rejected)
      case Crashed => (row, RolledBack)
  }

  /** One delivery to the worker, its transaction committed or rolled back. */
  function Process(s: State, org: string, id: string, active: bool, analysis: Analysis): (State, Verdict)
  {
    if id !in s.jobs || s.jobs[id].org != org || !active then (s, NotFound)
    else if s.jobs[id].state == Completed then (s, Duplicate)
    else if s.jobs[id].state == Failed || s.jobs[id].attempts >= s.jobs[id].maxAttempts then (s, Terminal)
    else
      var (job, verdict) := Processed(s.jobs[id], analysis);
      (if verdict == RolledBack then s else s.(jobs := s.jobs[id := job]), verdict)
  }

  datatype Action =
    | CreateJob(org: string, key: string, jobType: JobType, hasSnapshot: bool, id: string)
    | RelayEvent(org: string, event: nat, publishing: Publishing)
    | Deliver(org: string, job: string, active: bool, analysis: Analysis)

  function Step(s: State, a: Action): State
  {
    match a
    case CreateJob(org, key, jobType, hasSnapshot, id) => Create(s, org, key, jobType, hasSnapshot, id)
    case RelayEvent(org, event, publishing) => Relay(s, org, event, publishing)
    case Deliver(org, job, active, analysis) => Process(s, org, job, active, analysis).0
  }

  /** Any number of relays and workers, interleaved at will. */
  function Run(actions: seq<Action>): State
  {
    if actions == [] then Initial else Step(Run(actions[..|actions|-1]), actions[|actions|-1])
  }

  // ----- What every reachable state satisfies

  ghost predicate JobOk(job: Job)
  {
    && job.maxAttempts == MAX_ATTEMPTS
    && match job.state
       case Pending => job.attempts == 0 && job.outcome == "" && job.error == ""
       case Running => false
       case Completed => job.attempts == 1 && job.outcome != "" && job.error == ""
       case Failed => job.attempts == 1 && job.outcome == "" && job.error != ""
  }

  /** The event belongs to its job, its count fits its state, and once published it has been sent. */
  ghost predicate EventOk(s: State, e: Event)
  {
    && e.job in s.jobs && e.org == s.jobs[e.job].org
    && e.topic == TOPIC && e.payloadOrg == e.org && e.payloadJob == e.job
    && e.maxAttempts == MAX_ATTEMPTS
    && match e.state
       case Waiting => e.attempts < e.maxAttempts
       case Published => 1 <= e.attempts <= e.maxAttempts && MessageOf(e) in s.sent
       case Abandoned => e.attempts == e.maxAttempts
  }

  /** Every message is that of a committed event and names one and the same job throughout. */
  ghost predicate MessageOk(s: State, m: Message)
  {
    && m.idempotencyKey == m.payloadJob && m.topic == TOPIC
    && m.payloadJob in s.jobs && s.jobs[m.payloadJob].org == m.payloadOrg
    && exists i :: i in s.events && MessageOf(s.events[i]) == m
  }

  ghost predicate HasEvent(s: State, job: string)
  {
    exists i :: i in s.events && s.events[i].job == job
  }

  ghost predicate TerminalJob(job: Job)
  {
    job.state == Completed || job.state == Failed
  }

  ghost predicate JobsOk(s: State)
  {
    && (forall j :: j in s.jobs ==> JobOk(s.jobs[j]))
    && (forall j, k :: j in s.jobs && k in s.jobs && s.jobs[j].key == s.jobs[k].key ==> j == k)
  }

  /** Jobs and events correspond one to one. */
  ghost predicate Paired(s: State)
  {
    && (forall j :: j in s.jobs ==> HasEvent(s, j))
    && (forall i, k :: i in s.events && k in s.events && s.events[i].job == s.events[k].job ==> i == k)
    && (forall i :: i in s.events ==> i < s.nextEvent)
  }

  ghost predicate EventsOk(s: State)
  {
    forall i :: i in s.events ==> EventOk(s, s.events[i])
  }

  ghost predicate SentOk(s: State)
  {
    forall m :: m in s.sent ==> MessageOk(s, m)
  }

  ghost predicate Inv(s: State)
  {
    JobsOk(s) && Paired(s) && EventsOk(s) && SentOk(s)
  }

  lemma InvOf(s: State)
    requires JobsOk(s) && Paired(s) && EventsOk(s) && SentOk(s)
    ensures Inv(s)
  {
  }

  /** No row changes what it stands for, and no message is taken back. */
  ghost predicate SameRows(s: State, s': State)
  {
    && s.nextEvent == s'.nextEvent
    && (forall j :: j in s.jobs <==> j in s'.jobs) && (forall i :: i in s.events <==> i in s'.events)
    && (forall j :: j in s.jobs ==> s'.jobs[j].key == s.jobs[j].key && s'.jobs[j].org == s.jobs[j].org)
    && (forall i :: i in s.events ==> MessageOf(s'.events[i]) == MessageOf(s.events[i]))
    && (forall m :: m in s.sent ==> m in s'.sent)
  }

  lemma SameRowsStayPaired(s: State, s': State)
    requires SameRows(s, s') && Paired(s)
    ensures Paired(s')
  {
    assert forall i :: i in s.events ==> MessageOf(s'.events[i]).idempotencyKey == s.events[i].job;
    forall j | j in s'.jobs
      ensures HasEvent(s', j)
    {
      assert HasEvent(s, j);
      var i :| i in s.events && s.events[i].job == j;
      assert s'.events[i].job == j;
    }
  }

  lemma MessageStaysOk(s: State, s': State, m: Message)
    requires SameRows(s, s') && MessageOk(s, m)
    ensures MessageOk(s', m)
  {
    var i :| i in s.events && MessageOf(s.events[i]) == m;
    assert MessageOf(s'.events[i]) == m;
  }

  lemma EventStaysOk(s: State, s': State, e: Event)
    requires SameRows(s, s') && EventOk(s, e)
    ensures EventOk(s', e)
  {
  }

  lemma CreateKeeps(s: State, org: string, key: string, jobType: JobType, hasSnapshot: bool, id: string)
    requires Inv(s)
    ensures Inv(Create(s, org, key, jobType, hasSnapshot, id))
  {
    if !KeyTaken(s, key) && id !in s.jobs {
      CreateKeepsPaired(s, org, key, jobType, hasSnapshot, id);
      CreateKeepsEvents(s, org, key, jobType, hasSnapshot, id);
      CreateKeepsJobs(s, org, key, jobType, hasSnapshot, id);
      hide JobsOk, Paired, EventsOk, SentOk;
    }
  }

  lemma CreateKeepsJobs(s: State, org: string, key: string, jobType: JobType, hasSnapshot: bool, id: string)
    requires JobsOk(s) && !KeyTaken(s, key) && id !in s.jobs
    ensures JobsOk(Create(s, org, key, jobType, hasSnapshot, id))
  {
  }

  lemma CreateKeepsEvents(s: State, org: string, key: string, jobType: JobType, hasSnapshot: bool, id: string)
    requires EventsOk(s) && SentOk(s) && !KeyTaken(s, key) && id !in s.jobs
    requires s.nextEvent !in s.events
    ensures EventsOk(Create(s, org, key, jobType, hasSnapshot, id))
    ensures SentOk(Create(s, org, key, jobType, hasSnapshot, id))
  {
    var s' := Create(s, org, key, jobType, hasSnapshot, id);
    forall i | i in s'.events
      ensures EventOk(s', s'.events[i])
    {
      assert i in s.events ==> EventOk(s, s.events[i]);
    }
    forall m | m in s'.sent
      ensures MessageOk(s', m)
    {
      assert MessageOk(s, m);
      var i :| i in s.events && MessageOf(s.events[i]) == m;
      assert MessageOf(s'.events[i]) == m;
    }
  }

  lemma CreateKeepsPaired(s: State, org: string, key: string, jobType: JobType, hasSnapshot: bool, id: string)
    requires Paired(s) && EventsOk(s) && !KeyTaken(s, key) && id !in s.jobs
    ensures Paired(Create(s, org, key, jobType, hasSnapshot, id))
  {
    var s' := Create(s, org, key, jobType, hasSnapshot, id);
    assert forall i :: i in s.events ==> EventOk(s, s.events[i]) && i < s.nextEvent;
    assert s'.events[s.nextEvent].job == id;
    forall j | j in s'.jobs
      ensures HasEvent(s', j)
    {
      if j != id {
        assert HasEvent(s, j);
        var i :| i in s.events && s.events[i].job == j;
        assert s'.events[i].job == j;
      }
    }
  }

  lemma RelaySameRows(s: State, org: string, id: nat, p: Publishing)
    ensures SameRows(s, Relay(s, org, id, p))
  {
  }

  lemma RelayKeepsEvents(s: State, org: string, id: nat, p: Publishing)
    requires EventsOk(s)
    ensures EventsOk(Relay(s, org, id, p))
  {
    var s' := Relay(s, org, id, p);
    RelaySameRows(s, org, id, p);
    forall i | i in s'.events
      ensures EventOk(s', s'.events[i])
    {
      assert EventOk(s, s.events[i]);
      if i != id || !Selectable(s, org, id) {
        EventStaysOk(s, s', s.events[i]);
      }
    }
  }

  lemma RelayKeepsSent(s: State, org: string, id: nat, p: Publishing)
    requires EventsOk(s) && SentOk(s)
    ensures SentOk(Relay(s, org, id, p))
  {
    var s' := Relay(s, org, id, p);
    RelaySameRows(s, org, id, p);
    forall m | m in s'.sent
      ensures MessageOk(s', m)
    {
      if m in s.sent {
        MessageStaysOk(s, s', m);
      } else {
        assert EventOk(s, s.events[id]);
        assert MessageOf(s'.events[id]) == m;
      }
    }
  }

  lemma RelayKeepsJobs(s: State, org: string, id: nat, p: Publishing)
    requires JobsOk(s)
    ensures JobsOk(Relay(s, org, id, p))
  {
  }

  lemma RelayKeeps(s: State, org: string, id: nat, p: Publishing)
    requires Inv(s)
    ensures Inv(Relay(s, org, id, p))
  {
    RelaySameRows(s, org, id, p);
    SameRowsStayPaired(s, Relay(s, org, id, p));
    RelayKeepsEvents(s, org, id, p);
    RelayKeepsSent(s, org, id, p);
    RelayKeepsJobs(s, org, id, p);
    hide *;
    InvOf(Relay(s, org, id, p));
  }

  lemma ProcessedSameIdentity(row: Job, analysis: Analysis)
    ensures var job := Processed(row, analysis).0; job.key == row.key && job.org == row.org
  {
  }

  /** The worker's transaction ends a pending job on its first attempt, or leaves it untouched. */
  lemma ProcessedEnds(row: Job, analysis: Analysis)
    requires JobOk(row) && row.state == Pending
    ensures var (job, verdict) := Processed(row, analysis);
            if verdict == RolledBack then job == row
            else verdict in {Done, Rejected} && JobOk(job) && TerminalJob(job) && job.attempts == row.attempts + 1
  {
  }

  lemma ProcessSameRows(s: State, org: string, id: string, active: bool, analysis: Analysis)
    ensures SameRows(s, Process(s, org, id, active, analysis).0)
    ensures Process(s, org, id, active, analysis).0.events == s.events
    ensures Process(s, org, id, active, analysis).0.sent == s.sent
  {
    if id in s.jobs {
      ProcessedSameIdentity(s.jobs[id], analysis);
      hide Processed;
    }
  }

  lemma ProcessKeepsJobs(s: State, org: string, id: string, active: bool, analysis: Analysis)
    requires JobsOk(s)
    ensures JobsOk(Process(s, org, id, active, analysis).0)
  {
    if id in s.jobs && s.jobs[id].state == Pending {
      ProcessedEnds(s.jobs[id], analysis);
      ProcessedSameIdentity(s.jobs[id], analysis);
      hide Processed;
    }
  }

  lemma ProcessKeeps(s: State, org: string, id: string, active: bool, analysis: Analysis)
    requires Inv(s)
    ensures Inv(Process(s, org, id, active, analysis).0)
  {
    var s' := Process(s, org, id, active, analysis).0;
    ProcessSameRows(s, org, id, active, analysis);
    ProcessKeepsJobs(s, org, id, active, analysis);
    SameRowsStayPaired(s, s');
    hide Process, Paired, JobsOk;
    forall i | i in s'.events
      ensures EventOk(s', s'.events[i])
    {
      EventStaysOk(s, s', s.events[i]);
    }
    forall m | m in s'.sent
      ensures MessageOk(s', m)
    {
      MessageStaysOk(s, s', m);
    }
  }

  lemma {:induction false} RunKeeps(actions: seq<Action>)
    ensures Inv(Run(actions))
  {
    if actions != [] {
      var s, a := Run(actions[..|actions|-1]), actions[|actions|-1];
      RunKeeps(actions[..|actions|-1]);
      match a
      case CreateJob(org, key, jobType, hasSnapshot, id) => CreateKeeps(s, org, key, jobType, hasSnapshot, id);
      case RelayEvent(org, event, publishing) => RelayKeeps(s, org, event, publishing);
      case Deliver(org, job, active, analysis) => ProcessKeeps(s, org, job, active, analysis);
    }
  }

  // ----- What every run guarantees

  ghost predicate EventAdvances(e: Event, e': Event)
  {
    && e.attempts <= e'.attempts <= e.attempts + 1
    && (e.state != Waiting ==> e' == e)
  }

  ghost predicate JobAdvances(job: Job, job': Job)
  {
    && job.attempts <= job'.attempts <= job.attempts + 1
    && (TerminalJob(job) ==> job' == job)
  }

  /** A terminal event or job keeps its row, every count only ever grows, by one at most, and nothing sent is unsent. */
  ghost predicate Advances(s: State, s': State)
  {
    && (forall i :: i in s.events ==> i in s'.events && EventAdvances(s.events[i], s'.events[i]))
    && (forall j :: j in s.jobs ==> j in s'.jobs && JobAdvances(s.jobs[j], s'.jobs[j]))
    && s.sent <= s'.sent
  }

  lemma DeliveryAdvances(s: State, org: string, id: string, active: bool, analysis: Analysis)
    requires JobsOk(s)
    ensures Advances(s, Process(s, org, id, active, analysis).0)
  {
    if id in s.jobs && s.jobs[id].state == Pending {
      ProcessedEnds(s.jobs[id], analysis);
      hide Processed;
    }
  }

  lemma RelayAdvances(s: State, org: string, id: nat, p: Publishing)
    ensures Advances(s, Relay(s, org, id, p))
  {
  }

  lemma CreateAdvances(s: State, org: string, key: string, jobType: JobType, hasSnapshot: bool, id: string)
    requires s.nextEvent !in s.events
    ensures Advances(s, Create(s, org, key, jobType, hasSnapshot, id))
  {
  }

  lemma StepAdvances(s: State, a: Action)
    requires Inv(s)
    ensures Advances(s, Step(s, a))
  {
    assert s.nextEvent !in s.events;
    match a
    case CreateJob(org, key, jobType, hasSnapshot, id) => CreateAdvances(s, org, key, jobType, hasSnapshot, id);
    case RelayEvent(org, event, publishing) => RelayAdvances(s, org, event, publishing);
    case Deliver(org, job, active, analysis) => DeliveryAdvances(s, org, job, active, analysis);
  }

  /** Published and abandoned events, completed and failed jobs, stay as they are for the rest of any run. */
  lemma {:induction false} TerminalForever(before: seq<Action>, after: seq<Action>)
    ensures var s, s' := Run(before), Run(before + after);
            && (forall i :: i in s.events && s.events[i].state != Waiting ==>
                  i in s'.events && s'.events[i] == s.events[i])
            && (forall j :: j in s.jobs && TerminalJob(s.jobs[j]) ==> j in s'.jobs && s'.jobs[j] == s.jobs[j])
  {
    if after == [] {
      assert before + after == before;
    } else {
      var middle := before + after[..|after|-1];
      assert (before + after)[..|before + after|-1] == middle;
      TerminalForever(before, after[..|after|-1]);
      RunKeeps(middle);
      StepAdvances(Run(middle), after[|after|-1]);
    }
  }

  /** The counts of every event: a waiting one has attempts left, and none ever has more than its maximum. */
  lemma {:induction false} AttemptsBounded(actions: seq<Action>, i: nat)
    requires i in Run(actions).events
    ensures var e := Run(actions).events[i];
            && e.attempts <= e.maxAttempts
            && (e.state == Waiting ==> e.attempts < e.maxAttempts)
            && (e.state == Abandoned ==> e.attempts == e.maxAttempts)
  {
    RunKeeps(actions);
    assert EventOk(Run(actions), Run(actions).events[i]);
  }

  /** A published event has been sent, and whatever has been sent names the job of a committed event. */
  lemma {:induction false} PublishedWasSent(actions: seq<Action>)
    ensures var s := Run(actions);
            && (forall i :: i in s.events && s.events[i].state == Published ==> MessageOf(s.events[i]) in s.sent)
            && (forall m :: m in s.sent ==> MessageOk(s, m))
  {
    RunKeeps(actions);
    var s := Run(actions);
    forall i | i in s.events && s.events[i].state == Published
      ensures MessageOf(s.events[i]) in s.sent
    {
      assert EventOk(s, s.events[i]);
    }
  }

  /** Every job has exactly one event, created with it. */
  lemma {:induction false} OneEventPerJob(actions: seq<Action>, j: string)
    requires j in Run(actions).jobs
    ensures var s := Run(actions);
            exists i :: i in s.events && s.events[i].job == j &&
              forall k :: k in s.events && s.events[k].job == j ==> k == i
  {
    RunKeeps(actions);
    var s := Run(actions);
    assert HasEvent(s, j);
    var i :| i in s.events && s.events[i].job == j;
    assert forall k :: k in s.events && s.events[k].job == j ==> k == i;
  }

  /** No job is ever committed as running, and a job is attempted at most once, however often it is delivered. */
  lemma {:induction false} JobsAttemptedOnce(actions: seq<Action>, j: string)
    requires j in Run(actions).jobs
    ensures var job := Run(actions).jobs[j];
            && job.state != Running
            && job.attempts == (if job.state == Pending then 0 else 1)
  {
    RunKeeps(actions);
    assert JobOk(Run(actions).jobs[j]);
  }

  /** A delivery changes the state exactly when it is the first to commit for a pending job. */
  lemma {:induction false} DeliveryCommitsOnce(
    actions: seq<Action>, org: string, id: string, active: bool, analysis: Analysis)
    ensures var s := Run(actions);
            var (s', verdict) := Process(s, org, id, active, analysis);
            && (s' != s <==> verdict in {Done, Rejected})
            && (verdict in {Done, Rejected} ==>
                id in s.jobs && s.jobs[id].state == Pending && id in s'.jobs && TerminalJob(s'.jobs[id]))
            && (id in s.jobs && TerminalJob(s.jobs[id]) ==> s' == s && verdict in {NotFound, Duplicate, Terminal})
  {
    RunKeeps(actions);
    var s := Run(actions);
    if id in s.jobs {
      RowAllowsOneCommit(s, org, id, active, analysis);
    }
  }

  lemma RowAllowsOneCommit(s: State, org: string, id: string, active: bool, analysis: Analysis)
    requires id in s.jobs && JobOk(s.jobs[id])
    ensures var (s', verdict) := Process(s, org, id, active, analysis);
            && (s' != s <==> verdict in {Done, Rejected})
            && (verdict in {Done, Rejected} ==>
                s.jobs[id].state == Pending && id in s'.jobs && TerminalJob(s'.jobs[id]))
            && (TerminalJob(s.jobs[id]) ==> s' == s && verdict in {NotFound, Duplicate, Terminal})
  {
    if s.jobs[id].state == Pending {
      ProcessedEnds(s.jobs[id], analysis);
      hide Processed;
      var s' := Process(s, org, id, active, analysis).0;
      assert s'.jobs == s.jobs ==> s'.jobs[id] == s.jobs[id];
    }
  }

  // ----- What each step does to its own row

  /** A job that a worker may take up. */
  ghost predicate Workable(s: State, org: string, id: string, active: bool)
  {
    && active && id in s.jobs && s.jobs[id].org == org
    && s.jobs[id].state == Pending && s.jobs[id].attempts < s.jobs[id].maxAttempts
  }

  /** Whether the work on a job succeeds: lifecycle jobs need none, snapshot jobs a snapshot that can be analysed. */
  ghost predicate Succeeds(job: Job, analysis: Analysis)
  {
    job.jobType == PullRequestSnapshot ==> job.hasSnapshot && analysis in {Available, Partial}
  }

  /** The analysis is reached and dies. */
  ghost predicate Dies(job: Job, analysis: Analysis)
  {
    job.jobType == PullRequestSnapshot && job.hasSnapshot && analysis == Crashed
  }

  /** What the worker's verdicts mean, and what each leaves of the job. */
  lemma VerdictMeans(s: State, org: string, id: string, active: bool, analysis: Analysis)
    requires id in s.jobs ==> s.jobs[id].state != Running
    ensures var (s', verdict) := Process(s, org, id, active, analysis);
            && (verdict == NotFound <==> !active || id !in s.jobs || s.jobs[id].org != org)
            && (verdict == Duplicate <==>
                active && id in s.jobs && s.jobs[id].org == org && s.jobs[id].state == Completed)
            && (verdict == Done <==> Workable(s, org, id, active) && Succeeds(s.jobs[id], analysis))
            && (verdict == RolledBack <==> Workable(s, org, id, active) && Dies(s.jobs[id], analysis))
            && (verdict == Rejected <==> Workable(s, org, id, active) && !Succeeds(s.jobs[id], analysis)
                                         && !Dies(s.jobs[id], analysis))
            && (verdict !in {Done, Rejected} ==> s' == s)
            && (verdict in {Done, Rejected} ==> s' == s.(jobs := s.jobs[id := s'.jobs[id]]))
  {
  }

  /** The row of a job that was worked on. */
  lemma WorkedRow(s: State, org: string, id: string, active: bool, analysis: Analysis)
    requires Workable(s, org, id, active) && !Dies(s.jobs[id], analysis)
    ensures var job, next := s.jobs[id], Process(s, org, id, active, analysis).0.jobs[id];
            if Succeeds(job, analysis) then
              next == job.(state := Completed, attempts := job.attempts + 1,
                           outcome := if job.jobType != PullRequestSnapshot then "lifecycle_recorded"
                                      else if analysis == Available then "change_intelligence_complete"
                                      else "change_intelligence_partial")
            else
              next == job.(state := Failed, attempts := job.attempts + 1,
                           error := if job.hasSnapshot then "change_intelligence_invalid_input" else "snapshot_missing")
  {
  }

  /** What a relay transaction leaves of a waiting event, and what the broker has afterwards. */
  lemma RelayedRow(s: State, org: string, id: nat, p: Publishing)
    requires id in s.events && s.events[id].state == Waiting && s.events[id].org == org
    ensures var e, s' := s.events[id], Relay(s, org, id, p);
            && s' == s.(events := s.events[id := s'.events[id]], sent := s'.sent)
            && (p.Accepted? ==> s'.events[id] == e.(attempts := e.attempts + 1, state := Published, error := ""))
            && (p.Crash? ==> s'.events[id] == e)
            && (p.BrokerError? ==>
                s'.events[id] == e.(attempts := e.attempts + 1, error := "broker_unavailable",
                                    state := if e.attempts + 1 < e.maxAttempts then Waiting else Abandoned))
            && s'.sent == if p.Accepted? || p.delivered
                          then s.sent + [Message(e.topic, e.payloadOrg, e.payloadJob, e.job)] else s.sent
  {
  }

  /** Any other event, or another organization's, is left alone. */
  lemma RelayLeaves(s: State, org: string, id: nat, p: Publishing)
    requires id !in s.events || s.events[id].state != Waiting || s.events[id].org != org
    ensures Relay(s, org, id, p) == s
  {
  }

  /** A new key gets a pending job and a waiting event that carries it; a taken one gets nothing. */
  lemma CreatedRows(s: State, org: string, key: string, jobType: JobType, hasSnapshot: bool, id: string)
    requires id !in s.jobs
    ensures var s' := Create(s, org, key, jobType, hasSnapshot, id);
            if exists j :: j in s.jobs && s.jobs[j].key == key then s' == s
            else
              && s'.jobs == s.jobs[id := Job(org, key, jobType, hasSnapshot, Pending, 0, 5, "", "")]
              && s'.events == s.events[s.nextEvent := Event(org, id, "releaseproof.analysis.process_job.v1", org, id,
                                                            Waiting, 0, 5, "")]
              && s'.sent == s.sent && s'.nextEvent == s.nextEvent + 1
  {
  }

  /** As long as the broker takes the message, one relay of a waiting event publishes it. */
  lemma {:induction false} RelayPublishes(actions: seq<Action>, org: string, id: nat)
    requires var s := Run(actions); id in s.events && s.events[id].state == Waiting && s.events[id].org == org
    ensures var s := Run(actions + [RelayEvent(org, id, Accepted)]);
            && id in s.events && s.events[id].state == Published
            && Message(TOPIC, org, s.events[id].job, s.events[id].job) in s.sent
  {
    hide Run, JobsOk, Paired, SentOk;
    var more := actions + [RelayEvent(org, id, Accepted)];
    LastStep(actions, RelayEvent(org, id, Accepted));
    RunKeeps(actions);
    RelayedRow(Run(actions), org, id, Accepted);
    assert EventOk(Run(actions), Run(actions).events[id]);
  }

  lemma {:induction false} LastStep(actions: seq<Action>, a: Action)
    ensures Run(actions + [a]) == Step(Run(actions), a)
  {
    assert (actions + [a])[..|actions|] == actions;
  }
}
