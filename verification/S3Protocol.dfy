/**
 * The S3 client as a protocol: any number of clients, each sending its remote calls one at a time, interleaved in any
 * order, with calls and acknowledgements lost and puts that arrive after their caller gave up. Nothing is deleted.
 */
module S3Protocol {
  import opened ObjectStorage

  /** An object as the bucket holds it; its checksum travels as user metadata. */
  datatype Remote = Remote(data: Bytes, contentType: string, sha256: string)

  /** One call of the client, numbered in order of invocation; `start` is the length of the log at that moment. */
  datatype Op = Op(id: nat, req: Request, start: nat)

  /** Where a running call stands, that is, which remote call it sends next. */
  datatype Phase =
    | FirstHead(op: Op)                  // every call begins with a head request
    | SendPut(op: Op)                    // the key was missing: conditional put
    | Confirm(op: Op)                    // the put was acknowledged: final head
    | Recheck(op: Op, applied: bool)     // the put was refused: head again; a retried put may have been its own cause
    | ReadBody(op: Op, seen: Metadata)   // get: the head answered, now the body

  /** How the network treats one remote call. */
  datatype Reply =
    | Answered         // delivered, and the answer arrives
    | Lost             // not delivered while the caller waits, or refused for another reason; a put may arrive later
    | AnswerLost       // delivered, but the answer never arrives
    | Retried          // delivered, answer lost, and sent again by the transport: the second answer arrives
    | InFlight         // refused because another conditional request, perhaps its own first attempt, is in flight

  datatype Entry = Entry(op: nat, req: Request, outcome: Outcome)

  datatype Returned = Returned(op: Op, outcome: Outcome, end: nat)

  /**
   * `delayed` holds the puts that were sent and given up, and may still arrive. `log` lists the operations in the order
   * they take effect; it is what the proof adds to the protocol.
   */
  datatype System = System(bucket: map<string, Remote>, running: map<nat, Phase>, returned: map<nat, Returned>,
                           delayed: set<nat>, log: seq<Entry>, calls: nat)

  const Empty: System := System(map[], map[], map[], {}, [], 0)

  datatype Action = Invoke(req: Request) | Deliver(id: nat, reply: Reply) | Arrive(id: nat)

  // ----- One step

  function HeadOf(key: string, o: Remote): Metadata
  {
    Metadata(key, |o.data|, o.contentType, o.sha256)
  }

  function Return(s: System, op: Op, o: Outcome): System
  {
    s.(running := s.running - {op.id}, returned := s.returned[op.id := Returned(op, o, |s.log|)])
  }

  function Log(s: System, op: Op, o: Outcome): System
  {
    s.(log := s.log + [Entry(op.id, op.req, o)])
  }

  function Continue(s: System, p: Phase): System
  {
    s.(running := s.running[p.op.id := p])
  }

  function Delay(s: System, op: Op): System
  {
    s.(delayed := s.delayed + {op.id})
  }

  predicate Checked(sha: Bytes -> string, r: Request)
  {
    && ValidKey(r.key)
    && (r.Put? ==> ValidInput(r.data, r.contentType, r.sha256) && sha(r.data) == r.sha256)
  }

  /** The error of a call that fails its local checks. */
  function Refusal(r: Request): Outcome
  {
    if ValidKey(r.key) && (r.Put? ==> ValidInput(r.data, r.contentType, r.sha256)) then Failed(ChecksumMismatch)
    else Failed(InvalidInput)
  }

  /** A call is checked locally first; what passes starts with a head request. */
  function Begin(sha: Bytes -> string, s: System, req: Request): System
  {
    var op := Op(s.calls, req, |s.log|);
    var s' := s.(calls := s.calls + 1);
    if Checked(sha, req) then Continue(s', FirstHead(op)) else Return(Log(s', op, Refusal(req)), op, Refusal(req))
  }

  /** The answer to a head request: its metadata, or the error it raises. */
  function HeadAnswer(s: System, key: string): Outcome
  {
    if key !in s.bucket then Failed(NotFound)
    else if |s.bucket[key].sha256| != 64 then Failed(ChecksumMismatch)
    else if !ValidInput([], s.bucket[key].contentType, s.bucket[key].sha256)
            || |s.bucket[key].data| > MAX_OBJECT_SIZE_BYTES then Failed(Unavailable)
    else Described(HeadOf(key, s.bucket[key]))
  }

  function AfterFirstHead(s: System, op: Op): System
  {
    var answer := HeadAnswer(s, op.req.key);
    match op.req
    case Put(_, _, _, _) =>
      if answer == Failed(NotFound) then Continue(s, SendPut(op))
      else if answer.Failed? then Return(s, op, answer)
      else if answer.metadata == Expected(op.req) then Return(Log(s, op, answer), op, answer)
      else Return(Log(s, op, Failed(Conflict)), op, Failed(Conflict))
    case Head(_) => Return(Log(s, op, answer), op, answer)
    case Get(_) =>
      if answer.Failed? then Return(Log(s, op, answer), op, answer)
      else Continue(s, ReadBody(op, answer.metadata))
  }

  /** The state in which a put's object has just been stored. */
  function Store(s: System, op: Op): System
    requires op.req.Put?
  {
    Log(s.(bucket := s.bucket[op.req.key := Remote(op.req.data, op.req.contentType, op.req.sha256)]),
        op, Described(Expected(op.req)))
  }

  /** The conditional put stores the object only under a key that holds none. */
  function AfterSend(s: System, op: Op, reply: Reply): System
    requires op.req.Put?
  {
    var absent := op.req.key !in s.bucket;
    var stored := if absent then Store(s, op) else s;
    match reply
    case Answered => if absent then Continue(stored, Confirm(op)) else Continue(s, Recheck(op, false))
    case Retried => if absent then Continue(stored, Recheck(op, true)) else Continue(s, Recheck(op, false))
    case InFlight => Continue(s, Recheck(op, false))
    case AnswerLost => Return(stored, op, Failed(Unavailable))
    case Lost => Return(Delay(s, op), op, Failed(Unavailable))
  }

  function AfterConfirm(s: System, op: Op): System
  {
    Return(s, op, HeadAnswer(s, op.req.key))
  }

  /** A refused put succeeds after all when the object found is the one it wanted to store. */
  function AfterRecheck(s: System, op: Op, applied: bool): System
    requires op.req.Put?
  {
    var answer := HeadAnswer(s, op.req.key);
    if answer.Failed? then Return(if applied then s else Delay(s, op), op, answer) else
    var o := if answer.metadata == Expected(op.req) then answer else Failed(Conflict);
    Return(if applied then s else Log(s, op, o), op, o)
  }

  function AfterRead(sha: Bytes -> string, s: System, op: Op, seen: Metadata): System
  {
    if op.req.key !in s.bucket then Return(Log(s, op, Failed(NotFound)), op, Failed(NotFound)) else
    var body := s.bucket[op.req.key].data;
    var data := if |body| <= MAX_OBJECT_SIZE_BYTES + 1 then body else body[..MAX_OBJECT_SIZE_BYTES + 1];
    var o := if |data| != seen.size || sha(data) != seen.sha256 then Failed(ChecksumMismatch) else Content(data);
    Return(Log(s, op, o), op, o)
  }

  /** A put that was given up reaches the bucket, which stores its object unless the key holds one. */
  function AfterArrival(s: System, id: nat): System
  {
    if id in s.delayed && id in s.returned && s.returned[id].op.req.Put? && s.returned[id].op.req.key !in s.bucket
    then Store(s, s.returned[id].op)
    else s
  }

  function Step(sha: Bytes -> string, s: System, a: Action): System
  {
    match a
    case Invoke(req) => Begin(sha, s, req)
    case Arrive(id) => AfterArrival(s, id)
    case Deliver(id, reply) =>
      if id !in s.running then s else
      match s.running[id]
      case SendPut(op) => if op.req.Put? then AfterSend(s, op, reply) else s
      case FirstHead(op) => if reply.Answered? then AfterFirstHead(s, op) else Return(s, op, Failed(Unavailable))
      case Confirm(op) => if reply.Answered? then AfterConfirm(s, op) else Return(s, op, Failed(Unavailable))
      case Recheck(op, applied) =>
        if reply.Answered? && op.req.Put? then AfterRecheck(s, op, applied)
        else Return(if applied then s else Delay(s, op), op, Failed(Unavailable))
      case ReadBody(op, seen) =>
        if reply.Answered? then AfterRead(sha, s, op, seen) else Return(s, op, Failed(Unavailable))
  }

  function Run(sha: Bytes -> string, actions: seq<Action>): System
  {
    if actions == [] then Empty else Step(sha, Run(sha, actions[..|actions|-1]), actions[|actions|-1])
  }

  // ----- The invariant

  /** The bucket as the atomic store sees it. */
  function Abstract(bucket: map<string, Remote>): map<string, Stored>
  {
    map k | k in bucket :: Stored(bucket[k].data, HeadOf(k, bucket[k]))
  }

  /** Replaying the log on an empty atomic store. */
  function Replay(sha: Bytes -> string, log: seq<Entry>): map<string, Stored>
  {
    if log == [] then map[] else Atomic(sha, Replay(sha, log[..|log|-1]), log[|log|-1].req).0
  }

  /** Each logged outcome is the one the atomic store gives at that point. */
  ghost predicate Legal(sha: Bytes -> string, log: seq<Entry>)
  {
    log == [] || (
      var before, last := log[..|log|-1], log[|log|-1];
      Legal(sha, before) && last.outcome == Atomic(sha, Replay(sha, before), last.req).1)
  }

  ghost predicate Logged(log: seq<Entry>, i: int, op: Op, o: Outcome)
  {
    op.start <= i < |log| && log[i] == Entry(op.id, op.req, o)
  }

  ghost predicate Unlogged(log: seq<Entry>, id: nat)
  {
    forall i :: 0 <= i < |log| ==> log[i].op != id
  }

  ghost predicate WellStored(sha: Bytes -> string, key: string, o: Remote)
  {
    ValidKey(key) && ValidInput(o.data, o.contentType, o.sha256) && sha(o.data) == o.sha256
  }

  /** A running call has not taken effect, except a put whose object is stored already. */
  ghost predicate PhaseOk(sha: Bytes -> string, s: System, id: nat, p: Phase)
  {
    && p.op.id == id < s.calls && p.op.start <= |s.log| && Checked(sha, p.op.req)
    && (p.SendPut? || p.Confirm? || p.Recheck? ==> p.op.req.Put?)
    && (p.ReadBody? ==> p.op.req.Get? && p.op.req.key in s.bucket &&
                        p.seen == HeadOf(p.op.req.key, s.bucket[p.op.req.key]))
    && if p.Confirm? || (p.Recheck? && p.applied) then
         && p.op.req.key in s.bucket
         && HeadOf(p.op.req.key, s.bucket[p.op.req.key]) == Expected(p.op.req)
         && exists i :: Logged(s.log, i, p.op, Described(Expected(p.op.req)))
       else Unlogged(s.log, id)
  }

  /** A call that failed without an answer to what it asked: contact was lost, or a put found
      nothing to compare with. */
  predicate GaveUp(req: Request, o: Outcome)
  {
    o == Failed(Unavailable) || (o == Failed(NotFound) && req.Put?)
  }

  /** A returned call took effect with the outcome it returned; one that gave up did so at most as a successful put. */
  ghost predicate ReturnOk(s: System, id: nat, r: Returned)
  {
    && r.op.id == id < s.calls && r.op.start <= r.end <= |s.log|
    && (
      || (exists i :: Logged(s.log, i, r.op, r.outcome) && i < r.end)
      || (GaveUp(r.op.req, r.outcome) && Unlogged(s.log, id))
      || (GaveUp(r.op.req, r.outcome) && r.op.req.Put?
          && exists i :: Logged(s.log, i, r.op, Described(Expected(r.op.req)))))
  }

  /** A delayed put was given up; it has not taken effect, or finds its key taken when it arrives. */
  ghost predicate DelayedOk(sha: Bytes -> string, s: System, id: nat)
  {
    && id in s.returned && s.returned[id].op.req.Put? && Checked(sha, s.returned[id].op.req)
    && GaveUp(s.returned[id].op.req, s.returned[id].outcome)
    && (Unlogged(s.log, id) || s.returned[id].op.req.key in s.bucket)
  }

  /** The log explains the bucket, and no operation is logged twice. */
  ghost predicate LogOk(sha: Bytes -> string, s: System)
  {
    && Legal(sha, s.log) && Replay(sha, s.log) == Abstract(s.bucket)
    && (forall k :: k in s.bucket ==> WellStored(sha, k, s.bucket[k]))
    && (forall i, j :: 0 <= i < j < |s.log| ==> s.log[i].op != s.log[j].op)
    && (forall i :: 0 <= i < |s.log| ==> s.log[i].op < s.calls)
  }

  /** Everything but what call `id` itself must satisfy. */
  ghost predicate InvBut(sha: Bytes -> string, s: System, id: nat)
  {
    && LogOk(sha, s)
    && (forall x: nat :: x in s.running && x != id ==> PhaseOk(sha, s, x, s.running[x]))
    && (forall x: nat :: x in s.returned ==> ReturnOk(s, x, s.returned[x]))
    && (forall x: nat :: x in s.running && x != id ==> x !in s.returned)
    && (forall x: nat :: x != id ==> (x in s.running || x in s.returned <==> x < s.calls))
    && (forall x: nat :: x in s.delayed ==> DelayedOk(sha, s, x))
    && id < s.calls && id !in s.returned
  }

  ghost predicate Inv(sha: Bytes -> string, s: System)
  {
    && LogOk(sha, s)
    && (forall x: nat :: x in s.running ==> PhaseOk(sha, s, x, s.running[x]) && x !in s.returned)
    && (forall x: nat :: x in s.returned ==> ReturnOk(s, x, s.returned[x]))
    && (forall x: nat :: x in s.running || x in s.returned <==> x < s.calls)
    && (forall x: nat :: x in s.delayed ==> DelayedOk(sha, s, x))
  }

  // ----- Each primitive keeps it

  lemma LogSame(sha: Bytes -> string, s: System, s': System)
    requires LogOk(sha, s) && s'.bucket == s.bucket && s'.log == s.log && s.calls <= s'.calls
    ensures LogOk(sha, s')
  {
  }

  lemma PhaseSame(sha: Bytes -> string, s: System, s': System, id: nat, p: Phase)
    requires PhaseOk(sha, s, id, p) && s'.bucket == s.bucket && s'.log == s.log && s.calls <= s'.calls
    ensures PhaseOk(sha, s', id, p)
  {
  }

  lemma ReturnSame(s: System, s': System, id: nat, r: Returned)
    requires ReturnOk(s, id, r) && s'.log == s.log && s.calls <= s'.calls
    ensures ReturnOk(s', id, r)
  {
  }

  lemma DelayedSame(sha: Bytes -> string, s: System, s': System, id: nat)
    requires DelayedOk(sha, s, id) && s'.bucket == s.bucket && s'.log == s.log
    requires id in s'.returned && s'.returned[id] == s.returned[id]
    ensures DelayedOk(sha, s', id)
  {
  }

  lemma DelayedReturned(sha: Bytes -> string, s: System, id: nat)
    requires DelayedOk(sha, s, id)
    ensures id in s.returned
  {
  }

  /** What is not about call `id` is untouched by any change to that call alone. */
  lemma OthersSame(sha: Bytes -> string, s: System, s': System, id: nat)
    requires InvBut(sha, s, id)
    requires s'.bucket == s.bucket && s'.log == s.log && s'.calls == s.calls && s'.delayed == s.delayed
    requires forall x: nat :: x != id ==>
      ((x in s'.running <==> x in s.running) && (x in s'.returned <==> x in s.returned))
    requires forall x: nat :: x != id && x in s.running ==> s'.running[x] == s.running[x]
    requires forall x: nat :: x != id && x in s.returned ==> s'.returned[x] == s.returned[x]
    ensures LogOk(sha, s')
    ensures forall x: nat :: x in s'.running && x != id ==> PhaseOk(sha, s', x, s'.running[x]) && x !in s'.returned
    ensures forall x: nat :: x in s'.returned && x != id ==> ReturnOk(s', x, s'.returned[x])
    ensures forall x: nat :: x in s'.delayed ==> DelayedOk(sha, s', x)
  {
    hide LogOk, PhaseOk, ReturnOk, DelayedOk;
    LogSame(sha, s, s');
    forall x: nat | x in s'.running && x != id
      ensures PhaseOk(sha, s', x, s'.running[x]) && x !in s'.returned
    {
      PhaseSame(sha, s, s', x, s.running[x]);
    }
    forall x: nat | x in s'.returned && x != id
      ensures ReturnOk(s', x, s'.returned[x])
    {
      ReturnSame(s, s', x, s.returned[x]);
    }
    forall x: nat | x in s'.delayed
      ensures DelayedOk(sha, s', x)
    {
      DelayedReturned(sha, s, x);
      DelayedSame(sha, s, s', x);
    }
  }

  lemma ReturnKeeps(sha: Bytes -> string, s: System, op: Op, o: Outcome)
    requires InvBut(sha, s, op.id) && ReturnOk(Return(s, op, o), op.id, Returned(op, o, |s.log|))
    ensures Inv(sha, Return(s, op, o))
  {
    hide LogOk, PhaseOk, ReturnOk, DelayedOk;
    OthersSame(sha, s, Return(s, op, o), op.id);
  }

  lemma ContinueKeeps(sha: Bytes -> string, s: System, p: Phase)
    requires InvBut(sha, s, p.op.id) && PhaseOk(sha, s, p.op.id, p)
    ensures Inv(sha, Continue(s, p))
  {
    hide LogOk, PhaseOk, ReturnOk, DelayedOk;
    OthersSame(sha, s, Continue(s, p), p.op.id);
    PhaseSame(sha, s, Continue(s, p), p.op.id, p);
  }

  /** Logging a call with the outcome the atomic store gives, together with its change of the bucket. */
  lemma LogKeeps(sha: Bytes -> string, s: System, bucket: map<string, Remote>, op: Op, o: Outcome)
    requires InvBut(sha, s, op.id) && Unlogged(s.log, op.id) && op.start <= |s.log|
    requires Atomic(sha, Abstract(s.bucket), op.req) == (Abstract(bucket), o)
    requires forall k :: k in s.bucket ==> k in bucket && bucket[k] == s.bucket[k]
    requires forall k :: k in bucket ==> WellStored(sha, k, bucket[k])
    ensures InvBut(sha, Log(s.(bucket := bucket), op, o), op.id)
    ensures Logged(s.log + [Entry(op.id, op.req, o)], |s.log|, op, o)
  {
    hide LogOk, PhaseOk, ReturnOk, Checked, GaveUp, WellStored, Atomic, Abstract;
    var s' := Log(s.(bucket := bucket), op, o);
    LogStaysOk(sha, s, bucket, op, o);
    forall x: nat | x in s'.running && x != op.id
      ensures PhaseOk(sha, s', x, s'.running[x])
    {
      assert PhaseOk(sha, s, x, s.running[x]);
      OtherPhaseStays(sha, s, bucket, Entry(op.id, op.req, o), x, s.running[x]);
    }
    forall x: nat | x in s'.returned
      ensures ReturnOk(s', x, s'.returned[x])
    {
      assert ReturnOk(s, x, s.returned[x]) && x != op.id;
      OtherReturnStays(s, bucket, Entry(op.id, op.req, o), x, s.returned[x]);
    }
    forall x: nat | x in s'.delayed
      ensures DelayedOk(sha, s', x)
    {
      assert DelayedOk(sha, s, x);
      assert x in s.returned && x != op.id;
      OtherDelayedStays(sha, s, bucket, Entry(op.id, op.req, o), x);
    }
  }

  lemma OtherPhaseStays(sha: Bytes -> string, s: System, bucket: map<string, Remote>, e: Entry, id: nat, p: Phase)
    requires PhaseOk(sha, s, id, p) && e.op != id
    requires forall k :: k in s.bucket ==> k in bucket && bucket[k] == s.bucket[k]
    ensures PhaseOk(sha, s.(bucket := bucket, log := s.log + [e]), id, p)
  {
    LoggedGrows(s.log, e, p.op);
  }

  lemma OtherReturnStays(s: System, bucket: map<string, Remote>, e: Entry, id: nat, r: Returned)
    requires ReturnOk(s, id, r) && e.op != id
    ensures ReturnOk(s.(bucket := bucket, log := s.log + [e]), id, r)
  {
    LoggedGrows(s.log, e, r.op);
  }

  lemma OtherDelayedStays(sha: Bytes -> string, s: System, bucket: map<string, Remote>, e: Entry, id: nat)
    requires DelayedOk(sha, s, id) && e.op != id
    requires forall k :: k in s.bucket ==> k in bucket && bucket[k] == s.bucket[k]
    ensures DelayedOk(sha, s.(bucket := bucket, log := s.log + [e]), id)
  {
  }

  lemma LogStaysOk(sha: Bytes -> string, s: System, bucket: map<string, Remote>, op: Op, o: Outcome)
    requires LogOk(sha, s) && Unlogged(s.log, op.id) && op.id < s.calls
    requires Atomic(sha, Abstract(s.bucket), op.req) == (Abstract(bucket), o)
    requires forall k :: k in bucket ==> WellStored(sha, k, bucket[k])
    ensures LogOk(sha, Log(s.(bucket := bucket), op, o))
  {
    assert (s.log + [Entry(op.id, op.req, o)])[..|s.log|] == s.log;
  }

  lemma LoggedGrows(log: seq<Entry>, e: Entry, op: Op)
    ensures forall i, o :: Logged(log, i, op, o) ==> Logged(log + [e], i, op, o)
    ensures e.op != op.id && Unlogged(log, op.id) ==> Unlogged(log + [e], op.id)
  {
    forall i, o | Logged(log, i, op, o)
      ensures Logged(log + [e], i, op, o)
    {
      assert (log + [e])[i] == log[i];
    }
  }

  // ----- Each step keeps it

  lemma HeadFinds(sha: Bytes -> string, s: System, key: string)
    requires LogOk(sha, s)
    ensures HeadAnswer(s, key) == if key in s.bucket then Described(HeadOf(key, s.bucket[key])) else Failed(NotFound)
  {
    assert key in s.bucket ==> WellStored(sha, key, s.bucket[key]);
  }

  /** A call that gives up before it took effect. */
  lemma UnansweredKeeps(sha: Bytes -> string, s: System, op: Op, o: Outcome)
    requires InvBut(sha, s, op.id) && op.start <= |s.log| && Unlogged(s.log, op.id) && GaveUp(op.req, o)
    ensures Inv(sha, Return(s, op, o))
  {
    ReturnKeeps(sha, s, op, o);
  }

  lemma DelayKeeps(sha: Bytes -> string, s: System, id: nat)
    requires Inv(sha, s) && DelayedOk(sha, s, id)
    ensures Inv(sha, s.(delayed := s.delayed + {id}))
  {
    hide LogOk, PhaseOk, ReturnOk, DelayedOk;
    var s' := s.(delayed := s.delayed + {id});
    LogSame(sha, s, s');
    forall x: nat | x in s'.running
      ensures PhaseOk(sha, s', x, s'.running[x])
    {
      PhaseSame(sha, s, s', x, s.running[x]);
    }
    forall x: nat | x in s'.returned
      ensures ReturnOk(s', x, s'.returned[x])
    {
      ReturnSame(s, s', x, s.returned[x]);
    }
    forall x: nat | x in s'.delayed
      ensures DelayedOk(sha, s', x)
    {
      DelayedReturned(sha, s, x);
      DelayedSame(sha, s, s', x);
    }
  }

  /** A put that gives up while its request may still be travelling. */
  lemma DelayedKeeps(sha: Bytes -> string, s: System, op: Op, o: Outcome)
    requires InvBut(sha, s, op.id) && op.start <= |s.log| && Unlogged(s.log, op.id) && GaveUp(op.req, o)
    requires op.req.Put? && Checked(sha, op.req)
    ensures Inv(sha, Return(Delay(s, op), op, o))
  {
    hide Inv, InvBut, Checked;
    UnansweredKeeps(sha, s, op, o);
    DelayKeeps(sha, Return(s, op, o), op.id);
    assert Return(Delay(s, op), op, o) == Return(s, op, o).(delayed := s.delayed + {op.id});
  }

  /** A call that takes effect and returns, without changing the bucket. */
  lemma AnswerKeeps(sha: Bytes -> string, s: System, op: Op, o: Outcome)
    requires InvBut(sha, s, op.id) && op.start <= |s.log| && Unlogged(s.log, op.id)
    requires Atomic(sha, Abstract(s.bucket), op.req) == (Abstract(s.bucket), o)
    ensures Inv(sha, Return(Log(s, op, o), op, o))
  {
    LogKeeps(sha, s, s.bucket, op, o);
    assert s.(bucket := s.bucket) == s;
    ReturnKeeps(sha, Log(s, op, o), op, o);
  }

  lemma CallCounted(sha: Bytes -> string, s: System)
    requires Inv(sha, s)
    ensures InvBut(sha, s.(calls := s.calls + 1), s.calls) && Unlogged(s.log, s.calls)
  {
    hide PhaseOk, ReturnOk, DelayedOk;
    var s' := s.(calls := s.calls + 1);
    LogSame(sha, s, s');
    forall x: nat | x in s'.running
      ensures PhaseOk(sha, s', x, s'.running[x])
    {
      PhaseSame(sha, s, s', x, s.running[x]);
    }
    forall x: nat | x in s'.returned
      ensures ReturnOk(s', x, s'.returned[x])
    {
      ReturnSame(s, s', x, s.returned[x]);
    }
    forall x: nat | x in s'.delayed
      ensures DelayedOk(sha, s', x)
    {
      DelayedReturned(sha, s, x);
      DelayedSame(sha, s, s', x);
    }
  }

  lemma BeginKeeps(sha: Bytes -> string, s: System, req: Request)
    requires Inv(sha, s)
    ensures Inv(sha, Begin(sha, s, req))
  {
    hide Inv, InvBut, Unlogged, Checked, Refusal, Return, Log, Continue;
    CallCounted(sha, s);
    BeginCounted(sha, s.(calls := s.calls + 1), Op(s.calls, req, |s.log|));
  }

  lemma BeginCounted(sha: Bytes -> string, s: System, op: Op)
    requires InvBut(sha, s, op.id) && Unlogged(s.log, op.id) && op.start == |s.log| && op.id < s.calls
    ensures Checked(sha, op.req) ==> Inv(sha, Continue(s, FirstHead(op)))
    ensures !Checked(sha, op.req) ==> Inv(sha, Return(Log(s, op, Refusal(op.req)), op, Refusal(op.req)))
  {
    hide Inv, InvBut, LogOk, ValidKey, ValidInput, Unlogged;
    if Checked(sha, op.req) {
      ContinueKeeps(sha, s, FirstHead(op));
    } else {
      AnswerKeeps(sha, s, op, Refusal(op.req));
    }
  }

  /** Equal metadata means equal content. */
  lemma SameMetadataSameObject(sha: Bytes -> string, s: System, r: Request)
    requires Injective(sha) && LogOk(sha, s) && Checked(sha, r) && r.Put? && r.key in s.bucket
    ensures HeadOf(r.key, s.bucket[r.key]) == Expected(r) <==> Abstract(s.bucket)[r.key] == Stored(r.data, Expected(r))
  {
    assert WellStored(sha, r.key, s.bucket[r.key]);
  }

  lemma FirstHeadKeeps(sha: Bytes -> string, s: System, op: Op)
    requires Injective(sha) && InvBut(sha, s, op.id) && PhaseOk(sha, s, op.id, FirstHead(op))
    ensures Inv(sha, AfterFirstHead(s, op))
  {
    HeadFinds(sha, s, op.req.key);
    if op.req.Put? && op.req.key in s.bucket {
      SameMetadataSameObject(sha, s, op.req);
      AnswerKeeps(sha, s, op, Atomic(sha, Abstract(s.bucket), op.req).1);
    } else if op.req.Put? {
      ContinueKeeps(sha, s, SendPut(op));
    } else if op.req.Get? && op.req.key in s.bucket {
      ContinueKeeps(sha, s, ReadBody(op, HeadOf(op.req.key, s.bucket[op.req.key])));
    } else {
      AnswerKeeps(sha, s, op, HeadAnswer(s, op.req.key));
    }
  }

  /** Storing under a free key is what the atomic store does. */
  lemma StoreMeans(sha: Bytes -> string, s: System, op: Op)
    requires LogOk(sha, s) && op.req.Put? && Checked(sha, op.req) && op.req.key !in s.bucket
    ensures var bucket := s.bucket[op.req.key := Remote(op.req.data, op.req.contentType, op.req.sha256)];
            && Atomic(sha, Abstract(s.bucket), op.req) == (Abstract(bucket), Described(Expected(op.req)))
            && forall k :: k in bucket ==> WellStored(sha, k, bucket[k])
  {
    var bucket := s.bucket[op.req.key := Remote(op.req.data, op.req.contentType, op.req.sha256)];
    assert Abstract(bucket) == Abstract(s.bucket)[op.req.key := Stored(op.req.data, Expected(op.req))];
  }

  lemma StoreKeeps(sha: Bytes -> string, s: System, op: Op)
    requires InvBut(sha, s, op.id) && PhaseOk(sha, s, op.id, SendPut(op)) && op.req.key !in s.bucket
    ensures InvBut(sha, Store(s, op), op.id)
    ensures PhaseOk(sha, Store(s, op), op.id, Confirm(op))
  {
    var bucket := s.bucket[op.req.key := Remote(op.req.data, op.req.contentType, op.req.sha256)];
    StoreMeans(sha, s, op);
    LogKeeps(sha, s, bucket, op, Described(Expected(op.req)));
  }

  lemma SendKeeps(sha: Bytes -> string, s: System, op: Op, reply: Reply)
    requires InvBut(sha, s, op.id) && PhaseOk(sha, s, op.id, SendPut(op))
    ensures Inv(sha, AfterSend(s, op, reply))
  {
    hide Inv, InvBut, Checked, HeadOf, Return, Log, Continue, Delay, GaveUp;
    if op.req.key !in s.bucket && (reply.Answered? || reply.Retried? || reply.AnswerLost?) {
      StoredKeeps(sha, s, op, reply);
    } else if reply.Lost? {
      GivenUp(op.req);
      DelayedKeeps(sha, s, op, Failed(Unavailable));
    } else if reply.AnswerLost? {
      GivenUp(op.req);
      UnansweredKeeps(sha, s, op, Failed(Unavailable));
    } else {
      ContinueKeeps(sha, s, Recheck(op, false));
    }
  }

  lemma GivenUp(r: Request)
    ensures GaveUp(r, Failed(Unavailable))
  {
  }

  lemma StoredKeeps(sha: Bytes -> string, s: System, op: Op, reply: Reply)
    requires InvBut(sha, s, op.id) && PhaseOk(sha, s, op.id, SendPut(op)) && op.req.key !in s.bucket
    ensures reply.Answered? ==> Inv(sha, Continue(Store(s, op), Confirm(op)))
    ensures reply.Retried? ==> Inv(sha, Continue(Store(s, op), Recheck(op, true)))
    ensures reply.AnswerLost? ==> Inv(sha, Return(Store(s, op), op, Failed(Unavailable)))
  {
    hide Inv, InvBut, Checked, HeadOf, Return, Log, Continue, Store;
    StoreKeeps(sha, s, op);
    if reply.AnswerLost? {
      LostKeeps(sha, Store(s, op), Confirm(op));
    } else if reply.Answered? || reply.Retried? {
      ContinueKeeps(sha, Store(s, op), if reply.Answered? then Confirm(op) else Recheck(op, true));
    }
  }

  lemma ConfirmKeeps(sha: Bytes -> string, s: System, op: Op)
    requires InvBut(sha, s, op.id) && PhaseOk(sha, s, op.id, Confirm(op))
    ensures Inv(sha, AfterConfirm(s, op))
  {
    HeadFinds(sha, s, op.req.key);
    ReturnKeeps(sha, s, op, Described(Expected(op.req)));
  }

  lemma RecheckKeeps(sha: Bytes -> string, s: System, op: Op, applied: bool)
    requires Injective(sha) && InvBut(sha, s, op.id) && PhaseOk(sha, s, op.id, Recheck(op, applied))
    ensures Inv(sha, AfterRecheck(s, op, applied))
  {
    HeadFinds(sha, s, op.req.key);
    if applied {
      ReturnKeeps(sha, s, op, Described(Expected(op.req)));
    } else if op.req.key in s.bucket {
      SameMetadataSameObject(sha, s, op.req);
      AnswerKeeps(sha, s, op, Atomic(sha, Abstract(s.bucket), op.req).1);
    } else {
      DelayedKeeps(sha, s, op, Failed(NotFound));
    }
  }

  lemma ReadKeeps(sha: Bytes -> string, s: System, op: Op, seen: Metadata)
    requires InvBut(sha, s, op.id) && PhaseOk(sha, s, op.id, ReadBody(op, seen))
    ensures Inv(sha, AfterRead(sha, s, op, seen))
  {
    assert WellStored(sha, op.req.key, s.bucket[op.req.key]);
    AnswerKeeps(sha, s, op, Content(s.bucket[op.req.key].data));
  }

  /** A call that stops in any phase because its request or answer is lost. */
  lemma LostKeeps(sha: Bytes -> string, s: System, p: Phase)
    requires InvBut(sha, s, p.op.id) && PhaseOk(sha, s, p.op.id, p)
    ensures Inv(sha, Return(if p.Recheck? && !p.applied then Delay(s, p.op) else s, p.op, Failed(Unavailable)))
  {
    if p.Confirm? || (p.Recheck? && p.applied) {
      ReturnKeeps(sha, s, p.op, Failed(Unavailable));
    } else if p.Recheck? {
      DelayedKeeps(sha, s, p.op, Failed(Unavailable));
    } else {
      UnansweredKeeps(sha, s, p.op, Failed(Unavailable));
    }
  }

  /** The put takes effect when it arrives, as a success nobody was told of. */
  lemma ArrivalKeeps(sha: Bytes -> string, s: System, id: nat)
    requires Inv(sha, s)
    ensures Inv(sha, AfterArrival(s, id))
  {
    if id in s.delayed && s.returned[id].op.req.key !in s.bucket {
      assert DelayedOk(sha, s, id) && ReturnOk(s, id, s.returned[id]);
      var op := s.returned[id].op;
      var bucket := s.bucket[op.req.key := Remote(op.req.data, op.req.contentType, op.req.sha256)];
      StoreMeans(sha, s, op);
      LateStoreKeeps(sha, s, bucket, op, Described(Expected(op.req)));
    }
  }

  lemma LateStoreKeeps(sha: Bytes -> string, s: System, bucket: map<string, Remote>, op: Op, o: Outcome)
    requires Inv(sha, s) && op.id in s.delayed && s.returned[op.id].op == op && Unlogged(s.log, op.id)
    requires op.req.Put? && o == Described(Expected(op.req)) && op.req.key in bucket
    requires Atomic(sha, Abstract(s.bucket), op.req) == (Abstract(bucket), o)
    requires forall k :: k in s.bucket ==> k in bucket && bucket[k] == s.bucket[k]
    requires forall k :: k in bucket ==> WellStored(sha, k, bucket[k])
    ensures Inv(sha, Log(s.(bucket := bucket), op, o))
  {
    hide LogOk, PhaseOk, ReturnOk, Checked, GaveUp, WellStored, Atomic, Abstract;
    var e := Entry(op.id, op.req, o);
    var s' := Log(s.(bucket := bucket), op, o);
    assert DelayedOk(sha, s, op.id) && ReturnOk(s, op.id, s.returned[op.id]);
    LogStaysOk(sha, s, bucket, op, o);
    LateReturn(s, bucket, s.returned[op.id]);
    forall x: nat | x in s'.running
      ensures PhaseOk(sha, s', x, s'.running[x]) && x !in s'.returned
    {
      assert PhaseOk(sha, s, x, s.running[x]) && x != op.id;
      OtherPhaseStays(sha, s, bucket, e, x, s.running[x]);
    }
    forall x: nat | x in s'.returned
      ensures ReturnOk(s', x, s'.returned[x])
    {
      assert ReturnOk(s, x, s.returned[x]);
      if x != op.id { OtherReturnStays(s, bucket, e, x, s.returned[x]); }
    }
    forall x: nat | x in s'.delayed
      ensures DelayedOk(sha, s', x)
    {
      assert DelayedOk(sha, s, x);
      if x != op.id { OtherDelayedStays(sha, s, bucket, e, x); }
    }
  }

  lemma LateReturn(s: System, bucket: map<string, Remote>, r: Returned)
    requires r.op.req.Put? && GaveUp(r.op.req, r.outcome) && ReturnOk(s, r.op.id, r)
    ensures ReturnOk(s.(bucket := bucket, log := s.log + [Entry(r.op.id, r.op.req, Described(Expected(r.op.req)))]),
                     r.op.id, r)
  {
    assert Logged(s.log + [Entry(r.op.id, r.op.req, Described(Expected(r.op.req)))], |s.log|, r.op,
                  Described(Expected(r.op.req)));
  }

  /** A running call stands between its start and its return. */
  lemma RunningFacts(sha: Bytes -> string, s: System, id: nat)
    requires Inv(sha, s) && id in s.running
    ensures InvBut(sha, s, id) && PhaseOk(sha, s, id, s.running[id]) && s.running[id].op.id == id
    ensures s.running[id].SendPut? || s.running[id].Recheck? ==> s.running[id].op.req.Put?
  {
    hide LogOk, ReturnOk, DelayedOk;
    assert PhaseOk(sha, s, id, s.running[id]);
  }

  lemma DeliverKeeps(sha: Bytes -> string, s: System, id: nat, reply: Reply)
    requires Injective(sha) && Inv(sha, s) && id in s.running
    ensures Inv(sha, Step(sha, s, Deliver(id, reply)))
  {
    hide Inv, InvBut, PhaseOk, Return, Delay, AfterFirstHead, AfterSend, AfterConfirm, AfterRecheck, AfterRead;
    RunningFacts(sha, s, id);
    var p := s.running[id];
    match p
    case SendPut(op) => SendKeeps(sha, s, op, reply);
    case FirstHead(op) => if reply.Answered? { FirstHeadKeeps(sha, s, op); } else { LostKeeps(sha, s, p); }
    case Confirm(op) => if reply.Answered? { ConfirmKeeps(sha, s, op); } else { LostKeeps(sha, s, p); }
    case Recheck(op, applied) =>
      if reply.Answered? { RecheckKeeps(sha, s, op, applied); } else { LostKeeps(sha, s, p); }
    case ReadBody(op, seen) => if reply.Answered? { ReadKeeps(sha, s, op, seen); } else { LostKeeps(sha, s, p); }
  }

  lemma StepKeeps(sha: Bytes -> string, s: System, a: Action)
    requires Injective(sha) && Inv(sha, s)
    ensures Inv(sha, Step(sha, s, a))
  {
    hide Inv, Begin, AfterArrival, AfterFirstHead, AfterSend, AfterConfirm, AfterRecheck, AfterRead;
    match a
    case Invoke(req) => BeginKeeps(sha, s, req);
    case Arrive(id) => ArrivalKeeps(sha, s, id);
    case Deliver(id, reply) => if id in s.running { DeliverKeeps(sha, s, id, reply); }
  }

  lemma {:induction false} RunKeeps(sha: Bytes -> string, actions: seq<Action>)
    requires Injective(sha)
    ensures Inv(sha, Run(sha, actions))
  {
    if actions != [] {
      RunKeeps(sha, actions[..|actions|-1]);
      StepKeeps(sha, Run(sha, actions[..|actions|-1]), actions[|actions|-1]);
    }
  }
}
