/** What S3 calls come to, and when. */
module S3Progress {
  import opened ObjectStorage
  import opened S3Protocol
  import opened S3Guarantees

  // ----- One step, seen from one call

  /** Nothing but call `x` is touched, nothing leaves the log, and no call is made. */
  ghost predicate OnlyTouches(s: System, s': System, x: nat)
  {
    && (forall id: nat :: id != x ==> (id in s'.running <==> id in s.running))
    && (forall id: nat :: id != x ==> (id in s'.returned <==> id in s.returned))
    && (forall id: nat :: id != x && id in s.running ==> s'.running[id] == s.running[id])
    && (forall id: nat :: id != x && id in s.returned ==> s'.returned[id] == s.returned[id])
    && |s'.log| >= |s.log| && s'.calls == s.calls
  }

  lemma HeadTouches(s: System, op: Op)
    ensures OnlyTouches(s, AfterFirstHead(s, op), op.id)
  {
    hide HeadAnswer, ValidKey, ValidInput;
  }

  lemma SendTouches(s: System, op: Op, reply: Reply)
    requires op.req.Put?
    ensures OnlyTouches(s, AfterSend(s, op, reply), op.id)
  {
  }

  lemma RecheckTouches(s: System, op: Op, applied: bool)
    requires op.req.Put?
    ensures OnlyTouches(s, AfterRecheck(s, op, applied), op.id)
  {
    hide HeadAnswer;
  }

  lemma ReadTouches(sha: Bytes -> string, s: System, op: Op, seen: Metadata)
    ensures OnlyTouches(s, AfterRead(sha, s, op, seen), op.id)
  {
  }

  lemma EndTouches(s: System, op: Op, o: Outcome)
    ensures OnlyTouches(s, Return(s, op, o), op.id) && OnlyTouches(s, Return(Delay(s, op), op, o), op.id)
    ensures OnlyTouches(s, AfterConfirm(s, op), op.id)
  {
    hide HeadAnswer;
  }

  lemma DeliveryTouches(sha: Bytes -> string, s: System, x: nat, reply: Reply)
    requires x in s.running ==> s.running[x].op.id == x
    ensures OnlyTouches(s, Step(sha, s, Deliver(x, reply)), x)
  {
    hide OnlyTouches, AfterFirstHead, AfterSend, AfterRecheck, AfterRead, AfterConfirm, Return, Delay;
    NothingTouched(s, x);
    if x in s.running {
      var op := s.running[x].op;
      EndTouches(s, op, Failed(Unavailable));
      match s.running[x]
      case FirstHead(_) => HeadTouches(s, op);
      case SendPut(_) => if op.req.Put? { SendTouches(s, op, reply); }
      case Confirm(_) =>
      case Recheck(_, applied) => if op.req.Put? { RecheckTouches(s, op, applied); }
      case ReadBody(_, seen) => ReadTouches(sha, s, op, seen);
    }
  }

  lemma NothingTouched(s: System, x: nat)
    ensures OnlyTouches(s, s, x)
  {
  }

  /** A step that neither makes nor answers call `id` leaves it where it is. */
  lemma OtherStep(sha: Bytes -> string, s: System, a: Action, id: nat)
    requires Inv(sha, s) && (a.Invoke? ==> id != s.calls) && (a.Deliver? ==> a.id != id || id !in s.running)
    ensures var s' := Step(sha, s, a);
            && (id in s'.running <==> id in s.running) && (id in s.running ==> s'.running[id] == s.running[id])
            && (id in s'.returned <==> id in s.returned) && (id in s.returned ==> s'.returned[id] == s.returned[id])
  {
    match a
    case Invoke(req) => OtherInvoke(sha, s, req, id);
    case Arrive(x) => ArrivalTouches(s, x, id);
    case Deliver(x, reply) =>
      if x in s.running {
        RunningOwn(sha, s, x);
        OtherDelivery(sha, s, x, reply, id);
      }
  }

  lemma OtherDelivery(sha: Bytes -> string, s: System, x: nat, reply: Reply, id: nat)
    requires x in s.running && s.running[x].op.id == x && x != id
    ensures var s' := Step(sha, s, Deliver(x, reply));
            && (id in s'.running <==> id in s.running) && (id in s.running ==> s'.running[id] == s.running[id])
            && (id in s'.returned <==> id in s.returned) && (id in s.returned ==> s'.returned[id] == s.returned[id])
  {
    hide Step;
    DeliveryTouches(sha, s, x, reply);
  }

  lemma RunningOwn(sha: Bytes -> string, s: System, x: nat)
    requires Inv(sha, s) && x in s.running
    ensures s.running[x].op.id == x
  {
    hide LogOk, ReturnOk, DelayedOk;
    assert PhaseOk(sha, s, x, s.running[x]);
  }

  lemma OtherInvoke(sha: Bytes -> string, s: System, req: Request, id: nat)
    requires id != s.calls
    ensures var s' := Begin(sha, s, req);
            && (id in s'.running <==> id in s.running) && (id in s.running ==> s'.running[id] == s.running[id])
            && (id in s'.returned <==> id in s.returned) && (id in s.returned ==> s'.returned[id] == s.returned[id])
  {
    hide Checked, Refusal;
  }

  lemma ArrivalTouches(s: System, x: nat, id: nat)
    ensures var s' := AfterArrival(s, x);
            && s'.running == s.running && s'.returned == s.returned && s'.calls == s.calls && |s'.log| >= |s.log|
  {
  }

  /** A new call is given the next number and its request, and starts where the log stands. */
  lemma InvokeStep(sha: Bytes -> string, s: System, req: Request)
    requires Inv(sha, s)
    ensures var s' := Step(sha, s, Invoke(req));
            var op := Op(s.calls, req, |s.log|);
            && s'.calls == s.calls + 1
            && if Checked(sha, req) then s.calls !in s'.returned && s.calls in s'.running
                                         && s'.running[s.calls] == FirstHead(op)
               else s.calls !in s'.running && s.calls in s'.returned && s'.returned[s.calls].op == op
                    && s'.returned[s.calls].outcome == Refusal(req)
  {
    hide HeadAnswer, ValidKey, ValidInput, LogOk, ReturnOk, DelayedOk, PhaseOk;
  }

  /** How many more deliveries a running call can take. */
  function Remaining(p: Phase): nat
  {
    match p case FirstHead(_) => 3 case SendPut(_) => 2 case _ => 1
  }

  /** The call is answered, its end at the end of the log, or closer to its answer. */
  ghost predicate Advances(s': System, op: Op, before: nat)
  {
    if op.id in s'.running then
      && op.id !in s'.returned && s'.running[op.id].op == op && Remaining(s'.running[op.id]) < before
    else
      op.id in s'.returned && s'.returned[op.id].op == op && s'.returned[op.id].end == |s'.log|
  }

  lemma HeadAdvances(s: System, op: Op)
    requires op.id !in s.returned
    ensures Advances(AfterFirstHead(s, op), op, 3)
  {
    hide HeadAnswer;
  }

  lemma SendAdvances(s: System, op: Op, reply: Reply)
    requires op.id !in s.returned && op.req.Put?
    ensures Advances(AfterSend(s, op, reply), op, 2)
  {
  }

  lemma LastAdvances(sha: Bytes -> string, s: System, op: Op, applied: bool, seen: Metadata)
    ensures op.req.Put? ==> Advances(AfterRecheck(s, op, applied), op, 1)
    ensures Advances(AfterConfirm(s, op), op, 1) && Advances(AfterRead(sha, s, op, seen), op, 1)
  {
    hide HeadAnswer;
  }

  lemma EndAdvances(s: System, op: Op, o: Outcome, before: nat)
    ensures Advances(Return(s, op, o), op, before) && Advances(Return(Delay(s, op), op, o), op, before)
  {
  }

  /** A delivery answers the call or brings it closer to its answer. */
  lemma DeliveryAdvances(sha: Bytes -> string, s: System, id: nat, reply: Reply)
    requires Inv(sha, s) && id in s.running
    ensures s.running[id].op.id == id
    ensures Advances(Step(sha, s, Deliver(id, reply)), s.running[id].op, Remaining(s.running[id]))
  {
    hide Advances, AfterFirstHead, AfterSend, AfterRecheck, AfterRead, AfterConfirm, Return, Delay, Inv;
    RunningFacts(sha, s, id);
    RunningNotReturned(sha, s, id);
    var op := s.running[id].op;
    EndAdvances(s, op, Failed(Unavailable), Remaining(s.running[id]));
    match s.running[id]
    case FirstHead(_) => HeadAdvances(s, op);
    case SendPut(_) => SendAdvances(s, op, reply);
    case Confirm(_) => LastAdvances(sha, s, op, false, Metadata("", 0, "", ""));
    case Recheck(_, applied) => LastAdvances(sha, s, op, applied, Metadata("", 0, "", ""));
    case ReadBody(_, seen) => LastAdvances(sha, s, op, false, seen);
  }

  /** The key of a running put that was refused holds an object. */
  ghost predicate RefusedByObject(s: System, id: nat)
  {
    id in s.running && s.running[id].Recheck? ==> s.running[id].op.req.key in s.bucket
  }

  /** What a delivery can make a call return. */
  lemma DeliveryAnswers(sha: Bytes -> string, s: System, id: nat, reply: Reply)
    requires Injective(sha) && Inv(sha, s) && id in s.running && RefusedByObject(s, id)
    ensures var s' := Step(sha, s, Deliver(id, reply));
            && (reply != InFlight ==> RefusedByObject(s', id))
            && (id in s'.returned ==>
                  && (reply == Answered ==> s'.returned[id].outcome != Failed(Unavailable))
                  && (s'.returned[id].op.req.Put? ==> s'.returned[id].outcome != Failed(NotFound)))
  {
    hide ValidKey, ValidInput, ReturnOk, DelayedOk, Checked, HeadAnswer;
    var p := s.running[id];
    assert PhaseOk(sha, s, id, p);
    HeadFinds(sha, s, p.op.req.key);
    if p.ReadBody? {
      assert WellStored(sha, p.op.req.key, s.bucket[p.op.req.key]);
    }
  }

  /** Which sends reach the bucket at once; a lost one may still reach it later. */
  lemma SendReaches(s: System, op: Op, reply: Reply)
    requires op.req.Put?
    ensures AfterSend(s, op, reply).bucket
         == if op.req.key !in s.bucket && reply in {Answered, Retried, AnswerLost}
            then s.bucket[op.req.key := Remote(op.req.data, op.req.contentType, op.req.sha256)] else s.bucket
    ensures reply == Lost ==> op.id in AfterSend(s, op, reply).delayed
  {
  }

  /** A get compares what it reads, whatever the bucket holds by then, with the metadata it saw before. */
  lemma ReadCompares(sha: Bytes -> string, s: System, op: Op, seen: Metadata)
    ensures var s' := AfterRead(sha, s, op, seen);
            && op.id in s'.returned
            && (op.req.key !in s.bucket ==> s'.returned[op.id].outcome == Failed(NotFound))
            && (op.req.key in s.bucket ==>
                  var body := s.bucket[op.req.key].data;
                  var data := if |body| > 26_214_401 then body[..26_214_401] else body;
                  s'.returned[op.id].outcome
                  == if |data| == seen.size && sha(data) == seen.sha256 then Content(data)
                     else Failed(ChecksumMismatch))
  {
  }

  /** A put given up that arrives late stores its object under a free key. */
  lemma LateReaches(s: System, id: nat)
    requires id in s.delayed && id in s.returned && s.returned[id].op.req.Put?
    ensures var r := s.returned[id].op.req;
            AfterArrival(s, id).bucket
            == if r.key in s.bucket then s.bucket else s.bucket[r.key := Remote(r.data, r.contentType, r.sha256)]
  {
  }

  // ----- Whole runs, seen from one call

  /** Action `k` of the run is a delivery to call `id` while it runs. */
  ghost predicate Delivered(sha: Bytes -> string, actions: seq<Action>, id: nat, k: nat, reply: Reply)
  {
    k < |actions| && actions[k] == Deliver(id, reply) && id in Run(sha, actions[..k]).running
  }

  lemma DeliveredBefore(sha: Bytes -> string, actions: seq<Action>, id: nat, k: nat, reply: Reply)
    requires actions != [] && Delivered(sha, actions[..|actions| - 1], id, k, reply)
    ensures Delivered(sha, actions, id, k, reply)
  {
    assert actions[..|actions| - 1][..k] == actions[..k];
  }

  ghost predicate SomeDelivered(sha: Bytes -> string, actions: seq<Action>, id: nat, reply: Reply)
  {
    exists k: nat :: Delivered(sha, actions, id, k, reply)
  }

  lemma SomeBefore(sha: Bytes -> string, actions: seq<Action>, id: nat, reply: Reply)
    requires actions != [] && SomeDelivered(sha, actions[..|actions| - 1], id, reply)
    ensures SomeDelivered(sha, actions, id, reply)
  {
    var k: nat :| Delivered(sha, actions[..|actions| - 1], id, k, reply);
    DeliveredBefore(sha, actions, id, k, reply);
  }

  /** Something went wrong with a delivery to the call. */
  ghost predicate SomeFailed(sha: Bytes -> string, actions: seq<Action>, id: nat)
  {
    exists reply :: reply != Answered && SomeDelivered(sha, actions, id, reply)
  }

  /** Everything a call can suffer has its cause among the deliveries to it. */
  ghost predicate Caused(sha: Bytes -> string, actions: seq<Action>, id: nat)
  {
    var s := Run(sha, actions);
    && (RefusedByObject(s, id) || SomeDelivered(sha, actions, id, InFlight))
    && (id in s.returned && s.returned[id].outcome == Failed(Unavailable) ==> SomeFailed(sha, actions, id))
    && (id in s.returned && s.returned[id].op.req.Put? && s.returned[id].outcome == Failed(NotFound) ==>
          SomeDelivered(sha, actions, id, InFlight))
  }

  lemma {:induction false} ContactCauses(sha: Bytes -> string, actions: seq<Action>, id: nat)
    requires Injective(sha)
    ensures Caused(sha, actions, id)
  {
    if actions != [] {
      var k := |actions| - 1;
      var before, a := Run(sha, actions[..k]), actions[k];
      ContactCauses(sha, actions[..k], id);
      RunKeeps(sha, actions[..k]);
      if a.Deliver? && a.id == id && id in before.running {
        CausedByDelivery(sha, actions, id);
      } else if a.Invoke? && id == before.calls {
        CausedByInvoke(sha, actions, id);
      } else {
        CausedByOther(sha, actions, id);
      }
    }
  }

  lemma CausedByDelivery(sha: Bytes -> string, actions: seq<Action>, id: nat)
    requires Injective(sha) && actions != []
    requires var k := |actions| - 1;
             && Caused(sha, actions[..k], id) && Inv(sha, Run(sha, actions[..k]))
             && actions[k].Deliver? && actions[k].id == id && id in Run(sha, actions[..k]).running
    ensures Caused(sha, actions, id)
  {
    hide Step, Inv, RefusedByObject, Delivered;
    var k := |actions| - 1;
    var before, reply := Run(sha, actions[..k]), actions[k].reply;
    CausesKept(sha, actions, id);
    LastDelivered(sha, actions, id, reply);
    RunningNotReturned(sha, before, id);
    if RefusedByObject(before, id) {
      DeliveryAnswers(sha, before, id, reply);
    }
  }

  lemma LastDelivered(sha: Bytes -> string, actions: seq<Action>, id: nat, reply: Reply)
    requires actions != [] && actions[|actions| - 1] == Deliver(id, reply)
    requires id in Run(sha, actions[..|actions| - 1]).running
    ensures SomeDelivered(sha, actions, id, reply) && (reply != Answered ==> SomeFailed(sha, actions, id))
  {
    assert Delivered(sha, actions, id, |actions| - 1, reply);
  }

  lemma CausedByInvoke(sha: Bytes -> string, actions: seq<Action>, id: nat)
    requires actions != []
    requires var k := |actions| - 1;
             Inv(sha, Run(sha, actions[..k])) && actions[k].Invoke? && id == Run(sha, actions[..k]).calls
    ensures Caused(sha, actions, id)
  {
    hide Step, Inv, ValidKey, ValidInput, SomeDelivered;
    InvokeStep(sha, Run(sha, actions[..|actions| - 1]), actions[|actions| - 1].req);
  }

  lemma CausedByOther(sha: Bytes -> string, actions: seq<Action>, id: nat)
    requires actions != []
    requires var k := |actions| - 1;
             var before, a := Run(sha, actions[..k]), actions[k];
             && Caused(sha, actions[..k], id) && Inv(sha, before)
             && (a.Invoke? ==> id != before.calls) && (a.Deliver? ==> a.id != id || id !in before.running)
    ensures Caused(sha, actions, id)
  {
    hide Step, Inv, SomeDelivered;
    var k := |actions| - 1;
    var before, a := Run(sha, actions[..k]), actions[k];
    CausesKept(sha, actions, id);
    OtherStep(sha, before, a, id);
    if id in before.running && before.running[id].op.req.key in before.bucket {
      StepKeepsObjects(sha, before, a, before.running[id].op.req.key);
    }
  }

  lemma CausesKept(sha: Bytes -> string, actions: seq<Action>, id: nat)
    requires actions != []
    ensures SomeDelivered(sha, actions[..|actions| - 1], id, InFlight) ==> SomeDelivered(sha, actions, id, InFlight)
    ensures SomeFailed(sha, actions[..|actions| - 1], id) ==> SomeFailed(sha, actions, id)
  {
    if SomeDelivered(sha, actions[..|actions| - 1], id, InFlight) {
      SomeBefore(sha, actions, id, InFlight);
    }
    if SomeFailed(sha, actions[..|actions| - 1], id) {
      var reply :| reply != Answered && SomeDelivered(sha, actions[..|actions| - 1], id, reply);
      SomeBefore(sha, actions, id, reply);
    }
  }

  lemma RunningNotReturned(sha: Bytes -> string, s: System, id: nat)
    requires Inv(sha, s) && id in s.running
    ensures id !in s.returned
  {
    assert PhaseOk(sha, s, id, s.running[id]);
  }

  /** A call that returned "unavailable" had a delivery that was not answered. */
  lemma {:induction false} UnavailableHasCause(sha: Bytes -> string, actions: seq<Action>, id: nat)
    requires Injective(sha)
    requires var s := Run(sha, actions); id in s.returned && s.returned[id].outcome == Failed(Unavailable)
    ensures exists k: nat, reply :: reply != Answered && Delivered(sha, actions, id, k, reply)
  {
    ContactCauses(sha, actions, id);
    var reply :| reply != Answered && SomeDelivered(sha, actions, id, reply);
    var k: nat :| Delivered(sha, actions, id, k, reply);
  }

  /** A put that returned "not found" was once refused for a request in flight. */
  lemma {:induction false} MissingPutHasCause(sha: Bytes -> string, actions: seq<Action>, id: nat)
    requires Injective(sha)
    requires var s := Run(sha, actions);
             id in s.returned && s.returned[id].op.req.Put? && s.returned[id].outcome == Failed(NotFound)
    ensures exists k: nat :: Delivered(sha, actions, id, k, InFlight)
  {
    ContactCauses(sha, actions, id);
  }

  /** A valid put whose deliveries were all answered stores its object or meets another: never an error of contact. */
  lemma {:induction false} AnsweredPut(sha: Bytes -> string, actions: seq<Action>, id: nat)
    requires Injective(sha)
    requires var s := Run(sha, actions);
             id in s.returned && s.returned[id].op.req.Put? && Checked(sha, s.returned[id].op.req)
    requires forall k: nat, reply :: Delivered(sha, actions, id, k, reply) ==> reply == Answered
    ensures var s := Run(sha, actions);
            var r := s.returned[id].op.req;
            && r.key in s.bucket
            && s.returned[id].outcome == if s.bucket[r.key] == Remote(r.data, r.contentType, r.sha256)
                                         then Described(Expected(r)) else Failed(Conflict)
  {
    hide Run, PhaseOk, WellStored, Injective, Checked;
    var s := Run(sha, actions);
    ContactCauses(sha, actions, id);
    RunKeeps(sha, actions);
    var r := s.returned[id];
    assert ReturnOk(s, id, r);
    assert !GaveUp(r.op.req, r.outcome);
    var i :| Logged(s.log, i, r.op, r.outcome) && i < r.end;
    LoggedPut(sha, s, i);
  }

  /** A logged put that passed its checks found its own object, or another one that is still there. */
  lemma LoggedPut(sha: Bytes -> string, s: System, i: nat)
    requires LogOk(sha, s) && i < |s.log| && s.log[i].req.Put? && Checked(sha, s.log[i].req)
    ensures var r := s.log[i].req;
            && r.key in s.bucket
            && s.log[i].outcome == if s.bucket[r.key] == Remote(r.data, r.contentType, r.sha256)
                                   then Described(Expected(r)) else Failed(Conflict)
  {
    hide ValidKey, ValidInput, WellStored;
    var r := s.log[i].req;
    LegalAt(sha, s.log, i);
    if s.log[i].outcome.Described? {
      StoredByPut(sha, s.log, i);
    } else {
      ReplayGrows(sha, s.log, i, r.key);
    }
  }

  // ----- Every call is answered, and in which order

  /** How many deliveries reached the call while it ran. */
  function Deliveries(sha: Bytes -> string, actions: seq<Action>, id: nat): nat
  {
    if actions == [] then 0 else
    var k := |actions| - 1;
    Deliveries(sha, actions[..k], id)
    + if actions[k].Deliver? && actions[k].id == id && id in Run(sha, actions[..k]).running then 1 else 0
  }

  /** A call that was made has returned after three deliveries, whatever their replies. */
  lemma {:induction false} ThreeDeliveriesReturn(sha: Bytes -> string, actions: seq<Action>, id: nat)
    requires Injective(sha)
    ensures var s := Run(sha, actions);
            && (id in s.running ==> Deliveries(sha, actions, id) + Remaining(s.running[id]) <= 3)
            && (id < s.calls && Deliveries(sha, actions, id) >= 3 ==> id in s.returned)
            && (id >= s.calls ==> Deliveries(sha, actions, id) == 0)
  {
    RunKeeps(sha, actions);
    if actions != [] {
      var k := |actions| - 1;
      var before, a := Run(sha, actions[..k]), actions[k];
      ThreeDeliveriesReturn(sha, actions[..k], id);
      RunKeeps(sha, actions[..k]);
      hide Step, LogOk, PhaseOk, ReturnOk, DelayedOk, ValidKey, ValidInput;
      CallsGrow(sha, before, a);
      if a.Deliver? && a.id == id && id in before.running {
        DeliveryAdvances(sha, before, id, a.reply);
      } else if a.Invoke? && id == before.calls {
        InvokeStep(sha, before, a.req);
      } else {
        OtherStep(sha, before, a, id);
      }
    }
  }

  lemma CallsGrow(sha: Bytes -> string, s: System, a: Action)
    requires Inv(sha, s)
    ensures Step(sha, s, a).calls == if a.Invoke? then s.calls + 1 else s.calls
    ensures |Step(sha, s, a).log| >= |s.log|
  {
    match a
    case Invoke(req) => InvokeGrows(sha, s, req);
    case Arrive(x) => ArrivalTouches(s, x, x);
    case Deliver(x, reply) => DeliveryGrows(sha, s, x, reply);
  }

  lemma InvokeGrows(sha: Bytes -> string, s: System, req: Request)
    ensures Begin(sha, s, req).calls == s.calls + 1 && |Begin(sha, s, req).log| >= |s.log|
  {
    hide Checked, Refusal;
  }

  lemma DeliveryGrows(sha: Bytes -> string, s: System, x: nat, reply: Reply)
    requires Inv(sha, s)
    ensures Step(sha, s, Deliver(x, reply)).calls == s.calls && |Step(sha, s, Deliver(x, reply)).log| >= |s.log|
  {
    hide Step, Inv;
    if x in s.running {
      RunningOwn(sha, s, x);
    }
    DeliveryTouches(sha, s, x, reply);
  }

  /** The requests of a run, in the order of the calls. */
  function Asked(actions: seq<Action>): seq<Request>
  {
    if actions == [] then [] else
    var k := |actions| - 1;
    Asked(actions[..k]) + if actions[k].Invoke? then [actions[k].req] else []
  }

  /** Every call is for the request it was made with, and is either running or returned. */
  lemma {:induction false} CallsAreAsked(sha: Bytes -> string, actions: seq<Action>, id: nat)
    requires Injective(sha)
    ensures var s := Run(sha, actions);
            && |Asked(actions)| == s.calls
            && (id in s.running ==> id < s.calls && s.running[id].op.req == Asked(actions)[id])
            && (id in s.returned ==> id < s.calls && s.returned[id].op.req == Asked(actions)[id])
            && (id < s.calls ==> id in s.running || id in s.returned)
  {
    RunKeeps(sha, actions);
    if actions != [] {
      var k := |actions| - 1;
      var before, a := Run(sha, actions[..k]), actions[k];
      CallsAreAsked(sha, actions[..k], id);
      RunKeeps(sha, actions[..k]);
      hide Step, LogOk, PhaseOk, ReturnOk, DelayedOk, ValidKey, ValidInput;
      CallsGrow(sha, before, a);
      if a.Deliver? && a.id == id && id in before.running {
        DeliveryAdvances(sha, before, id, a.reply);
      } else if a.Invoke? && id == before.calls {
        InvokeStep(sha, before, a.req);
      } else {
        OtherStep(sha, before, a, id);
      }
    }
  }

  /** Call `a`, returned in `s0`, is as it was, and call `b` has not started before the log of `s0` ended. */
  ghost predicate Later(s0: System, s: System, a: nat, b: nat)
    requires a in s0.returned
  {
    && |s0.log| <= |s.log| && s0.calls <= s.calls
    && a in s.returned && s.returned[a] == s0.returned[a] && s.returned[a].end <= |s0.log|
    && (b in s.running ==> |s0.log| <= s.running[b].op.start)
    && (b in s.returned ==> |s0.log| <= s.returned[b].op.start)
  }

  lemma LaterStep(sha: Bytes -> string, s0: System, s: System, next: Action, a: nat, b: nat)
    requires Inv(sha, s) && a in s0.returned && Later(s0, s, a, b)
    ensures Later(s0, Step(sha, s, next), a, b)
  {
    hide Step, Inv, ValidKey, ValidInput;
    CallsGrow(sha, s, next);
    if a in s.running {
      RunningNotReturned(sha, s, a);
    }
    ReturnedBefore(sha, s, a);
    OtherStep(sha, s, next, a);
    if next.Deliver? && next.id == b && b in s.running {
      DeliveryAdvances(sha, s, b, next.reply);
    } else if next.Invoke? && b == s.calls {
      InvokeStep(sha, s, next.req);
    } else {
      OtherStep(sha, s, next, b);
    }
  }

  lemma ReturnedBefore(sha: Bytes -> string, s: System, a: nat)
    requires Inv(sha, s) && a in s.returned
    ensures a < s.calls && s.returned[a].end <= |s.log|
  {
    assert ReturnOk(s, a, s.returned[a]);
  }

  /** A call that has returned stays as it is, and one made later starts no earlier in the log. */
  lemma {:induction false} LaterStarts(sha: Bytes -> string, before: seq<Action>, after: seq<Action>, a: nat, b: nat)
    requires Injective(sha)
    requires a in Run(sha, before).returned && b >= Run(sha, before).calls
    ensures Later(Run(sha, before), Run(sha, before + after), a, b)
  {
    hide Step, Inv, Later;
    if after == [] {
      assert before + after == before;
      RunKeeps(sha, before);
      LaterStart(sha, Run(sha, before), a, b);
    } else {
      var k := |after| - 1;
      assert (before + after)[..|before + after| - 1] == before + after[..k];
      LaterStarts(sha, before, after[..k], a, b);
      RunKeeps(sha, before + after[..k]);
      LaterStep(sha, Run(sha, before), Run(sha, before + after[..k]), after[k], a, b);
    }
  }

  lemma LaterStart(sha: Bytes -> string, s: System, a: nat, b: nat)
    requires Inv(sha, s) && a in s.returned && b >= s.calls
    ensures Later(s, s, a, b)
  {
    ReturnedBefore(sha, s, a);
  }

  /** A call that was answered before another was made takes effect before it, in any continuation of the run. */
  lemma {:induction false} AnsweredFirst(
    sha: Bytes -> string, before: seq<Action>, after: seq<Action>, a: nat, b: nat, i: nat, j: nat)
    requires Injective(sha)
    requires var s0, s := Run(sha, before), Run(sha, before + after);
             && a in s0.returned && !GaveUp(s0.returned[a].op.req, s0.returned[a].outcome)
             && b >= s0.calls && b in s.returned
             && i < |s.log| && j < |s.log| && s.log[i].op == a && s.log[j].op == b
    ensures i < j
  {
    hide Run;
    LaterStarts(sha, before, after, a, b);
    RealTimeOrder(sha, before + after, a, b, i, j);
  }
}
