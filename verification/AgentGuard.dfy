/** The budget guard of one investigation. */
module AgentGuard {
  import opened RecommendationPolicy
  import opened Wrappers
  import opened AgentContracts

  datatype Stop = Stop(reason: TerminationReason, code: Code)

  /** What the k-th question to the outside answers: the clock and the cancellation check. */
  datatype Outside = Outside(clock: nat -> int, cancelled: nat -> bool)

  /**
   * What a guarded action comes to. The question about cancellation comes first, then the wall clock, then whether the
   * action's own budget has room: the action is stopped by the first that says so, and by nothing else.
   */
  ghost predicate Decided(outside: Outside, limits: Limits, polls: nat, ticks: nat, room: bool, stop: Option<Stop>)
  {
    var late := outside.clock(ticks) - outside.clock(0) > limits.maxWallTime;
    && (outside.cancelled(polls) <==> stop == Some(Stop(Cancelled, StopCode(Cancelled))))
    && (!outside.cancelled(polls) && late <==> stop == Some(Stop(WallTimeExceeded, StopCode(WallTimeExceeded))))
    && (stop.None? <==> !outside.cancelled(polls) && !late && room)
  }

  class BudgetGuard {
    const limits: Limits
    const outside: Outside
    const started: int
    var usage: Usage
    var visited: set<(Node, Signature)>
    var ticks: nat
    var polls: nat
    ghost var reserved: Usage    // the totals when the latest model call was reserved
    ghost var open: bool         // whether a node has been entered and not left
    ghost var checked: seq<nat>  // the clock readings compared with the wall-time limit and found in time

    /** Calls stay within their limits, and every model call was reserved while all totals were below theirs. */
    ghost predicate Valid()
      reads this
    {
      && usage.steps <= limits.maxSteps
      && usage.toolErrors <= usage.toolCalls <= limits.maxToolCalls
      && usage.llmCalls <= limits.maxLlmCalls
      && (usage.llmCalls == 0 ==> usage.input == usage.output == usage.cost == 0)
      && (usage.llmCalls > 0 ==>
            && reserved.input < limits.maxInput && reserved.output < limits.maxOutput && reserved.cost < limits.maxCost
            && reserved.llmCalls < usage.llmCalls
            && reserved.input <= usage.input && reserved.output <= usage.output && reserved.cost <= usage.cost)
    }

    /** Every check so far answered in time and was not cancelled, the first one at reading 1. */
    ghost predicate Clean(asked: nat)
      reads this
    {
      && (forall k: nat :: k < asked ==> !outside.cancelled(k))
      && (forall i :: 0 <= i < |checked| ==> outside.clock(checked[i]) - started <= limits.maxWallTime)
      && (checked != [] ==> checked[0] == 1)
    }

    /** One check on entering and one on leaving a node, one for each tool and each model call. */
    ghost predicate Watchful()
      reads this
    {
      && started == outside.clock(0)
      && Clean(polls) && |checked| == polls && (polls == 0 ==> ticks == 1)
      && polls + (if open then 1 else 0) == 2 * usage.steps + usage.toolCalls + usage.llmCalls
      && ticks + (if open then 2 else 0) == 1 + 4 * usage.steps + usage.toolCalls + usage.llmCalls
      && (open ==> usage.steps > 0)
    }

    /** A stop: cancelled by the last question and no other, or by the last reading and no other, or by neither. */
    ghost predicate Stopped(reason: TerminationReason)
      reads this
    {
      var missed := if reason in {Cancelled, WallTimeExceeded} then 1 else 0;
      && polls > 0 && ticks > 0 && |checked| == polls - missed
      && Clean(if reason == Cancelled then polls - 1 else polls)
      && (reason == Cancelled ==> outside.cancelled(polls - 1))
      && (reason == WallTimeExceeded ==> outside.clock(ticks - 1) - started > limits.maxWallTime)
      && usage.steps + usage.toolCalls + usage.llmCalls <= polls - missed
    }

    /** A stop that no check raised. */
    lemma StopsInside(reason: TerminationReason)
      requires Watchful() && open && reason !in {Cancelled, WallTimeExceeded}
      ensures Stopped(reason)
    {
    }

    /** No total exceeds its limit. */
    ghost predicate Within()
      reads this
    {
      usage.input <= limits.maxInput && usage.output <= limits.maxOutput && usage.cost <= limits.maxCost
    }

    /** The cause a stop must have had; a loop has none, since no node is entered twice. */
    ghost predicate Caused(reason: TerminationReason)
      reads this
    {
      match reason
      case Cancelled => exists k: nat :: outside.cancelled(k)
      case WallTimeExceeded => exists k: nat :: outside.clock(k) - started > limits.maxWallTime
      case NodeTimeout => exists j: nat, k: nat :: outside.clock(k) - outside.clock(j) > limits.nodeTimeout
      case StepBudgetExceeded => usage.steps == limits.maxSteps
      case ToolBudgetExceeded => usage.toolCalls == limits.maxToolCalls
      case LlmBudgetExceeded =>
        || usage.llmCalls == limits.maxLlmCalls || usage.input >= limits.maxInput
        || usage.output >= limits.maxOutput || usage.cost >= limits.maxCost
      case _ => false
    }

    constructor (limits: Limits, outside: Outside)
      ensures Valid() && Within() && Watchful() && !open
      ensures this.limits == limits && this.outside == outside && started == outside.clock(0)
      ensures usage == Usage(0, 0, 0, 0, 0, 0, 0) && visited == {} && polls == 0 && ticks == 1
    {
      this.limits, this.outside := limits, outside;
      started, ticks, polls := outside.clock(0), 1, 0;
      usage, visited := Usage(0, 0, 0, 0, 0, 0, 0), {};
      reserved := Usage(0, 0, 0, 0, 0, 0, 0);
      open, checked := false, [];
    }

    method ReadClock() returns (now: int)
      modifies this`ticks
      ensures now == outside.clock(old(ticks)) && ticks == old(ticks) + 1
    {
      now := outside.clock(ticks);
      ticks := ticks + 1;
    }

    /** Cancellation is asked first, then the wall clock. */
    method CommonCheck() returns (stop: Option<Stop>)
      modifies this`ticks, this`polls, this`checked
      ensures checked == if stop.None? then old(checked) + [old(ticks)] else old(checked)
      ensures stop == if outside.cancelled(old(polls)) then Some(Stop(Cancelled, StopCode(Cancelled)))
                      else if outside.clock(old(ticks)) - started > limits.maxWallTime then
                        Some(Stop(WallTimeExceeded, StopCode(WallTimeExceeded)))
                      else None
      ensures polls == old(polls) + 1
      ensures ticks == if outside.cancelled(old(polls)) then old(ticks) else old(ticks) + 1
    {
      polls := polls + 1;
      if outside.cancelled(polls - 1) {
        return Some(Stop(Cancelled, StopCode(Cancelled)));
      }
      var now := ReadClock();
      if now - started > limits.maxWallTime {
        return Some(Stop(WallTimeExceeded, StopCode(WallTimeExceeded)));
      }
      checked := checked + [ticks - 1];
      stop := None;
    }

    /** Entering counts a step; a node is never entered twice in one state. */
    method EnterNode(node: Node, signature: Signature) returns (stop: Option<Stop>, now: int)
      requires Valid() && Watchful() && !open
      modifies this`ticks, this`polls, this`visited, this`usage, this`open, this`checked
      ensures Valid() && (old(Within()) ==> Within())
      ensures stop.None? ==> Watchful() && open
      ensures stop.Some? ==> Stopped(stop.value.reason)
      ensures stop.None? ==> usage == old(usage).(steps := old(usage).steps + 1)
      ensures stop.None? ==> visited == old(visited) + {(node, signature)} && (node, signature) !in old(visited)
      ensures stop.Some? ==> usage == old(usage) && visited == old(visited)
      ensures stop.Some? ==> stop.value.reason in {Cancelled, WallTimeExceeded, StepBudgetExceeded, LoopDetected}
      ensures stop.Some? ==> stop.value.code == StopCode(stop.value.reason)
      ensures stop.None? ==> now == outside.clock(old(ticks) + 1) && ticks == old(ticks) + 2
      ensures polls == old(polls) + 1
      ensures Decided(outside, limits, old(polls), old(ticks),
                      old(usage).steps < limits.maxSteps && (node, signature) !in old(visited), stop)
      ensures stop.Some? ==> if stop.value.reason == LoopDetected then (node, signature) in visited
                             else Caused(stop.value.reason)
    {
      now := started;
      stop := CommonCheck();
      if stop.Some? {
        return;
      }
      if usage.steps >= limits.maxSteps {
        return Some(Stop(StepBudgetExceeded, StopCode(StepBudgetExceeded))), now;
      }
      if (node, signature) in visited {
        return Some(Stop(LoopDetected, StopCode(LoopDetected))), now;
      }
      visited := visited + {(node, signature)};
      usage := usage.(steps := usage.steps + 1);
      open := true;
      now := ReadClock();
    }

    /** Leaving compares the time spent in the node before anything else. */
    method FinishNode(entered: int) returns (stop: Option<Stop>)
      requires Watchful() && open && exists k: nat :: entered == outside.clock(k)
      modifies this`ticks, this`polls, this`open, this`checked
      ensures (old(Valid()) ==> Valid()) && (old(Within()) ==> Within())
      ensures stop.None? ==> Watchful() && !open
      ensures stop.Some? ==> Stopped(stop.value.reason)
      ensures outside.clock(old(ticks)) - entered > limits.nodeTimeout ==>
        stop == Some(Stop(NodeTimeout, StopCode(NodeTimeout))) && polls == old(polls)
      ensures outside.clock(old(ticks)) - entered <= limits.nodeTimeout ==>
        Decided(outside, limits, old(polls), old(ticks) + 1, true, stop) && polls == old(polls) + 1
      ensures stop.None? ==> ticks == old(ticks) + 2
      ensures stop.None? ==> outside.clock(old(ticks)) - entered <= limits.nodeTimeout
      ensures stop.Some? ==> stop.value.reason in {NodeTimeout, Cancelled, WallTimeExceeded}
                             && Caused(stop.value.reason)
      ensures stop.Some? ==> stop.value.code == StopCode(stop.value.reason)
    {
      var now := ReadClock();
      if now - entered > limits.nodeTimeout {
        return Some(Stop(NodeTimeout, StopCode(NodeTimeout)));
      }
      stop := CommonCheck();
      if stop.None? {
        open := false;
      }
    }

    method ReserveTool() returns (stop: Option<Stop>)
      requires Valid() && Watchful()
      modifies this`ticks, this`polls, this`usage, this`checked
      ensures Valid() && (old(Within()) ==> Within())
      ensures stop.None? ==> Watchful()
      ensures stop.Some? ==> Stopped(stop.value.reason)
      ensures usage == if stop.None? then old(usage).(toolCalls := old(usage).toolCalls + 1) else old(usage)
      ensures polls == old(polls) + 1
      ensures Decided(outside, limits, old(polls), old(ticks), old(usage).toolCalls < limits.maxToolCalls, stop)
      ensures stop.None? ==> ticks == old(ticks) + 1
      ensures stop.Some? ==> stop.value.reason in {Cancelled, WallTimeExceeded, ToolBudgetExceeded}
      ensures stop.Some? ==> stop.value.code == StopCode(stop.value.reason)
      ensures stop.Some? ==> Caused(stop.value.reason)
    {
      stop := CommonCheck();
      if stop.Some? {
        return;
      }
      if usage.toolCalls >= limits.maxToolCalls {
        return Some(Stop(ToolBudgetExceeded, StopCode(ToolBudgetExceeded)));
      }
      usage := usage.(toolCalls := usage.toolCalls + 1);
    }

    method RecordToolError()
      requires Valid() && usage.toolErrors < usage.toolCalls
      modifies this`usage
      ensures Valid() && usage == old(usage).(toolErrors := old(usage).toolErrors + 1)
      ensures (old(Watchful()) ==> Watchful()) && (old(Within()) ==> Within())
    {
      usage := usage.(toolErrors := usage.toolErrors + 1);
    }

    /** A model call is reserved only while every remaining budget is positive. */
    method ReserveLlm() returns (stop: Option<Stop>, input: int, output: int, cost: int)
      requires Valid() && Watchful()
      modifies this`ticks, this`polls, this`usage, this`reserved, this`checked
      ensures Valid() && (old(Within()) ==> Within())
      ensures stop.None? ==> Watchful()
      ensures stop.Some? ==> Stopped(stop.value.reason)
      ensures usage == if stop.None? then old(usage).(llmCalls := old(usage).llmCalls + 1) else old(usage)
      ensures stop.None? ==> reserved == old(usage)
      ensures stop.None? ==> 1 <= input && 1 <= output && 1 <= cost
      ensures stop.None? ==> input + usage.input == limits.maxInput && output + usage.output == limits.maxOutput
                             && cost + usage.cost == limits.maxCost
      ensures stop.Some? ==> reserved == old(reserved)
      ensures polls == old(polls) + 1
      ensures Decided(outside, limits, old(polls), old(ticks),
                      && old(usage).llmCalls < limits.maxLlmCalls && old(usage).input < limits.maxInput
                      && old(usage).output < limits.maxOutput && old(usage).cost < limits.maxCost, stop)
      ensures stop.None? ==> ticks == old(ticks) + 1
      ensures stop.Some? ==> stop.value.reason in {Cancelled, WallTimeExceeded, LlmBudgetExceeded}
      ensures stop.Some? ==> Caused(stop.value.reason)
    {
      input, output, cost := 0, 0, 0;
      stop := CommonCheck();
      if stop.Some? {
        return;
      }
      if usage.llmCalls >= limits.maxLlmCalls {
        stop := Some(Stop(LlmBudgetExceeded, LlmCallBudget));
        return;
      }
      input, output, cost := limits.maxInput - usage.input, limits.maxOutput - usage.output,
        limits.maxCost - usage.cost;
      if input <= 0 || output <= 0 || cost <= 0 {
        stop := Some(Stop(LlmBudgetExceeded, StopCode(LlmBudgetExceeded)));
        return;
      }
      reserved := usage;
      usage := usage.(llmCalls := usage.llmCalls + 1);
    }

    /** A response is always added to the totals; one that exceeds a limit stops the run. */
    method RecordLlm(u: ProviderUsage) returns (stop: Option<Stop>)
      requires Valid() && usage.llmCalls > 0
      modifies this`usage
      ensures Valid()
      ensures old(Watchful()) ==> Watchful()
      ensures usage == old(usage).(input := old(usage).input + u.input, output := old(usage).output + u.output,
                                   cost := old(usage).cost + u.cost)
      ensures stop.None? <==> Within()
      ensures stop.Some? ==>
        stop.value == Stop(LlmBudgetExceeded, StopCode(LlmBudgetExceeded)) && Caused(LlmBudgetExceeded)
    {
      usage := usage.(input := usage.input + u.input, output := usage.output + u.output, cost := usage.cost + u.cost);
      if usage.input > limits.maxInput || usage.output > limits.maxOutput || usage.cost > limits.maxCost {
        return Some(Stop(LlmBudgetExceeded, StopCode(LlmBudgetExceeded)));
      }
      stop := None;
    }
  }
}
