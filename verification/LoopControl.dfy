/** The orchestration loop and its budget (kernel/lifecycle.py,
    kernel/resources/budget.py), in sequential use and with any clock. */
module LoopControl {
  import opened Wrappers
  import opened ExecutionStates
  import opened GuardedExecution

  // The state of a budget.
  datatype Budget = Budget(
    maxSteps: int, maxTokens: int, timeoutSeconds: int,
    currentSteps: int, tokensConsumed: int, startedAt: Option<real>)
  {
    predicate StepsExhausted() { currentSteps >= maxSteps }

    predicate TokensExhausted() { tokensConsumed >= maxTokens }

    predicate Timeout(now: real) { startedAt.Some? && now - startedAt.value > timeoutSeconds as real }

    predicate Exhausted(now: real) { StepsExhausted() || TokensExhausted() || Timeout(now) }

    function Started(now: real): Budget {
      if startedAt.None? then this.(startedAt := Some(now)) else this
    }

    function Stepped(steps: nat): Budget { this.(currentSteps := currentSteps + steps) }

    // The steps left are what the limit exceeds the count by, if it does.
    function StepsRemaining(): (n: nat)
      ensures n == 0 <==> StepsExhausted()
      ensures !StepsExhausted() ==> currentSteps + n == maxSteps
    {
      if maxSteps - currentSteps > 0 then maxSteps - currentSteps else 0
    }
  }

  class ExecutionBudget {
    const maxSteps: int
    const maxTokens: int
    const timeoutSeconds: int
    var currentSteps: int
    var tokensConsumed: int
    var startedAt: Option<real>

    constructor (maxSteps: int := 10, maxTokens: int := 100_000, timeoutSeconds: int := 3600)
      ensures View() == Budget(maxSteps, maxTokens, timeoutSeconds, 0, 0, None)
    {
      this.maxSteps, this.maxTokens, this.timeoutSeconds := maxSteps, maxTokens, timeoutSeconds;
      currentSteps, tokensConsumed, startedAt := 0, 0, None;
    }

    ghost function View(): Budget
      reads this
    {
      Budget(maxSteps, maxTokens, timeoutSeconds, currentSteps, tokensConsumed, startedAt)
    }

    method Start(now: real)
      modifies this
      ensures View() == old(View()).Started(now)
      ensures startedAt == if old(startedAt).Some? then old(startedAt) else Some(now)
    {
      if startedAt.None? {
        startedAt := Some(now);
      }
    }

    method IsTimeout(now: real) returns (b: bool)
      ensures b == View().Timeout(now)
      ensures b <==> startedAt.Some? && now > startedAt.value + timeoutSeconds as real
    {
      if startedAt.None? {
        return false;
      }
      var elapsed := now - startedAt.value;
      b := elapsed > timeoutSeconds as real;
    }

    method IsExhausted(now: real) returns (b: bool)
      ensures b == View().Exhausted(now)
      ensures b <==> || maxSteps <= currentSteps || maxTokens <= tokensConsumed
                     || (startedAt.Some? && now > startedAt.value + timeoutSeconds as real)
    {
      if currentSteps >= maxSteps || tokensConsumed >= maxTokens {
        return true;
      }
      b := IsTimeout(now);
    }

    // False is the BudgetExhaustedError; nothing is consumed then.
    method ConsumeStep(tokens: int, now: real) returns (ok: bool)
      modifies this
      ensures ok <==> !old(View()).Exhausted(now)
      ensures ok <==> && old(currentSteps) < maxSteps && old(tokensConsumed) < maxTokens
                      && (startedAt.Some? ==> now <= startedAt.value + timeoutSeconds as real)
      ensures !ok ==> View() == old(View())
      ensures ok ==> View() == old(View()).Stepped(1).(tokensConsumed := old(tokensConsumed) + tokens)
      ensures ok ==> currentSteps <= maxSteps
    {
      var exhausted := IsExhausted(now);
      if exhausted {
        return false;
      }
      currentSteps := currentSteps + 1;
      tokensConsumed := tokensConsumed + tokens;
      ok := true;
    }

    method Reset()
      modifies this
      ensures View() == Budget(maxSteps, maxTokens, timeoutSeconds, 0, 0, None)
    {
      currentSteps, tokensConsumed, startedAt := 0, 0, None;
    }
  }

  // Classified stands for the reason read off the error text.
  datatype LoopTermination = LoopCompleted | Classified(text: string) | BudgetExhausted | Timeout | LoopException

  // The error text of a result, by what it says.
  datatype LoopError =
    | ShuttingDown
    | LoopBudget(steps: int, tokens: int)
    | LoopTimeout(elapsed: real, limit: int)
    | StepRefused(steps: int, tokens: int, maxSteps: int, maxTokens: int)
    | Said(text: string)

  datatype LoopResult = LoopResult(
    success: bool, stepsExecuted: int, tokensConsumed: int, checkpoints: seq<string>,
    finalState: ExecutionState, termination: LoopTermination, error: Option<LoopError>, history: seq<ExecutionResult>)

  datatype EventType =
    | LOOP_STARTED | BUDGET_CHECKED | STEP_COMPLETED | LOOP_TERMINATED | LOOP_FAILED
    | BUDGET_EXHAUSTED | TIMEOUT_OCCURRED | LOOP_HALTED

  // How one run went, seen from outside.
  datatype Ending =
    | TurnedAway                       // the loop is shut down
    | OutOfBudget
    | OutOfTime(elapsed: real)
    | Broke(text: string)              // the runtime raised
    | Unpaid(result: ExecutionResult)  // it replied, but its step could not be paid
    | Paid(result: ExecutionResult)

  // What the world gives while one intent is served: the clock at the loop's own
  // check, at the start, at the two checks, at the report of a timeout and at the
  // payment, and what the runtime replies or raises.
  datatype Turn = Turn(
    gate: real, start: real, check: real, recheck: real, report: real, pay: real,
    reply: Intent -> Result<ExecutionResult, string>)

  function EndingOf(running: bool, b: Budget, turn: Turn, intent: Intent): Ending {
    var started := b.Started(turn.start);
    if !running then TurnedAway
    else if started.Exhausted(turn.check) then OutOfBudget
    else if started.Timeout(turn.recheck) then OutOfTime(turn.report - started.startedAt.value)
    else
      match turn.reply(intent)
      case Err(text) => Broke(text)
      case Ok(r) => if started.Exhausted(turn.pay) then Unpaid(r) else Paid(r)
  }

  /** Which ending it is, on the numbers: the budget is checked first, then the time
      alone, then the runtime answers, and a reply is paid unless time has run out. */
  lemma EndingsAre(running: bool, b: Budget, turn: Turn, intent: Intent)
    ensures var e := EndingOf(running, b, turn, intent);
            var start := if b.startedAt.Some? then b.startedAt.value else turn.start;
            var limit := start + b.timeoutSeconds as real;
            var out := b.maxSteps <= b.currentSteps || b.maxTokens <= b.tokensConsumed || turn.check > limit;
            && (e == TurnedAway <==> !running)
            && (e == OutOfBudget <==> running && out)
            && (e == OutOfTime(turn.report - start) <==> running && !out && turn.recheck > limit)
            && (running && !out && turn.recheck <= limit ==>
                  match turn.reply(intent)
                  case Err(text) => e == Broke(text)
                  case Ok(r) => e == if turn.pay > limit then Unpaid(r) else Paid(r))
  {
  }

  // The budget when an intent has been served, and when the first k of a list
  // have been, each at the price of one step.
  function AfterIntent(running: bool, b: Budget, turn: Turn, intent: Intent): Budget {
    if !running then b
    else b.Started(turn.start).Stepped(if EndingOf(running, b, turn, intent).Paid? then 1 else 0)
  }

  function BudgetAt(b: Budget, turns: seq<Turn>, k: nat): Budget
    requires k <= |turns|
  {
    if k == 0 then b else b.Started(turns[0].start).Stepped(k)
  }

  function ReplyEvents(r: ExecutionResult): seq<EventType> {
    if r.success then [STEP_COMPLETED, LOOP_TERMINATED] else [LOOP_FAILED]
  }

  // The audit trail that each ending leaves.
  function Trail(e: Ending): seq<EventType> {
    match e
    case TurnedAway => []
    case OutOfBudget => [LOOP_STARTED, BUDGET_EXHAUSTED]
    case OutOfTime(_) => [LOOP_STARTED, TIMEOUT_OCCURRED]
    case Broke(_) => [LOOP_STARTED, BUDGET_CHECKED, LOOP_HALTED]
    case Unpaid(r) => [LOOP_STARTED, BUDGET_CHECKED] + ReplyEvents(r) + [LOOP_HALTED]
    case Paid(r) => [LOOP_STARTED, BUDGET_CHECKED] + ReplyEvents(r)
  }

  // The error that each ending reports, on a budget b.
  function ErrorOf(e: Ending, b: Budget): Option<LoopError> {
    match e
    case TurnedAway => Some(ShuttingDown)
    case OutOfBudget => Some(LoopBudget(b.currentSteps, b.tokensConsumed))
    case OutOfTime(elapsed) => Some(LoopTimeout(elapsed, b.timeoutSeconds))
    case Broke(text) => Some(Said(text))
    case Unpaid(_) => Some(StepRefused(b.currentSteps, b.tokensConsumed, b.maxSteps, b.maxTokens))
    case Paid(x) => if x.error.Some? then Some(Said(x.error.value)) else None
  }

  ghost predicate Matches(r: LoopResult, e: Ending, b: Budget) {
    && r.error == ErrorOf(e, b)
    && match e
       case Paid(x) =>
         && r.success == x.success && r.finalState == x.state && r.history == [x]
         && r.checkpoints == (if x.checkpointId.Some? && x.checkpointId.value != "" then [x.checkpointId.value] else [])
         && r.termination == (if x.success then LoopCompleted
                              else Classified(if x.error.Some? then x.error.value else ""))
       case _ =>
         && !r.success && r.finalState == HALTED && r.history == [] && r.checkpoints == []
         && r.termination == (if e.OutOfBudget? then BudgetExhausted else if e.OutOfTime? then Timeout
                              else LoopException)
  }

  /** What the caller of one intent is told, and what the trail records, by what went
      wrong: a budget that is out, a time that is up, an exception, a step that could
      not be paid; and otherwise the runtime's own result. */
  lemma ReportsAre(running: bool, b: Budget, turn: Turn, intent: Intent, r: LoopResult)
    requires Matches(r, EndingOf(running, b, turn, intent), b)
    ensures var trail := Trail(EndingOf(running, b, turn, intent));
            var start := if b.startedAt.Some? then b.startedAt.value else turn.start;
            var limit := start + b.timeoutSeconds as real;
            var out := b.maxSteps <= b.currentSteps || b.maxTokens <= b.tokensConsumed || turn.check > limit;
            if !running then
              r.termination == LoopException && r.error == Some(ShuttingDown) && trail == []
            else if out then
              && r.termination == BudgetExhausted && r.error == Some(LoopBudget(b.currentSteps, b.tokensConsumed))
              && trail == [LOOP_STARTED, BUDGET_EXHAUSTED]
            else if turn.recheck > limit then
              && r.termination == Timeout && r.error == Some(LoopTimeout(turn.report - start, b.timeoutSeconds))
              && trail == [LOOP_STARTED, TIMEOUT_OCCURRED]
            else
              match turn.reply(intent)
              case Err(text) =>
                && r.termination == LoopException && r.error == Some(Said(text))
                && trail == [LOOP_STARTED, BUDGET_CHECKED, LOOP_HALTED]
              case Ok(x) =>
                if turn.pay > limit then
                  && r.termination == LoopException
                  && r.error == Some(StepRefused(b.currentSteps, b.tokensConsumed, b.maxSteps, b.maxTokens))
                  && trail == [LOOP_STARTED, BUDGET_CHECKED]
                              + (if x.success then [STEP_COMPLETED, LOOP_TERMINATED] else [LOOP_FAILED]) + [LOOP_HALTED]
                else
                  && r.success == x.success && r.finalState == x.state && r.history == [x]
                  && (x.success ==> r.termination == LoopCompleted)
                  && (!x.success ==> r.termination == Classified(if x.error.Some? then x.error.value else ""))
                  && (r.error == if x.error.Some? then Some(Said(x.error.value)) else None)
                  && (r.checkpoints == if x.checkpointId.Some? && x.checkpointId.value != ""
                                       then [x.checkpointId.value] else [])
                  && trail == [LOOP_STARTED, BUDGET_CHECKED]
                              + (if x.success then [STEP_COMPLETED, LOOP_TERMINATED] else [LOOP_FAILED])
    ensures r.history == [] ==> !r.success && r.finalState == HALTED && r.checkpoints == []
  {
    EndingsAre(running, b, turn, intent);
  }

  class LoopController {
    const budget: ExecutionBudget
    var state: RuntimeState
    var history: seq<ExecutionResult>

    constructor (budget: ExecutionBudget)
      ensures this.budget == budget && state == RUNNING && history == []
    {
      this.budget, state, history := budget, RUNNING, [];
    }

    method Shutdown()
      modifies this
      ensures state == (if old(state) == RUNNING then STOPPED else old(state)) && history == old(history)
    {
      if state != RUNNING {
        return;
      }
      state := STOPPED;
    }

    method Halted(termination: LoopTermination, error: LoopError) returns (r: LoopResult)
      ensures r == LoopResult(false, budget.currentSteps, budget.tokensConsumed, [], HALTED,
                              termination, Some(error), [])
    {
      r := LoopResult(false, budget.currentSteps, budget.tokensConsumed, [], HALTED, termination, Some(error), []);
    }

    /** One intent: what the reply, the budget, the history and the audit trail
        are in each ending. A step is consumed exactly when the reply is paid. */
    method RunIntent(intent: Intent, turn: Turn) returns (r: LoopResult, ghost trail: seq<EventType>)
      modifies this`history, budget
      ensures var e := EndingOf(state == RUNNING, old(budget.View()), turn, intent);
              && Matches(r, e, old(budget.View())) && trail == Trail(e)
              && budget.View() == AfterIntent(state == RUNNING, old(budget.View()), turn, intent)
              && history == old(history) + (if e.Paid? || e.Unpaid? then [e.result] else [])
      ensures r.stepsExecuted == budget.currentSteps && r.tokensConsumed == budget.tokensConsumed
    {
      trail := [];
      if state != RUNNING {
        r := Halted(LoopException, ShuttingDown);
        return;
      }
      budget.Start(turn.start);
      trail := trail + [LOOP_STARTED];
      var exhausted := budget.IsExhausted(turn.check);
      if exhausted {
        trail := trail + [BUDGET_EXHAUSTED];
        r := Halted(BudgetExhausted, LoopBudget(budget.currentSteps, budget.tokensConsumed));
        return;
      }
      var timeout := budget.IsTimeout(turn.recheck);
      if timeout {
        trail := trail + [TIMEOUT_OCCURRED];
        r := Halted(Timeout, LoopTimeout(turn.report - budget.startedAt.value, budget.timeoutSeconds));
        return;
      }
      trail := trail + [BUDGET_CHECKED];
      var reply := turn.reply(intent);
      if reply.Err? {
        trail := trail + [LOOP_HALTED];
        r := Halted(LoopException, Said(reply.error));
        return;
      }
      var result := reply.value;
      history := history + [result];
      trail := trail + (if result.success then [STEP_COMPLETED, LOOP_TERMINATED] else [LOOP_FAILED]);
      var paid := budget.ConsumeStep(0, turn.pay);
      if !paid {
        trail := trail + [LOOP_HALTED];
        var refused := StepRefused(budget.currentSteps, budget.tokensConsumed, budget.maxSteps, budget.maxTokens);
        r := Halted(LoopException, refused);
        return;
      }
      r := LoopResult(
        result.success, budget.currentSteps, budget.tokensConsumed,
        if result.checkpointId.Some? && result.checkpointId.value != "" then [result.checkpointId.value] else [],
        result.state,
        if result.success then LoopCompleted else Classified(if result.error.Some? then result.error.value else ""),
        if result.error.Some? then Some(Said(result.error.value)) else None,
        [result]);
    }

    // Intent k of a list, with k steps paid before it.
    method ServeTurn(ghost b: Budget, intents: seq<Intent>, turns: seq<Turn>, k: nat) returns (r: LoopResult)
      requires k < |turns| == |intents| && budget.View() == BudgetAt(b, turns, k)
      requires !budget.View().Exhausted(turns[k].gate)
      modifies this`history, budget
      ensures Served(state == RUNNING, b, intents, turns, k, r)
      ensures r.success ==> r.history != [] && budget.View() == BudgetAt(b, turns, k + 1)
      ensures r.stepsExecuted == budget.currentSteps == b.currentSteps + k + (if r.history == [] then 0 else 1)
      ensures b.currentSteps + k < b.maxSteps && budget.tokensConsumed == b.tokensConsumed
    {
      ghost var running := state == RUNNING;
      var reply, _ := RunIntent(intents[k], turns[k]);
      r := reply;
      TurnServed(running, b, intents, turns, k, r);
    }

    /** The multi-step bound: replies to a prefix of the intents, no more than
        the steps that were left, all but the last successful; each success paid
        one step, the limit is never passed, and the loop stops exactly at the
        first failure or exhausted budget. */
    method RunMultiStep(intents: seq<Intent>, turns: seq<Turn>) returns (results: seq<LoopResult>)
      requires |turns| == |intents|
      modifies this`history, budget
      ensures |results| <= |intents| && |results| <= old(budget.View()).StepsRemaining()
      ensures AllServed(state == RUNNING, old(budget.View()), intents, turns, results)
      ensures budget.currentSteps == old(budget.currentSteps) + Paying(results)
      ensures budget.currentSteps <= budget.maxSteps || budget.currentSteps == old(budget.currentSteps)
      ensures budget.tokensConsumed == old(budget.tokensConsumed)
      ensures |results| < |intents| ==> MayStop(old(budget.View()), turns, results)
    {
      ghost var b, running := budget.View(), state == RUNNING;
      results := [];
      for i := 0 to |intents|
        invariant |results| == i && budget.View() == BudgetAt(b, turns, i)
        invariant AllServed(running, b, intents, turns, results)
        invariant i > 0 ==> results[i - 1].success && b.currentSteps + i <= b.maxSteps
      {
        PaidSoFar(running, b, intents, turns, results);
        var exhausted := budget.IsExhausted(turns[i].gate);
        if exhausted {
          return;
        }
        var result := ServeTurn(b, intents, turns, i);
        ServedOneMore(running, b, intents, turns, results, result);
        results := results + [result];
        if !result.success {
          PaidSoFar(running, b, intents, turns, results);
          return;
        }
      }
      PaidSoFar(running, b, intents, turns, results);
    }
  }

  // A reason to stop before the next intent: a failure, or an exhausted budget.
  ghost predicate MayStop(b: Budget, turns: seq<Turn>, results: seq<LoopResult>)
    requires |results| < |turns|
  {
    || (results != [] && !results[|results| - 1].success)
    || BudgetAt(b, turns, |results|).Exhausted(turns[|results|].gate)
  }

  // Reply k of a list: what an intent gets that finds k steps paid before it.
  ghost predicate Served(running: bool, b: Budget, intents: seq<Intent>, turns: seq<Turn>, k: nat, r: LoopResult)
    requires k < |turns| == |intents|
  {
    && !BudgetAt(b, turns, k).Exhausted(turns[k].gate)
    && Matches(r, EndingOf(running, BudgetAt(b, turns, k), turns[k], intents[k]), BudgetAt(b, turns, k))
  }

  // Only a paid reply carries a result, and a successful one leaves the next budget.
  lemma TurnServed(running: bool, b: Budget, intents: seq<Intent>, turns: seq<Turn>, k: nat, r: LoopResult)
    requires k < |turns| == |intents| && Served(running, b, intents, turns, k, r)
    ensures var e, now := EndingOf(running, BudgetAt(b, turns, k), turns[k], intents[k]), BudgetAt(b, turns, k);
            && (r.history != [] <==> e.Paid?) && (r.success ==> e.Paid?)
            && (e.Paid? ==> AfterIntent(running, now, turns[k], intents[k]) == BudgetAt(b, turns, k + 1))
  {
  }

  // The replies that paid a step: those that carry the runtime's result.
  function Paying(results: seq<LoopResult>): nat {
    if results == [] then 0
    else Paying(results[..|results| - 1]) + (if results[|results| - 1].history == [] then 0 else 1)
  }

  // The replies of a list so far: each served in turn, all but the last
  // successful, and the k-th success reporting its own step.
  ghost predicate AllServed(running: bool, b: Budget, intents: seq<Intent>, turns: seq<Turn>, results: seq<LoopResult>)
    requires |results| <= |turns| == |intents|
    decreases |results|
  {
    results != [] ==>
      var n := |results| - 1;
      && AllServed(running, b, intents, turns, results[..n])
      && Served(running, b, intents, turns, n, results[n])
      && (n > 0 ==> results[n - 1].success)
      && (results[n].success ==> results[n].stepsExecuted == b.currentSteps + n + 1)
  }

  lemma ServedOneMore(running: bool, b: Budget, intents: seq<Intent>, turns: seq<Turn>, results: seq<LoopResult>,
                      r: LoopResult)
    requires |results| < |turns| == |intents| && AllServed(running, b, intents, turns, results)
    requires results != [] ==> results[|results| - 1].success
    requires Served(running, b, intents, turns, |results|, r)
    requires r.success ==> r.stepsExecuted == b.currentSteps + |results| + 1
    ensures AllServed(running, b, intents, turns, results + [r])
  {
    assert (results + [r])[..|results|] == results;
  }

  // All replies paid a step, except a last one that carries no result.
  lemma {:induction false} PaidSoFar(running: bool, b: Budget, intents: seq<Intent>, turns: seq<Turn>,
                                     results: seq<LoopResult>)
    requires |results| <= |turns| == |intents| && AllServed(running, b, intents, turns, results)
    ensures Paying(results)
         == |results| - (if results != [] && results[|results| - 1].history == [] then 1 else 0)
    decreases |results|
  {
    if |results| > 1 {
      var n := |results| - 1;
      PaidSoFar(running, b, intents, turns, results[..n]);
      EachServed(running, b, intents, turns, results, n - 1);
      TurnServed(running, b, intents, turns, n - 1, results[n - 1]);
    }
  }

  /** What it says of each reply. */
  lemma {:induction false} EachServed(running: bool, b: Budget, intents: seq<Intent>, turns: seq<Turn>,
                                      results: seq<LoopResult>, k: nat)
    requires |results| <= |turns| == |intents| && AllServed(running, b, intents, turns, results)
    requires k < |results|
    ensures Served(running, b, intents, turns, k, results[k])
    ensures k < |results| - 1 ==> results[k].success
    ensures results[k].success ==> results[k].stepsExecuted == b.currentSteps + k + 1
    decreases |results|
  {
    var n := |results| - 1;
    if k < n {
      EachServed(running, b, intents, turns, results[..n], k);
    }
  }

  /** The audit trail can contradict itself: it reports completion and then a
      halt exactly when a successful reply came back after the time limit. */
  lemma TrailContradictsItselfIff(running: bool, b: Budget, turn: Turn, intent: Intent)
    ensures var trail, started := Trail(EndingOf(running, b, turn, intent)), b.Started(turn.start);
            (LOOP_TERMINATED in trail && LOOP_HALTED in trail)
            <==> (&& running && !started.Exhausted(turn.check) && !started.Timeout(turn.recheck)
                  && turn.reply(intent).Ok? && turn.reply(intent).value.success
                  && started.Timeout(turn.pay))
  {
    var e := EndingOf(running, b, turn, intent);
    assert LOOP_TERMINATED in Trail(e) <==> ((e.Paid? || e.Unpaid?) && e.result.success);
    assert LOOP_HALTED in Trail(e) <==> (e.Broke? || e.Unpaid?);
  }
}
