/** The lifecycle of one intent execution and of the runtime (kernel/state.py). */
module ExecutionStates {
  import opened Wrappers

  datatype RuntimeState = RUNNING | DRAINING | STOPPED
  {
    function Rank(): nat {
      match this case RUNNING => 0 case DRAINING => 1 case STOPPED => 2
    }
  }

  datatype ExecutionState =
    CREATED | VALIDATING | AUTHORIZED | EXECUTING | CHECKPOINTING | COMPLETED | FAILED | HALTED
  {
    predicate Terminal() { COMPLETED? || FAILED? || HALTED? }
  }

  function ValidTransitions(current: ExecutionState): set<ExecutionState> {
    match current
    case CREATED => {VALIDATING}
    case VALIDATING => {AUTHORIZED, FAILED, HALTED}
    case AUTHORIZED => {EXECUTING, FAILED, HALTED}
    case EXECUTING => {CHECKPOINTING, FAILED, HALTED}
    case CHECKPOINTING => {COMPLETED, HALTED}
    case COMPLETED => {}
    case FAILED => {}
    case HALTED => {}
  }

  predicate IsValidTransition(current: ExecutionState, target: ExecutionState) {
    target in ValidTransitions(current)
  }

  datatype InvalidTransition = InvalidTransition(current: ExecutionState, target: ExecutionState)

  function Transition(current: ExecutionState, target: ExecutionState): Result<ExecutionState, InvalidTransition> {
    if IsValidTransition(current, target) then Ok(target) else Err(InvalidTransition(current, target))
  }

  function TransitionSafe(current: ExecutionState, target: ExecutionState): ExecutionState {
    if IsValidTransition(current, target) then target
    else if current != HALTED && IsValidTransition(current, HALTED) then HALTED
    else current
  }

  // A history of states: from CREATED, by valid transitions only.
  ghost predicate LegalWalk(walk: seq<ExecutionState>) {
    && walk != [] && walk[0] == CREATED
    && forall i | 0 <= i < |walk| - 1 :: IsValidTransition(walk[i], walk[i + 1])
  }

  /** A legal walk stops at its first terminal state and lasts five steps at most. */
  lemma LegalWalksAreShort(walk: seq<ExecutionState>)
    requires LegalWalk(walk)
    ensures |walk| <= 6
    ensures forall i | 0 <= i < |walk| - 1 :: !walk[i].Terminal()
  {
    forall i | 0 <= i < |walk| - 1
      ensures !walk[i].Terminal()
    {
      assert IsValidTransition(walk[i], walk[i + 1]);
    }
    if |walk| > 5 {
      assert IsValidTransition(walk[0], walk[1]);
      assert IsValidTransition(walk[1], walk[2]);
      assert IsValidTransition(walk[2], walk[3]);
      assert IsValidTransition(walk[3], walk[4]);
      assert IsValidTransition(walk[4], walk[5]);
      assert walk[5].Terminal();
    }
  }

  // The order of the states an execution passes when nothing fails.
  function Position(state: ExecutionState): nat {
    match state
    case CREATED => 0 case VALIDATING => 1 case AUTHORIZED => 2 case EXECUTING => 3
    case CHECKPOINTING => 4 case COMPLETED => 5 case FAILED => 6 case HALTED => 6
  }

  /** What the table allows: the next state of the order; HALTED from every state
      between CREATED and the end; FAILED from those, save while checkpointing. */
  lemma TransitionsAre(current: ExecutionState, target: ExecutionState)
    ensures IsValidTransition(current, target)
       <==> || (!target.FAILED? && !target.HALTED? && Position(target) == Position(current) + 1)
            || (target.HALTED? && 1 <= Position(current) <= 4)
            || (target.FAILED? && 1 <= Position(current) <= 3)
  {
  }

  /** A raising transition gives the target or nothing; the safe one gives the
      target when it may, else HALTED when it may, else stays. */
  lemma TransitionOutcomes(current: ExecutionState, target: ExecutionState)
    ensures Transition(current, target).Ok? <==> target in ValidTransitions(current)
    ensures Transition(current, target).Ok? ==> Transition(current, target).value == target
    ensures Transition(current, target).Err? ==>
              Transition(current, target).error == InvalidTransition(current, target)
    ensures var safe := TransitionSafe(current, target);
            && (safe == target || safe == HALTED || safe == current)
            && (target in ValidTransitions(current) ==> safe == target)
            && (target !in ValidTransitions(current) && 1 <= Position(current) <= 4 ==> safe == HALTED)
            && (target !in ValidTransitions(current) && !(1 <= Position(current) <= 4) ==> safe == current)
  {
  }
}
