/** The agent execution state machine (control_plane/orchestrator/state_machine.py)
    and the histories that the lifecycle manager can produce. */
module ExecutionLifecycle {
  import opened Wrappers

  datatype Status = PENDING | RUNNING | PAUSED | RESUMING | COMPLETED | FAILED

  function LegalTargets(s: Status): set<Status> {
    match s
    case PENDING => {RUNNING, FAILED}
    case RUNNING => {PAUSED, COMPLETED, FAILED}
    case PAUSED => {RESUMING, FAILED}
    case RESUMING => {RUNNING, FAILED}
    case COMPLETED => {}
    case FAILED => {}
  }

  datatype Transition = Transition(from: Status, to: Status, reason: string, actor: string)

  datatype Machine = Machine(current: Status, history: seq<Transition>)
  {
    predicate Can(target: Status) { target in LegalTargets(current) }

    function Fire(target: Status, reason: string, actor: string): Machine {
      Machine(target, history + [Transition(current, target, reason, actor)])
    }

    // The manager's guarded transition: skipped when it is not legal.
    function Try(target: Status, reason: string, actor: string): Machine {
      if Can(target) then Fire(target, reason, actor) else this
    }
  }

  const NEW := Machine(PENDING, [])

  const MANAGER := "lifecycle_manager"

  /* ----- The manager on values ----- */

  datatype Op =
    | Start(instance: string, known: bool)
    | Stop(id: string)
    | Pause(id: string)
    | Resume(id: string)
    | Inspect(id: string)

  type Machines = map<string, Machine>

  function ExecutionId(instance: string): string {
    "exec-" + instance
  }

  function MachineOf(ms: Machines, id: string): Machine {
    if id in ms then ms[id] else NEW
  }

  function Started(m: Machine): Machine {
    m.Try(RUNNING, "user_started", MANAGER)
  }

  function Stopped(m: Machine): Machine {
    if m.current == COMPLETED || m.current == FAILED then m else m.Try(FAILED, "user_stopped", MANAGER)
  }

  function Paused(m: Machine): Machine {
    m.Try(PAUSED, "user_paused", MANAGER)
  }

  function Resumed(m: Machine): Machine {
    m.Try(RESUMING, "user_resumed", MANAGER).Try(RUNNING, "step_execution_started", "orchestrator")
  }

  // An unknown instance raises before any machine is made; the rest make one on demand.
  function Step(ms: Machines, op: Op): Machines {
    match op
    case Start(instance, known) =>
      if known then ms[ExecutionId(instance) := Started(MachineOf(ms, ExecutionId(instance)))] else ms
    case Stop(id) => ms[id := Stopped(MachineOf(ms, id))]
    case Pause(id) => ms[id := Paused(MachineOf(ms, id))]
    case Resume(id) => ms[id := Resumed(MachineOf(ms, id))]
    case Inspect(id) => ms[id := MachineOf(ms, id)]
  }

  function Run(ms: Machines, ops: seq<Op>): Machines {
    if ops == [] then ms else Step(Run(ms, ops[..|ops| - 1]), ops[|ops| - 1])
  }

  /* ----- Legal histories ----- */

  // A contiguous legal walk from PENDING to the current state.
  ghost predicate LegalHistory(m: Machine) {
    var h := m.history;
    && (if h == [] then m.current == PENDING else h[0].from == PENDING && h[|h| - 1].to == m.current)
    && (forall i | 0 <= i < |h| :: h[i].to in LegalTargets(h[i].from))
    && (forall i | 0 <= i < |h| - 1 :: h[i].to == h[i + 1].from)
  }

  // A pause is the last entry, or it was stopped, or it was resumed all the way.
  ghost predicate PauseEnds(h: seq<Transition>, i: nat)
    requires i < |h|
  {
    h[i].to == PAUSED ==>
      || i == |h| - 1
      || h[i + 1].to == FAILED
      || (h[i + 1].to == RESUMING && i + 2 < |h| && h[i + 2].to == RUNNING)
  }

  // What is seen between calls of the manager.
  ghost predicate Settled(m: Machine) {
    && LegalHistory(m)
    && m.current != RESUMING && m.current != COMPLETED
    && (forall i | 0 <= i < |m.history| :: PauseEnds(m.history, i))
    && (forall i | 0 <= i < |m.history| :: m.history[i].to != COMPLETED)
  }

  lemma FireIsLegal(m: Machine, target: Status, reason: string, actor: string)
    requires LegalHistory(m) && m.Can(target)
    ensures LegalHistory(m.Fire(target, reason, actor))
  {
  }

  lemma TryIsSettled(m: Machine, target: Status, reason: string, actor: string)
    requires Settled(m) && target in {RUNNING, FAILED, PAUSED}
    ensures Settled(m.Try(target, reason, actor))
  {
    if m.Can(target) {
      FireIsLegal(m, target, reason, actor);
      var h, g := m.history, m.Fire(target, reason, actor).history;
      forall i | 0 <= i < |g| ensures PauseEnds(g, i) && g[i].to != COMPLETED {
        if i < |h| {
          assert PauseEnds(h, i) && g[i] == h[i];
        }
      }
    }
  }

  lemma ResumeIsSettled(m: Machine)
    requires Settled(m)
    ensures Settled(Resumed(m))
  {
    if m.Can(RESUMING) {
      var mid := m.Fire(RESUMING, "user_resumed", MANAGER);
      FireIsLegal(m, RESUMING, "user_resumed", MANAGER);
      FireIsLegal(mid, RUNNING, "step_execution_started", "orchestrator");
      var h, g := m.history, Resumed(m).history;
      assert g[..|h|] == h && |g| == |h| + 2;
      forall i | 0 <= i < |g| ensures PauseEnds(g, i) && g[i].to != COMPLETED {
        if i < |h| {
          assert PauseEnds(h, i) && g[i] == h[i];
        }
      }
    } else {
      TryIsSettled(m, RUNNING, "step_execution_started", "orchestrator");
    }
  }

  lemma StepIsSettled(ms: Machines, op: Op)
    requires forall id | id in ms :: Settled(ms[id])
    ensures forall id | id in Step(ms, op) :: Settled(Step(ms, op)[id])
  {
    match op
    case Start(instance, known) => TryIsSettled(MachineOf(ms, ExecutionId(instance)), RUNNING, "user_started", MANAGER);
    case Stop(id) => TryIsSettled(MachineOf(ms, id), FAILED, "user_stopped", MANAGER);
    case Pause(id) => TryIsSettled(MachineOf(ms, id), PAUSED, "user_paused", MANAGER);
    case Resume(id) => ResumeIsSettled(MachineOf(ms, id));
    case Inspect(_) =>
  }

  /** After any calls on any executions, each history is a contiguous legal walk
      from PENDING to the current state, RESUMING is never seen, every pause is
      pending, stopped or fully resumed, and nothing ever completes. */
  lemma HistoriesAreLegal(ops: seq<Op>, id: string)
    requires id in Run(map[], ops)
    ensures Settled(Run(map[], ops)[id])
  {
    EveryMachineSettled(ops);
  }

  lemma {:induction false} EveryMachineSettled(ops: seq<Op>)
    ensures forall id | id in Run(map[], ops) :: Settled(Run(map[], ops)[id])
  {
    if ops != [] {
      EveryMachineSettled(ops[..|ops| - 1]);
      StepIsSettled(Run(map[], ops[..|ops| - 1]), ops[|ops| - 1]);
    }
  }

  /** Histories only grow, and a stopped execution never moves again. */
  lemma {:induction false} HistoriesGrow(ms: Machines, ops: seq<Op>, id: string)
    requires id in ms
    ensures id in Run(ms, ops) && ms[id].history <= Run(ms, ops)[id].history
    ensures ms[id].current == FAILED || ms[id].current == COMPLETED ==> Run(ms, ops)[id] == ms[id]
  {
    if ops != [] {
      HistoriesGrow(ms, ops[..|ops| - 1], id);
    }
  }

  /** What the table allows: to start, to pause and to resume in turn, to complete
      while running, and to fail from everything that has not ended. */
  lemma TransitionsAre(from: Status, to: Status)
    ensures to in LegalTargets(from)
       <==> || (from == PENDING && to == RUNNING)
            || (from == RUNNING && (to == PAUSED || to == COMPLETED))
            || (from == PAUSED && to == RESUMING)
            || (from == RESUMING && to == RUNNING)
            || (to == FAILED && from != COMPLETED && from != FAILED)
  {
  }

  /** What each call does to a settled machine. Resuming also starts an execution
      that was never started, though it is meant for a paused one. */
  lemma CallTargets(m: Machine)
    requires Settled(m)
    ensures Started(m) == if m.current != PENDING then m
                          else Machine(RUNNING, m.history + [
                            Transition(PENDING, RUNNING, "user_started", "lifecycle_manager")])
    ensures Stopped(m) == if m.current == FAILED then m
                          else Machine(FAILED, m.history + [
                            Transition(m.current, FAILED, "user_stopped", "lifecycle_manager")])
    ensures Paused(m) == if m.current != RUNNING then m
                         else Machine(PAUSED, m.history + [
                           Transition(RUNNING, PAUSED, "user_paused", "lifecycle_manager")])
    ensures m.current == PAUSED ==>
              Resumed(m) == Machine(RUNNING, m.history + [
                Transition(PAUSED, RESUMING, "user_resumed", "lifecycle_manager"),
                Transition(RESUMING, RUNNING, "step_execution_started", "orchestrator")])
    ensures m.current == PENDING ==>
              Resumed(m) == Machine(RUNNING, m.history + [
                Transition(PENDING, RUNNING, "step_execution_started", "orchestrator")])
    ensures m.current == RUNNING || m.current == FAILED ==> Resumed(m) == m
  {
    if m.current == PAUSED {
      var first := Transition(PAUSED, RESUMING, "user_resumed", "lifecycle_manager");
      var second := Transition(RESUMING, RUNNING, "step_execution_started", "orchestrator");
      assert m.history + [first] + [second] == m.history + [first, second];
    }
  }
}
