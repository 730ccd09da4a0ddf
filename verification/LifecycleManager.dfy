/** The lifecycle manager and its state machines as objects
    (control_plane/lifecycle/manager.py, control_plane/orchestrator/state_machine.py). */
module LifecycleManager {
  import opened Wrappers
  import opened ExecutionLifecycle

  class ExecutionStateMachine {
    var currentState: Status
    var history: seq<Transition>

    constructor (initial: Status := PENDING)
      ensures View() == Machine(initial, [])
    {
      currentState, history := initial, [];
    }

    ghost function View(): Machine
      reads this
    {
      Machine(currentState, history)
    }

    predicate CanTransition(target: Status)
      reads this
    {
      target in LegalTargets(currentState)
    }

    // Err is the InvalidTransitionError; nothing changes then.
    method MakeTransition(target: Status, reason: string, actor: string)
      returns (r: Result<Transition, (Status, Status)>)
      modifies this
      ensures r.Ok? <==> old(View()).Can(target)
      ensures r.Ok? ==> View() == old(View()).Fire(target, reason, actor)
      ensures r.Ok? ==>
                && currentState == target
                && history == old(history) + [Transition(old(currentState), target, reason, actor)]
      ensures r.Ok? ==> r.value == history[|history| - 1]
      ensures r.Err? ==> View() == old(View()) && r.error == (old(currentState), target)
    {
      if !CanTransition(target) {
        return Err((currentState, target));
      }
      var record := Transition(currentState, target, reason, actor);
      currentState := target;
      history := history + [record];
      return Ok(record);
    }

    method TryTransition(target: Status, reason: string, actor: string)
      modifies this
      ensures View() == old(View()).Try(target, reason, actor)
    {
      if CanTransition(target) {
        var _ := MakeTransition(target, reason, actor);
      }
    }
  }

  class LifecycleManager {
    var machines: map<string, ExecutionStateMachine>

    ghost predicate Valid()
      reads this
    {
      forall i, j | i in machines && j in machines && i != j :: machines[i] != machines[j]
    }

    ghost function View(): Machines
      reads this, machines.Values
    {
      map id | id in machines :: machines[id].View()
    }

    constructor ()
      ensures Valid() && View() == map[] && machines == map[]
    {
      machines := map[];
    }

    method GetStateMachine(id: string) returns (sm: ExecutionStateMachine)
      requires Valid()
      modifies this
      ensures Valid() && fresh(machines.Values - old(machines.Values))
      ensures machines == old(machines)[id := sm]
      ensures id in old(machines) ==> sm == old(machines)[id]
      ensures id !in old(machines) ==> fresh(sm) && sm.View() == NEW
      ensures View() == old(View())[id := sm.View()] && sm.View() == MachineOf(old(View()), id)
    {
      if id !in machines {
        var made := new ExecutionStateMachine();
        machines := machines[id := made];
      }
      sm := machines[id];
    }

    // A transition that is skipped when it is not legal.
    method Try(id: string, target: Status, reason: string, actor: string)
      requires Valid()
      modifies this, machines.Values
      ensures Valid() && fresh(machines.Values - old(machines.Values))
      ensures View() == old(View())[id := MachineOf(old(View()), id).Try(target, reason, actor)]
    {
      var sm := GetStateMachine(id);
      sm.TryTransition(target, reason, actor);
    }

    // None is the AgentInstanceNotFoundError.
    method StartExecution(instance: string, known: bool) returns (id: Option<string>)
      requires Valid()
      modifies this, machines.Values
      ensures Valid() && fresh(machines.Values - old(machines.Values))
      ensures View() == Step(old(View()), Start(instance, known))
      ensures id == if known then Some("exec-" + instance) else None
    {
      if !known {
        return None;
      }
      var execution := "exec-" + instance;
      Try(execution, RUNNING, "user_started", MANAGER);
      return Some(execution);
    }

    method StopExecution(id: string)
      requires Valid()
      modifies this, machines.Values
      ensures Valid() && fresh(machines.Values - old(machines.Values))
      ensures View() == Step(old(View()), Stop(id))
    {
      var sm := GetStateMachine(id);
      if sm.currentState == COMPLETED || sm.currentState == FAILED {
        return;
      }
      sm.TryTransition(FAILED, "user_stopped", MANAGER);
    }

    method PauseExecution(id: string)
      requires Valid()
      modifies this, machines.Values
      ensures Valid() && fresh(machines.Values - old(machines.Values))
      ensures View() == Step(old(View()), Pause(id))
    {
      Try(id, PAUSED, "user_paused", MANAGER);
    }

    method ResumeExecution(id: string)
      requires Valid()
      modifies this, machines.Values
      ensures Valid() && fresh(machines.Values - old(machines.Values))
      ensures View() == Step(old(View()), Resume(id))
    {
      var sm := GetStateMachine(id);
      sm.TryTransition(RESUMING, "user_resumed", MANAGER);
      sm.TryTransition(RUNNING, "step_execution_started", "orchestrator");
    }

    // Even a question about an execution makes a machine for it.
    method GetExecutionStatus(id: string) returns (s: Status)
      requires Valid()
      modifies this
      ensures Valid() && fresh(machines.Values - old(machines.Values))
      ensures View() == Step(old(View()), Inspect(id)) && s == View()[id].current
    {
      var sm := GetStateMachine(id);
      s := sm.currentState;
    }
  }
}
