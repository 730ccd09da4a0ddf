/** The guarded body as the runtime writes it: one straight run with early
    returns, given what each of its five awaits yields. */
module GuardedRun {
  import opened Wrappers
  import opened ExecutionStates
  import opened Tracing
  import opened Metrics
  import opened Isolation
  import opened GuardedExecution

  // What the collaborators yield, and the clock at the start and after each await.
  datatype Script = Script(policy: Outcome, capability: Outcome, route: Outcome, tool: Outcome, save: Outcome,
                           clock: seq<real>)
  {
    predicate Valid() { |clock| == 6 && !route.Refused? && !save.Refused? }

    function At(stage: Stage): Outcome {
      match stage
      case PolicyStage => policy
      case CapabilityStage => capability
      case RouteStage => route
      case ToolStage => tool
      case SaveStage => save
    }

    // Every collaborator consulted from a stage on agrees.
    predicate AllReturnFrom(stage: Stage) {
      && (stage.Number() <= 0 ==> policy.Returned?)
      && (stage.Number() <= 1 ==> capability.Returned?)
      && (stage.Number() <= 2 ==> route.Returned?)
      && (stage.Number() <= 3 ==> tool.Returned?)
      && save.Returned?
    }
  }

  lemma StagesAdvance(f: Frame, o: Outcome, now: real)
    ensures Resume(f, o, now).Waiting? ==> Resume(f, o, now).frame.stage.Number() == f.stage.Number() + 1
  {
  }

  // Resume, over and over, until the body returns.
  function Drive(f: Frame, s: Script): Progress
    requires s.Valid()
    decreases 5 - f.stage.Number()
  {
    var now := s.clock[f.stage.Number() + 1];
    var p := Resume(f, s.At(f.stage), now);
    StagesAdvance(f, s.At(f.stage), now);
    if p.Waiting? then Drive(p.frame, s) else p
  }

  /** From a sound start the run returns in a terminal state, succeeds exactly when
      every collaborator returned, and then carries what the tool returned and the
      checkpoint that the save returned. */
  lemma {:induction false} DriveEndsWell(f: Frame, s: Script)
    requires Sound(f) && s.Valid()
    ensures var p := Drive(f, s);
            && p.Finished? && WellEnded(p.frame, p.result) && SameOwner(f, p.frame)
            && (p.result.success <==> s.AllReturnFrom(f.stage))
            && (p.result.success ==>
                  && p.result.data == (if f.stage.SaveStage? then f.toolData else s.tool.value)
                  && p.result.checkpointId == Some(s.save.value))
            && CountedOnce(p.extra)
    decreases 5 - f.stage.Number()
  {
    var now := s.clock[f.stage.Number() + 1];
    ResumeIsSound(f, s.At(f.stage), now);
    ResumeReports(f, s.At(f.stage), now);
    StagesAdvance(f, s.At(f.stage), now);
    var p := Resume(f, s.At(f.stage), now);
    if p.Waiting? {
      DriveEndsWell(p.frame, s);
    }
  }

  ghost function Seen(tracer: ExecutionTracer?): Option<Trace>
    reads tracer
  {
    if tracer == null then None else Some(tracer.View())
  }

  method Increment(metrics: MetricsRegistry?, m: Metric)
    modifies metrics
    ensures metrics != null ==> metrics.counters == Incremented(old(metrics.counters), m)
  {
    if metrics != null {
      metrics.Increment(m);
    }
  }

  // The coroutine's locals agree with the frame that stands for it.
  ghost predicate Mirrors(f: Frame, state: ExecutionState, tracer: ExecutionTracer?)
    reads tracer
  {
    PhaseOpen(f) && f.state == state && f.trace == Seen(tracer)
  }

  // An exit of the body: fail the open phase, count, build the result.
  method FailWith(ghost f: Frame, id: string, state: ExecutionState, target: ExecutionState, message: string,
                  tracer: ExecutionTracer?, traceError: Option<string>, metrics: MetricsRegistry?,
                  extra: Option<Metric>, now: real)
    returns (result: ExecutionResult)
    requires Mirrors(f, state, tracer) && f.id == id
    modifies metrics, tracer
    ensures var p := Fail(f, target, message, traceError, extra, now);
            && p.Finished? && result == p.result && p.frame.trace == Seen(tracer) && p.extra == extra
            && !result.success && result.state == TransitionSafe(state, target)
            && (metrics != null ==> metrics.counters == CountEnd(old(metrics.counters), extra, false))
  {
    var ended := TransitionSafe(state, target);
    if tracer != null {
      var _ := tracer.EndPhase(false, traceError, now);
    }
    if extra.Some? {
      Increment(metrics, extra.value);
    }
    Increment(metrics, ExecutionsFailed);
    result := ExecutionResult(false, id, None, "", Some(message), ended);
  }

  // A stage passed: a transition, which must not raise, and the next phase.
  method MoveOn(ghost f: Frame, state: ExecutionState, target: Option<ExecutionState>, ghost stage: Stage,
                tracer: ExecutionTracer?, phase: TracePhase, now: real)
    returns (moved: ExecutionState)
    requires Mirrors(f, state, tracer) && (target.Some? ==> Transition(state, target.value).Ok?)
    modifies tracer
    ensures var p := Proceed(f, target, stage, phase, now);
            p.Waiting? && Mirrors(p.frame, moved, tracer)
            && p.frame.stage == stage && p.frame.id == f.id && p.frame.intent == f.intent
            && p.frame.toolData == f.toolData
            && moved == (if target.Some? then target.value else state)
  {
    moved := state;
    if target.Some? {
      moved := Transition(state, target.value).value;
    }
    if tracer != null {
      var _ := tracer.EndPhase(true, None, now);
      tracer.StartPhase(phase, now);
    }
  }

  // The checkpoint is saved: the last transition and the last two phases.
  method CompleteRun(ghost f: Frame, id: string, state: ExecutionState, checkpoint: string, data: string,
                     tracer: ExecutionTracer?, now: real)
    returns (result: ExecutionResult)
    requires Mirrors(f, state, tracer) && f.id == id && f.toolData == data && Transition(state, COMPLETED).Ok?
    modifies tracer
    ensures var p := Complete(f, checkpoint, now);
            p.Finished? && result == p.result && p.frame.trace == Seen(tracer) && p.extra.None?
            && result == ExecutionResult(true, id, Some(checkpoint), data, None, COMPLETED)
  {
    var completed := Transition(state, COMPLETED).value;
    if tracer != null {
      var _ := tracer.EndPhase(true, None, now);
      tracer.StartPhase(EXECUTION_COMPLETED, now);
      var _ := tracer.EndPhase(true, None, now);
    }
    result := ExecutionResult(true, id, Some(checkpoint), data, None, completed);
  }

  // What one stretch after an await leaves behind: the new state, or the reply.
  ghost predicate Follows(p: Progress, r: Result<ExecutionState, ExecutionResult>, tracer: ExecutionTracer?,
                          before: Option<Counters>, after: Option<Counters>)
    reads tracer
  {
    match r
    case Ok(state) => p.Waiting? && Mirrors(p.frame, state, tracer) && after == before
    case Err(result) => Ends(p, result, tracer, before, after)
  }

  ghost predicate Ends(p: Progress, result: ExecutionResult, tracer: ExecutionTracer?,
                       before: Option<Counters>, after: Option<Counters>)
    reads tracer
  {
    && p.Finished? && result == p.result && p.frame.trace == Seen(tracer)
    && (before.Some? ==> after == Some(CountEnd(before.value, p.extra, result.success)))
  }

  ghost function CountersOf(metrics: MetricsRegistry?): Option<Counters>
    reads metrics
  {
    if metrics == null then None else Some(metrics.counters)
  }

  method AfterPolicy(ghost f: Frame, id: string, o: Outcome, state: ExecutionState, tracer: ExecutionTracer?,
                     metrics: MetricsRegistry?, now: real)
    returns (r: Result<ExecutionState, ExecutionResult>)
    requires Mirrors(f, state, tracer) && f.id == id && f.stage == PolicyStage && state == VALIDATING
    modifies tracer, metrics
    ensures Follows(Resume(f, o, now), r, tracer, old(CountersOf(metrics)), CountersOf(metrics))
    ensures r.Ok? ==> r.value == AUTHORIZED
  {
    var result;
    if o.Raised? {
      result := FailWith(f, id, state, HALTED, "Policy evaluation error: " + o.error, tracer, Some(o.error),
                         metrics, None, now);
      return Err(result);
    }
    if o.Refused? {
      result := FailWith(f, id, state, FAILED, Or(o.reason, "Policy rejected intent"), tracer, o.reason,
                         metrics, Some(PolicyRejected), now);
      return Err(result);
    }
    var next := MoveOn(f, state, Some(AUTHORIZED), CapabilityStage, tracer, CAPABILITY_CHECK, now);
    return Ok(next);
  }

  method AfterCapability(ghost f: Frame, id: string, action: string, o: Outcome, state: ExecutionState,
                         tracer: ExecutionTracer?, metrics: MetricsRegistry?, now: real)
    returns (r: Result<ExecutionState, ExecutionResult>)
    requires Mirrors(f, state, tracer) && f.id == id && f.stage == CapabilityStage && state == AUTHORIZED
    requires f.intent.action == action
    modifies tracer, metrics
    ensures Follows(Resume(f, o, now), r, tracer, old(CountersOf(metrics)), CountersOf(metrics))
    ensures r.Ok? ==> r.value == EXECUTING
  {
    var result;
    if o.Raised? {
      result := FailWith(f, id, state, FAILED, "Capability check error: " + o.error, tracer, Some(o.error),
                         metrics, None, now);
      return Err(result);
    }
    if o.Refused? {
      result := FailWith(f, id, state, FAILED, Or(o.reason, "Capability not allowed for action: " + action), tracer,
                         o.reason, metrics, Some(CapabilityDenied), now);
      return Err(result);
    }
    var next := MoveOn(f, state, Some(EXECUTING), RouteStage, tracer, INTENT_ROUTING, now);
    return Ok(next);
  }

  method AfterRouting(ghost f: Frame, id: string, o: Outcome, state: ExecutionState, tracer: ExecutionTracer?,
                      metrics: MetricsRegistry?, now: real)
    returns (r: Result<ExecutionState, ExecutionResult>)
    requires Mirrors(f, state, tracer) && f.id == id && f.stage == RouteStage && state == EXECUTING && !o.Refused?
    modifies tracer, metrics
    ensures Follows(Resume(f, o, now), r, tracer, old(CountersOf(metrics)), CountersOf(metrics))
    ensures r.Ok? ==> r.value == EXECUTING
  {
    if o.Raised? {
      var result := FailWith(f, id, state, HALTED, "Orchestration error: " + o.error, tracer, Some(o.error),
                             metrics, None, now);
      return Err(result);
    }
    var next := MoveOn(f, state, None, ToolStage, tracer, TOOL_EXECUTION, now);
    return Ok(next);
  }

  method AfterTool(ghost f: Frame, id: string, o: Outcome, state: ExecutionState, tracer: ExecutionTracer?,
                   metrics: MetricsRegistry?, now: real)
    returns (r: Result<ExecutionState, ExecutionResult>)
    requires Mirrors(f, state, tracer) && f.id == id && f.stage == ToolStage && state == EXECUTING
    modifies tracer, metrics
    ensures Follows(Resume(f, o, now), r, tracer, old(CountersOf(metrics)), CountersOf(metrics))
    ensures r.Ok? ==> o.Returned? && r.value == CHECKPOINTING
  {
    var result;
    if o.Raised? {
      result := FailWith(f, id, state, FAILED, "Gateway access error: " + o.error, tracer, Some(o.error),
                         metrics, Some(GatewayError), now);
      return Err(result);
    }
    if o.Refused? {
      result := FailWith(f, id, state, FAILED, Or(o.reason, "Tool execution failed"), tracer, o.reason,
                         metrics, None, now);
      return Err(result);
    }
    var next := MoveOn(f.(toolData := o.value), state, Some(CHECKPOINTING), SaveStage, tracer, CHECKPOINT_SAVE, now);
    return Ok(next);
  }

  method AfterSave(ghost f: Frame, id: string, o: Outcome, data: string, state: ExecutionState,
                   tracer: ExecutionTracer?, metrics: MetricsRegistry?, now: real)
    returns (result: ExecutionResult)
    requires Mirrors(f, state, tracer) && f.id == id && f.stage == SaveStage && state == CHECKPOINTING && !o.Refused?
    requires f.toolData == data
    modifies tracer, metrics
    ensures Ends(Resume(f, o, now), result, tracer, old(CountersOf(metrics)), CountersOf(metrics))
  {
    if o.Raised? {
      result := FailWith(f, id, state, HALTED, "Checkpoint save error: " + o.error, tracer,
                         Some(o.error), metrics, Some(CheckpointError), now);
      return;
    }
    result := CompleteRun(f, id, state, o.value, data, tracer, now);
    Increment(metrics, ExecutionsCompleted);
  }

  // The stages in order, from routing on.
  method RunFromRouting(ghost start: Frame, id: string, state: ExecutionState, tracer: ExecutionTracer?,
                        metrics: MetricsRegistry?, s: Script)
    returns (result: ExecutionResult)
    requires s.Valid() && Mirrors(start, state, tracer) && start.stage == RouteStage && state == EXECUTING
    requires start.id == id
    modifies tracer, metrics
    ensures Ends(Drive(start, s), result, tracer, old(CountersOf(metrics)), CountersOf(metrics))
  {
    ghost var f := start;
    var step := AfterRouting(f, id, s.route, state, tracer, metrics, s.clock[3]);
    if step.Err? {
      return step.error;
    }
    f := Resume(f, s.route, s.clock[3]).frame;
    assert Drive(start, s) == Drive(f, s);

    step := AfterTool(f, id, s.tool, step.value, tracer, metrics, s.clock[4]);
    if step.Err? {
      return step.error;
    }
    f := Resume(f, s.tool, s.clock[4]).frame;
    assert Drive(start, s) == Drive(f, s);

    result := AfterSave(f, id, s.save, s.tool.value, step.value, tracer, metrics, s.clock[5]);
  }

  // The stages in order, from the first await on.
  method RunStages(ghost start: Frame, id: string, action: string, state: ExecutionState, tracer: ExecutionTracer?,
                   metrics: MetricsRegistry?, s: Script)
    returns (result: ExecutionResult)
    requires s.Valid() && Mirrors(start, state, tracer) && start.stage == PolicyStage && state == VALIDATING
    requires start.id == id && start.intent.action == action
    modifies tracer, metrics
    ensures Ends(Drive(start, s), result, tracer, old(CountersOf(metrics)), CountersOf(metrics))
  {
    ghost var f := start;
    var step := AfterPolicy(f, id, s.policy, state, tracer, metrics, s.clock[1]);
    if step.Err? {
      return step.error;
    }
    f := Resume(f, s.policy, s.clock[1]).frame;
    assert Drive(start, s) == Drive(f, s);

    step := AfterCapability(f, id, action, s.capability, step.value, tracer, metrics, s.clock[2]);
    if step.Err? {
      return step.error;
    }
    f := Resume(f, s.capability, s.clock[2]).frame;
    assert Drive(start, s) == Drive(f, s);

    result := RunFromRouting(f, id, step.value, tracer, metrics, s);
  }

  /** The straight run does exactly what its resumptions do, and it returns the
      slot to the boundary exactly when it completed. */
  method ExecuteQuotaGuarded(id: string, intent: Intent, tenant: Option<string>, quota: bool, traced: bool,
                             metrics: MetricsRegistry?, isolation: IsolationBoundary?, s: Script)
    returns (result: ExecutionResult, tracer: ExecutionTracer?)
    requires s.Valid()
    modifies metrics, isolation
    ensures var f := Start(id, intent, tenant, isolation != null, quota, traced, s.clock[0]);
            var p := Drive(f, s);
            && p.Finished? && result == p.result && p.frame.trace == Seen(tracer)
            && (metrics != null ==>
                  metrics.counters
                  == CountEnd(Incremented(old(metrics.counters), ExecutionsTotal), p.extra, result.success))
    ensures result.executionId == id && (result.success <==> s.AllReturnFrom(PolicyStage))
    ensures result.success ==> result.data == s.tool.value && result.checkpointId == Some(s.save.value)
    ensures isolation != null ==>
              isolation.View() == if result.state == COMPLETED && tenant.Some?
                                  then old(isolation.View()).Ended(tenant.value) else old(isolation.View())
  {
    ghost var f := Start(id, intent, tenant, isolation != null, quota, traced, s.clock[0]);
    tracer := null;
    if traced {
      tracer := new ExecutionTracer();
    }
    Increment(metrics, ExecutionsTotal);
    if tracer != null {
      tracer.StartPhase(INTENT_RECEIVED, s.clock[0]);
    }
    var state := CREATED;
    state := Transition(state, VALIDATING).value;
    result := RunStages(f, id, intent.action, state, tracer, metrics, s);
    StartIsSound(id, intent, tenant, isolation != null, quota, traced, s.clock[0]);
    DriveEndsWell(f, s);
    if result.state == COMPLETED && isolation != null && tenant.Some? {
      isolation.EndExecution(tenant.value);
    }
  }
}
