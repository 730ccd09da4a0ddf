/** One admitted execution: the guarded body of the runtime (kernel/runtime.py),
    cut at its awaits. A frame holds what the suspended coroutine remembers. */
module GuardedExecution {
  import opened Wrappers
  import opened ExecutionStates
  import opened Tracing
  import opened Metrics

  datatype Intent = Intent(agentId: string, action: string)

  datatype ExecutionResult = ExecutionResult(
    success: bool, executionId: string, checkpointId: Option<string>, data: string,
    error: Option<string>, state: ExecutionState)

  // The collaborator the body is waiting for.
  datatype Stage = PolicyStage | CapabilityStage | RouteStage | ToolStage | SaveStage
  {
    function Number(): nat {
      match this
      case PolicyStage => 0 case CapabilityStage => 1 case RouteStage => 2
      case ToolStage => 3 case SaveStage => 4
    }

    // A routing or a save either returns or raises; the others may refuse.
    predicate Admits(o: Outcome) {
      o.Refused? ==> !RouteStage? && !SaveStage?
    }
  }

  datatype Outcome = Returned(value: string) | Refused(reason: Option<string>) | Raised(error: string)

  datatype Frame = Frame(
    id: string, intent: Intent, tenant: Option<string>, slotHeld: bool, quotaHeld: bool,
    stage: Stage, state: ExecutionState, walk: seq<ExecutionState>, trace: Option<Trace>, toolData: string)

  // What one stretch of code between two awaits does.
  datatype Progress =
    | Waiting(frame: Frame)
    | Finished(frame: Frame, result: ExecutionResult, extra: Option<Metric>)
    | Crashed

  const PHASES := [INTENT_RECEIVED, CAPABILITY_CHECK, INTENT_ROUTING,
                   TOOL_EXECUTION, CHECKPOINT_SAVE, EXECUTION_COMPLETED]

  function Start(id: string, intent: Intent, tenant: Option<string>, slot: bool, quota: bool,
                 traced: bool, now: real): Frame
  {
    Frame(id, intent, tenant, slot, quota, PolicyStage, VALIDATING, [CREATED, VALIDATING],
          if traced then Some(Trace([], None).Start(INTENT_RECEIVED, now)) else None, "")
  }

  predicate PhaseOpen(f: Frame) {
    f.trace.Some? ==> f.trace.value.current.Some?
  }

  function EndPhase(f: Frame, success: bool, error: Option<string>, now: real): Option<Trace>
    requires PhaseOpen(f)
  {
    if f.trace.Some? then Some(f.trace.value.End(success, error, now)) else None
  }

  function NextPhase(f: Frame, phase: TracePhase, now: real): Option<Trace>
    requires PhaseOpen(f)
  {
    if f.trace.Some? then Some(f.trace.value.End(true, None, now).Start(phase, now)) else None
  }

  // Python's `reason or default`.
  function Or(reason: Option<string>, default: string): string {
    if reason.Some? && reason.value != "" then reason.value else default
  }

  // An ended run counts its specific metric, if any, then itself.
  function CountEnd(c: Counters, extra: Option<Metric>, success: bool): Counters {
    Incremented(if extra.Some? then Incremented(c, extra.value) else c,
                if success then ExecutionsCompleted else ExecutionsFailed)
  }

  // The exits: a safe transition, a failed phase, a result without checkpoint.
  function Fail(f: Frame, target: ExecutionState, message: string, traceError: Option<string>,
                extra: Option<Metric>, now: real): Progress
  {
    if !PhaseOpen(f) then Crashed
    else
      var state := TransitionSafe(f.state, target);
      Finished(f.(state := state, walk := f.walk + [state], trace := EndPhase(f, false, traceError, now)),
               ExecutionResult(false, f.id, None, "", Some(message), state), extra)
  }

  // Move on: a transition (if any), the next phase, the next stage.
  function Proceed(f: Frame, target: Option<ExecutionState>, stage: Stage, phase: TracePhase, now: real): Progress {
    if !PhaseOpen(f) || (target.Some? && !IsValidTransition(f.state, target.value)) then Crashed
    else
      var moved := if target.Some? then f.(state := target.value, walk := f.walk + [target.value]) else f;
      Waiting(moved.(stage := stage, trace := NextPhase(f, phase, now)))
  }

  function Complete(f: Frame, checkpoint: string, now: real): Progress {
    if !PhaseOpen(f) || !IsValidTransition(f.state, COMPLETED) then Crashed
    else
      var closed := NextPhase(f, EXECUTION_COMPLETED, now);
      var trace := if closed.Some? then Some(closed.value.End(true, None, now)) else None;
      Finished(f.(state := COMPLETED, walk := f.walk + [COMPLETED], trace := trace),
               ExecutionResult(true, f.id, Some(checkpoint), f.toolData, None, COMPLETED), None)
  }

  function Resume(f: Frame, o: Outcome, now: real): Progress
  {
    match f.stage
    case PolicyStage =>
      (match o
        case Raised(e) => Fail(f, HALTED, "Policy evaluation error: " + e, Some(e), None, now)
        case Refused(why) => Fail(f, FAILED, Or(why, "Policy rejected intent"), why, Some(PolicyRejected), now)
        case Returned(_) => Proceed(f, Some(AUTHORIZED), CapabilityStage, CAPABILITY_CHECK, now))
    case CapabilityStage =>
      (match o
        case Raised(e) => Fail(f, FAILED, "Capability check error: " + e, Some(e), None, now)
        case Refused(why) =>
         Fail(f, FAILED, Or(why, "Capability not allowed for action: " + f.intent.action), why,
              Some(CapabilityDenied), now)
        case Returned(_) => Proceed(f, Some(EXECUTING), RouteStage, INTENT_ROUTING, now))
    case RouteStage =>
      (match o
        case Raised(e) => Fail(f, HALTED, "Orchestration error: " + e, Some(e), None, now)
        case _ => Proceed(f, None, ToolStage, TOOL_EXECUTION, now))
    case ToolStage =>
      (match o
        case Raised(e) => Fail(f, FAILED, "Gateway access error: " + e, Some(e), Some(GatewayError), now)
        case Refused(why) => Fail(f, FAILED, Or(why, "Tool execution failed"), why, None, now)
        case Returned(data) => Proceed(f.(toolData := data), Some(CHECKPOINTING), SaveStage, CHECKPOINT_SAVE, now))
    case SaveStage =>
      (match o
        case Raised(e) => Fail(f, HALTED, "Checkpoint save error: " + e, Some(e), Some(CheckpointError), now)
        case Returned(checkpoint) => Complete(f, checkpoint, now)
        case Refused(_) => Crashed)
  }

  /* ----- What every stretch keeps ----- */

  function StateAt(stage: Stage): ExecutionState {
    match stage
    case PolicyStage => VALIDATING
    case CapabilityStage => AUTHORIZED
    case RouteStage => EXECUTING
    case ToolStage => EXECUTING
    case SaveStage => CHECKPOINTING
  }

  ghost predicate AllSucceeded(entries: seq<TraceEntry>) {
    forall i | 0 <= i < |entries| :: entries[i].success
  }

  // The trace of a suspended execution: the earlier phases, all successful, and the current one open.
  ghost predicate TraceMatches(t: Trace, stage: Stage) {
    && t.current.Some? && t.current.value.phase == PHASES[stage.Number()]
    && t.Phases() == PHASES[..stage.Number()]
    && AllSucceeded(t.entries)
  }

  ghost predicate Sound(f: Frame) {
    && f.state == StateAt(f.stage)
    && LegalWalk(f.walk) && f.walk[|f.walk| - 1] == f.state
    && (f.trace.Some? ==> TraceMatches(f.trace.value, f.stage))
  }

  // The trace of a finished execution: an initial part of the fixed phase order,
  // nothing open, and a failed entry exactly at the end of a failed run.
  ghost predicate TraceClosed(t: Trace, success: bool) {
    var n := |t.entries|;
    && t.current.None?
    && 0 < n <= |PHASES| && t.Phases() == PHASES[..n]
    && AllSucceeded(t.entries[..n - 1])
    && t.entries[n - 1].success == success
    && (success <==> n == |PHASES|)
  }

  ghost predicate WellEnded(f: Frame, result: ExecutionResult) {
    && f.state == result.state && result.state.Terminal() && result.executionId == f.id
    && LegalWalk(f.walk) && f.walk[|f.walk| - 1] == f.state
    && (result.success <==> result.state == COMPLETED)
    && (result.success <==> result.checkpointId.Some?)
    && (result.success <==> result.error.None?)
    && (f.trace.Some? ==> TraceClosed(f.trace.value, result.success))
  }

  ghost predicate SameOwner(f: Frame, g: Frame) {
    f.id == g.id && f.intent == g.intent && f.tenant == g.tenant
    && f.slotHeld == g.slotHeld && f.quotaHeld == g.quotaHeld
  }

  lemma StartIsSound(id: string, intent: Intent, tenant: Option<string>, slot: bool, quota: bool, traced: bool,
                     now: real)
    ensures Sound(Start(id, intent, tenant, slot, quota, traced, now))
  {
    var f := Start(id, intent, tenant, slot, quota, traced, now);
    if traced {
      assert f.trace.value.Phases() == PHASES[..0];
    }
  }

  lemma WalkExtends(walk: seq<ExecutionState>, next: ExecutionState)
    requires LegalWalk(walk) && IsValidTransition(walk[|walk| - 1], next)
    ensures LegalWalk(walk + [next])
  {
  }

  lemma TraceEnds(t: Trace, stage: Stage, success: bool, error: Option<string>, now: real)
    requires TraceMatches(t, stage)
    ensures var ended, n := t.End(success, error, now), stage.Number();
            && ended.entries[..n] == t.entries && ended.entries[n].success == success
            && |ended.entries| == n + 1 && ended.Phases() == PHASES[..n + 1] && ended.current.None?
  {
    var n := stage.Number();
    assert |t.Phases()| == n;
    assert t.End(success, error, now).Phases() == t.Phases() + [PHASES[n]];
    assert PHASES[..n + 1] == PHASES[..n] + [PHASES[n]];
  }

  lemma TraceFails(t: Trace, stage: Stage, error: Option<string>, now: real)
    requires TraceMatches(t, stage)
    ensures TraceClosed(t.End(false, error, now), false)
  {
    TraceEnds(t, stage, false, error, now);
  }

  lemma TraceCompletes(t: Trace, now: real)
    requires TraceMatches(t, SaveStage)
    ensures TraceClosed(t.End(true, None, now).Start(EXECUTION_COMPLETED, now).End(true, None, now), true)
  {
    TraceEnds(t, SaveStage, true, None, now);
    var ended := t.End(true, None, now);
    var closed := ended.Start(EXECUTION_COMPLETED, now).End(true, None, now);
    assert closed.entries[..5] == ended.entries;
    assert closed.Phases() == ended.Phases() + [PHASES[5]];
    assert PHASES[..6] == PHASES[..5] + [PHASES[5]];
  }

  lemma TraceAdvances(t: Trace, stage: Stage, next: Stage, now: real)
    requires TraceMatches(t, stage) && next.Number() == stage.Number() + 1
    ensures TraceMatches(t.End(true, None, now).Start(PHASES[next.Number()], now), next)
  {
    TraceEnds(t, stage, true, None, now);
    var ended := t.End(true, None, now);
    var started := ended.Start(PHASES[next.Number()], now);
    assert started.Phases() == ended.Phases();
    assert forall i | 0 <= i < |t.entries| :: ended.entries[i] == t.entries[i];
  }

  lemma PhaseAdvances(f: Frame, stage: Stage, phase: TracePhase, now: real)
    requires f.trace.Some? ==> TraceMatches(f.trace.value, f.stage)
    requires stage.Number() == f.stage.Number() + 1 && phase == PHASES[stage.Number()]
    ensures PhaseOpen(f)
    ensures f.trace.Some? ==> NextPhase(f, phase, now).Some? && TraceMatches(NextPhase(f, phase, now).value, stage)
    ensures f.trace.None? ==> NextPhase(f, phase, now).None?
  {
    if f.trace.Some? {
      TraceAdvances(f.trace.value, f.stage, stage, now);
    }
  }

  // From a sound frame no transition raises and none falls back, no phase is missing.
  lemma FailEnds(f: Frame, target: ExecutionState, message: string, traceError: Option<string>,
                 extra: Option<Metric>, now: real)
    requires Sound(f) && (target == FAILED || target == HALTED) && IsValidTransition(f.state, target)
    ensures var p := Fail(f, target, message, traceError, extra, now);
            p.Finished? && p.result.state == target && !p.result.success
            && WellEnded(p.frame, p.result) && SameOwner(f, p.frame) && p.extra == extra
  {
    WalkExtends(f.walk, target);
    if f.trace.Some? {
      TraceFails(f.trace.value, f.stage, traceError, now);
    }
  }

  lemma ProceedMoves(f: Frame, target: Option<ExecutionState>, stage: Stage, phase: TracePhase, now: real)
    requires Sound(f) && stage.Number() == f.stage.Number() + 1 && phase == PHASES[stage.Number()]
    requires target.Some? ==> IsValidTransition(f.state, target.value) && target.value == StateAt(stage)
    requires target.None? ==> f.state == StateAt(stage)
    ensures var p := Proceed(f, target, stage, phase, now);
            p.Waiting? && Sound(p.frame) && p.frame.stage == stage && SameOwner(f, p.frame) && f.walk <= p.frame.walk
  {
    if target.Some? {
      WalkExtends(f.walk, target.value);
    }
    PhaseAdvances(f, stage, phase, now);
  }

  lemma CompleteEnds(f: Frame, checkpoint: string, now: real)
    requires Sound(f) && f.stage == SaveStage
    ensures var p := Complete(f, checkpoint, now);
            && p.Finished? && WellEnded(p.frame, p.result) && SameOwner(f, p.frame)
            && p.result == ExecutionResult(true, f.id, Some(checkpoint), f.toolData, None, COMPLETED)
  {
    WalkExtends(f.walk, COMPLETED);
    if f.trace.Some? {
      TraceCompletes(f.trace.value, now);
    }
  }

  // The specific metric is never one of those that count executions.
  ghost predicate CountedOnce(extra: Option<Metric>) {
    extra.Some? ==> extra.value !in {ExecutionsCompleted, ExecutionsFailed, ExecutionsTotal}
  }

  // Where an execution ends, by the stage it was in and what it met there:
  // errors of policy, routing and checkpointing halt it, the rest fail it.
  function EndState(stage: Stage, o: Outcome): ExecutionState {
    if o.Raised? && (stage.PolicyStage? || stage.RouteStage? || stage.SaveStage?) then HALTED
    else if o.Returned? && stage.SaveStage? then COMPLETED
    else FAILED
  }

  // What a stretch may do: suspend at the next stage, or end well. It completes
  // only through a save that returned.
  ghost predicate ResumedWell(f: Frame, o: Outcome, p: Progress) {
    && !p.Crashed? && SameOwner(f, p.frame) && f.walk <= p.frame.walk
    && (p.Waiting? ==> Sound(p.frame) && p.frame.stage.Number() == f.stage.Number() + 1 && o.Returned?)
    && (p.Finished? ==>
          WellEnded(p.frame, p.result) && CountedOnce(p.extra) && p.result.state == EndState(f.stage, o)
          && (p.result.success <==> f.stage == SaveStage && o.Returned?)
          && (p.result.success ==> p.result.checkpointId == Some(o.value)))
  }

  lemma PolicyResumes(f: Frame, o: Outcome, now: real)
    requires Sound(f) && f.stage == PolicyStage
    ensures ResumedWell(f, o, Resume(f, o, now))
  {
    match o
    case Raised(e) => FailEnds(f, HALTED, "Policy evaluation error: " + e, Some(e), None, now);
    case Refused(why) => FailEnds(f, FAILED, Or(why, "Policy rejected intent"), why, Some(PolicyRejected), now);
    case Returned(_) => ProceedMoves(f, Some(AUTHORIZED), CapabilityStage, CAPABILITY_CHECK, now);
  }

  lemma CapabilityResumes(f: Frame, o: Outcome, now: real)
    requires Sound(f) && f.stage == CapabilityStage
    ensures ResumedWell(f, o, Resume(f, o, now))
  {
    match o
    case Raised(e) => FailEnds(f, FAILED, "Capability check error: " + e, Some(e), None, now);
    case Refused(why) =>
      FailEnds(f, FAILED, Or(why, "Capability not allowed for action: " + f.intent.action), why,
               Some(CapabilityDenied), now);
    case Returned(_) => ProceedMoves(f, Some(EXECUTING), RouteStage, INTENT_ROUTING, now);
  }

  lemma RouteResumes(f: Frame, o: Outcome, now: real)
    requires Sound(f) && f.stage == RouteStage && f.stage.Admits(o)
    ensures ResumedWell(f, o, Resume(f, o, now))
  {
    if o.Raised? {
      FailEnds(f, HALTED, "Orchestration error: " + o.error, Some(o.error), None, now);
    } else {
      ProceedMoves(f, None, ToolStage, TOOL_EXECUTION, now);
    }
  }

  lemma ToolResumes(f: Frame, o: Outcome, now: real)
    requires Sound(f) && f.stage == ToolStage
    ensures ResumedWell(f, o, Resume(f, o, now))
  {
    match o
    case Raised(e) => FailEnds(f, FAILED, "Gateway access error: " + e, Some(e), Some(GatewayError), now);
    case Refused(why) => FailEnds(f, FAILED, Or(why, "Tool execution failed"), why, None, now);
    case Returned(data) =>
      ProceedMoves(f.(toolData := data), Some(CHECKPOINTING), SaveStage, CHECKPOINT_SAVE, now);
  }

  lemma SaveResumes(f: Frame, o: Outcome, now: real)
    requires Sound(f) && f.stage == SaveStage && f.stage.Admits(o)
    ensures ResumedWell(f, o, Resume(f, o, now))
  {
    if o.Raised? {
      FailEnds(f, HALTED, "Checkpoint save error: " + o.error, Some(o.error), Some(CheckpointError), now);
    } else {
      CompleteEnds(f, o.value, now);
    }
  }

  /** Each stretch either suspends at the next stage or ends well: it never
      crashes, every ended execution walked legally to a terminal state with a
      complete trace, and completes only through a save that returned. */
  lemma ResumeIsSound(f: Frame, o: Outcome, now: real)
    requires Sound(f) && f.stage.Admits(o)
    ensures ResumedWell(f, o, Resume(f, o, now))
  {
    match f.stage
    case PolicyStage => PolicyResumes(f, o, now);
    case CapabilityStage => CapabilityResumes(f, o, now);
    case RouteStage => RouteResumes(f, o, now);
    case ToolStage => ToolResumes(f, o, now);
    case SaveStage => SaveResumes(f, o, now);
  }

  /* ----- What each exit reports ----- */

  // What comes before the text of an exception.
  function ErrorPrefix(stage: Stage): string {
    match stage
    case PolicyStage => "Policy evaluation error: "
    case CapabilityStage => "Capability check error: "
    case RouteStage => "Orchestration error: "
    case ToolStage => "Gateway access error: "
    case SaveStage => "Checkpoint save error: "
  }

  // What a refusal without a reason says.
  function DefaultReason(stage: Stage, action: string): string {
    if stage.PolicyStage? then "Policy rejected intent"
    else if stage.CapabilityStage? then "Capability not allowed for action: " + action
    else "Tool execution failed"
  }

  // The text of a failure, by the stage and what was met there.
  function ErrorText(stage: Stage, o: Outcome, action: string): string {
    match o
    case Raised(e) => ErrorPrefix(stage) + e
    case Refused(Some(reason)) => if reason != "" then reason else DefaultReason(stage, action)
    case _ => DefaultReason(stage, action)
  }

  // The counter that tells this failure from the others, if it has one.
  function FailureMetric(stage: Stage, o: Outcome): Option<Metric> {
    if stage.PolicyStage? && o.Refused? then Some(PolicyRejected)
    else if stage.CapabilityStage? && o.Refused? then Some(CapabilityDenied)
    else if stage.ToolStage? && o.Raised? then Some(GatewayError)
    else if stage.SaveStage? && o.Raised? then Some(CheckpointError)
    else None
  }

  // The error of the last trace entry: what was raised, or the bare reason.
  function TraceError(o: Outcome): Option<string> {
    match o
    case Raised(e) => Some(e)
    case Refused(reason) => reason
    case Returned(_) => None
  }

  // The failure of an open phase, with nothing but its report.
  ghost predicate ReportsFailure(p: Progress, message: string, traceError: Option<string>, extra: Option<Metric>) {
    && p.Finished? && !p.result.success
    && p.result.data == "" && p.result.checkpointId == None && p.result.error == Some(message) && p.extra == extra
    && (p.frame.trace.Some? ==>
          p.frame.trace.value.entries != []
          && p.frame.trace.value.entries[|p.frame.trace.value.entries| - 1].error == traceError)
  }

  lemma FailReports(f: Frame, target: ExecutionState, message: string, traceError: Option<string>,
                    extra: Option<Metric>, now: real)
    requires PhaseOpen(f)
    ensures ReportsFailure(Fail(f, target, message, traceError, extra, now), message, traceError, extra)
  {
  }

  // What a stretch hands on: the tool's data, kept or taken, or the final result.
  ghost predicate Reports(f: Frame, o: Outcome, p: Progress) {
    && (o.Returned? && p.Waiting? ==> p.frame.toolData == if f.stage.ToolStage? then o.value else f.toolData)
    && (o.Returned? && p.Finished? ==>
          && p.result.data == f.toolData && p.result.checkpointId == Some(o.value)
          && p.result.error == None && p.extra == None)
    && (!o.Returned? ==>
          ReportsFailure(p, ErrorText(f.stage, o, f.intent.action), TraceError(o), FailureMetric(f.stage, o)))
  }

  lemma ReturnedReports(f: Frame, o: Outcome, now: real)
    requires Sound(f) && f.stage.Admits(o) && o.Returned?
    ensures Reports(f, o, Resume(f, o, now))
  {
  }

  /** A stretch hands on what the tool returned and nothing else; a success carries
      it with the checkpoint's id, and a failure says what failed and why. */
  lemma ResumeReports(f: Frame, o: Outcome, now: real)
    requires Sound(f) && f.stage.Admits(o)
    ensures Reports(f, o, Resume(f, o, now))
  {
    if o.Returned? {
      ReturnedReports(f, o, now);
    } else {
      var target, message := EndState(f.stage, o), ErrorText(f.stage, o, f.intent.action);
      FailReports(f, target, message, TraceError(o), FailureMetric(f.stage, o), now);
      RefusalFails(f, o, now);
    }
  }

  // Every refusal and every exception takes the one exit.
  lemma RefusalFails(f: Frame, o: Outcome, now: real)
    requires f.stage.Admits(o) && !o.Returned?
    ensures Resume(f, o, now)
         == Fail(f, EndState(f.stage, o), ErrorText(f.stage, o, f.intent.action), TraceError(o),
                 FailureMetric(f.stage, o), now)
  {
  }

  /** An end is counted once under its own metric and once as completed or failed. */
  lemma EndIsCounted(c: Counters, extra: Option<Metric>, success: bool, m: Metric)
    requires CountedOnce(extra)
    ensures Get(CountEnd(c, extra, success), m)
         == Get(c, m) + (if extra == Some(m) then 1 else 0)
            + (if m == (if success then ExecutionsCompleted else ExecutionsFailed) then 1 else 0)
  {
  }

  /* ----- The times in a trace ----- */

  // Each entry lasts from its start to its end, and starts where the one before ended.
  ghost predicate Timed(t: Trace) {
    && (forall i | 0 <= i < |t.entries| ::
          t.entries[i].durationMs == (t.entries[i].endTime - t.entries[i].startTime) * 1000.0)
    && (forall i | 0 <= i < |t.entries| - 1 :: t.entries[i + 1].startTime == t.entries[i].endTime)
    && (t.entries != [] && t.current.Some? ==> t.current.value.start == t.entries[|t.entries| - 1].endTime)
  }

  lemma EndKeepsTimes(t: Trace, success: bool, error: Option<string>, now: real)
    requires Timed(t) && t.current.Some?
    ensures Timed(t.End(success, error, now)) && t.End(success, error, now).current.None?
    ensures t.End(success, error, now).entries[|t.entries|].endTime == now
  {
  }

  lemma StartKeepsTimes(t: Trace, phase: TracePhase, now: real)
    requires Timed(t) && t.current.None? && (t.entries != [] ==> t.entries[|t.entries| - 1].endTime == now)
    ensures Timed(t.Start(phase, now)) && t.Start(phase, now).current.Some?
    ensures t.Start(phase, now).entries == t.entries
  {
  }

  lemma NextKeepsTimes(f: Frame, phase: TracePhase, now: real)
    requires PhaseOpen(f) && f.trace.Some? && Timed(f.trace.value)
    ensures Timed(NextPhase(f, phase, now).value) && NextPhase(f, phase, now).value.current.Some?
    ensures Timed(NextPhase(f, phase, now).value.End(true, None, now))
  {
    var t := f.trace.value;
    EndKeepsTimes(t, true, None, now);
    StartKeepsTimes(t.End(true, None, now), phase, now);
    EndKeepsTimes(NextPhase(f, phase, now).value, true, None, now);
  }

  // The phase that opens when a stage is passed.
  function Following(stage: Stage): TracePhase {
    PHASES[stage.Number() + 1]
  }

  /** Every stretch keeps the trace's times consistent. */
  lemma ResumeKeepsTimes(f: Frame, o: Outcome, now: real)
    requires Sound(f) && f.stage.Admits(o) && f.trace.Some? && Timed(f.trace.value)
    ensures var p := Resume(f, o, now);
            !p.Crashed? && p.frame.trace.Some? && Timed(p.frame.trace.value)
  {
    if o.Returned? {
      NextKeepsTimes(f, Following(f.stage), now);
      PassesOn(f, o, now);
    } else {
      RefusalFails(f, o, now);
      EndKeepsTimes(f.trace.value, false, TraceError(o), now);
    }
  }

  lemma PassesOn(f: Frame, o: Outcome, now: real)
    requires Sound(f) && f.stage.Admits(o) && o.Returned? && f.trace.Some?
    ensures var p, next := Resume(f, o, now), NextPhase(f, Following(f.stage), now);
            && !p.Crashed?
            && (!f.stage.SaveStage? ==> p.frame.trace == next)
            && (f.stage.SaveStage? ==> p.frame.trace == Some(next.value.End(true, None, now)))
  {
  }
}
