/** What holds in every state the runtime can reach, for every interleaving of
    executions, outcomes, context switches, registrations, drain and stop. */
module RuntimeSafety {
  import opened Wrappers
  import opened ExecutionStates
  import opened Metrics
  import opened Isolation
  import opened Tracing
  import opened GuardedExecution
  import opened RuntimeSystem
  import B = BucketArithmetic

  lemma InitialIsSafe(s: System)
    requires Initial(s)
    ensures Inv(s)
  {
  }

  lemma ContextKeeps(s: System, c: TenantContext)
    requires Inv(s)
    ensures Inv(Contextualised(s, c))
  {
  }

  lemma BoundaryKeeps(s: System, b: IsolationState)
    requires Inv(s) && s.isolation.Some?
    requires b.counts == s.isolation.value.counts
    requires forall t | t in s.isolation.value.tenants ::
               t in b.tenants
               && b.tenants[t].maxConcurrentExecutions == s.isolation.value.tenants[t].maxConcurrentExecutions
    ensures Inv(s.(isolation := Some(b)))
  {
    forall t ensures SlotOk(b, s.frames, s.log, t, NOTHING) {
      assert SlotOk(s.isolation.value, s.frames, s.log, t, NOTHING);
    }
  }

  lemma LifecycleKeeps(s: System, state: RuntimeState)
    requires Inv(s)
    ensures Inv(s.(state := state)) && Inv(s.(state := state).Counted(ShutdownCount))
  {
  }

  lemma StepKeeps(s: System, e: Event)
    requires Inv(s) && Enabled(s, e)
    ensures Inv(Step(s, e))
  {
    match e
    case Execute(id, intent, now) => AdmitKeeps(s, id, intent, now);
    case Resumed(id, o, now) => ResumeKeeps(s, id, o, now);
    case Drain => LifecycleKeeps(s, DRAINING);
    case Stop => LifecycleKeeps(s, STOPPED);
    case SetContext(c) => ContextKeeps(s, c);
    case RegisterTenant(t) => if s.isolation.Some? { BoundaryKeeps(s, s.isolation.value.TenantAdded(t)); }
    case RegisterAgent(a, t) => if s.isolation.Some? { BoundaryKeeps(s, s.isolation.value.AgentAdded(a, t)); }
  }

  lemma {:induction false} RunKeeps(s: System, events: seq<Event>)
    requires Inv(s) && AllEnabled(s, events)
    ensures Inv(Run(s, events))
    decreases |events|
  {
    if events != [] {
      StepKeeps(s, events[0]);
      RunKeeps(Step(s, events[0]), events[1..]);
    }
  }

  ghost predicate Reachable(s: System) {
    exists s0, events :: Initial(s0) && AllEnabled(s0, events) && Run(s0, events) == s
  }

  lemma ReachableIsSafe(s: System)
    requires Reachable(s)
    ensures Inv(s)
  {
    var s0, events :| Initial(s0) && AllEnabled(s0, events) && Run(s0, events) == s;
    InitialIsSafe(s0);
    RunKeeps(s0, events);
  }

  /** Quota safety: a tenant's active set is exactly its executions in flight,
      by the tenant each captured at its start, and never exceeds the limit. */
  lemma QuotaSafety(s: System, t: string)
    requires Reachable(s) && s.quota.Some?
    ensures s.quota.value.ActiveOf(t)
         == set id | id in s.frames && s.frames[id].tenant == Some(t)
    ensures var q := s.quota.value;
            && (q.ActiveOf(t) == if t in q.active then q.active[t] else {})
            && (|q.ActiveOf(t)| <= (if t in q.configs then q.configs[t].maxConcurrent else 5) || q.ActiveOf(t) == {})
  {
    ReachableIsSafe(s);
    assert ActiveOk(s.quota.value, s.frames, t, NOTHING);
    assert forall id | id in s.frames :: FrameOk(s.isolation.Some?, s.quota.Some?, id, s.frames[id]);
  }

  lemma {:induction false} TakenMinusCompleted(log: seq<Ended>, t: string)
    ensures TakenBy(log, t) == CompletedBy(log, t) + Leaks(log, t)
  {
    if log != [] {
      TakenMinusCompleted(log[..|log| - 1], t);
    }
  }

  /** Slot accounting: the boundary's count is the executions that passed the
      limit check minus those that completed, and stays within the limit. */
  lemma SlotAccounting(s: System, t: string)
    requires Reachable(s) && s.isolation.Some?
    ensures s.isolation.value.Count(t)
         == |SlotHolders(s.frames, t)| + TakenBy(s.log, t) - CompletedBy(s.log, t)
    ensures 0 <= s.isolation.value.Count(t)
    ensures s.isolation.value.Count(t) > 0 ==>
              t in s.isolation.value.tenants
              && s.isolation.value.Count(t) <= s.isolation.value.tenants[t].maxConcurrentExecutions
  {
    ReachableIsSafe(s);
    assert SlotOk(s.isolation.value, s.frames, s.log, t, NOTHING);
    TakenMinusCompleted(s.log, t);
  }

  /** The clamp at zero never takes effect: a completing execution finds its own
      slot counted, and gives back exactly that one. */
  lemma ClampNeverBites(s: System, id: string, o: Outcome, now: real)
    requires Reachable(s) && id in s.frames && s.frames[id].stage.Admits(o) && s.isolation.Some?
    ensures var f, b := s.frames[id], s.isolation.value;
            && f.tenant.Some? && b.Count(f.tenant.value) >= 1
            && forall t :: ResumeStep(s, id, o, now).isolation.value.Count(t)
                 == b.Count(t) - (if f.stage.SaveStage? && o.Returned? && f.tenant == Some(t) then 1 else 0)
  {
    ReachableIsSafe(s);
    var f := s.frames[id];
    assert FrameOk(s.isolation.Some?, s.quota.Some?, id, f);
    assert SlotOk(s.isolation.value, s.frames, s.log, f.tenant.value, NOTHING);
    assert id in SlotHolders(s.frames, f.tenant.value);
    ResumeIsSound(f, o, now);
  }

  /** The count equals the executions in flight exactly when every call of the
      tenant that took a slot has completed; each other end keeps a slot. */
  lemma SlotsMatchInFlightIff(s: System, t: string)
    requires Reachable(s) && s.isolation.Some?
    ensures s.isolation.value.Count(t) == |SlotHolders(s.frames, t)|
         <==> forall i | 0 <= i < |s.log| :: s.log[i].slotTaken && s.log[i].tenant == Some(t) ==> s.log[i].Completed()
  {
    ReachableIsSafe(s);
    assert SlotOk(s.isolation.value, s.frames, s.log, t, NOTHING);
    NoLeakIff(s.log, t);
  }

  lemma {:induction false} NoLeakIff(log: seq<Ended>, t: string)
    ensures Leaks(log, t) == 0 <==> forall i | 0 <= i < |log| :: !log[i].Owes(t)
  {
    if log != [] {
      NoLeakIff(log[..|log| - 1], t);
    }
  }

  /* ----- What never shrinks ----- */

  lemma {:induction false} LeaksGrow(log: seq<Ended>, longer: seq<Ended>, t: string)
    requires log <= longer
    ensures Leaks(log, t) <= Leaks(longer, t)
  {
    if log != longer {
      LeaksGrow(log, longer[..|longer| - 1], t);
    }
  }

  // The log is append-only, the runtime state only advances, limits stay.
  ghost predicate Advances(s: System, s': System) {
    && s.log <= s'.log
    && s.state.Rank() <= s'.state.Rank()
    && (s.state != RUNNING ==> s'.frames.Keys <= s.frames.Keys)
    && s.counters.Some? == s'.counters.Some?
    && s.isolation.Some? == s'.isolation.Some?
    && (s.isolation.Some? ==> LimitsKept(s.isolation.value, s'.isolation.value))
  }

  ghost predicate LimitsKept(b: IsolationState, b': IsolationState) {
    forall t | t in b.tenants ::
      t in b'.tenants && b'.tenants[t].maxConcurrentExecutions == b.tenants[t].maxConcurrentExecutions
  }

  // An admission either suspends one new execution or logs one unsuccessful reply.
  ghost predicate Admitted(s: System, s': System, id: string) {
    && s'.state == s.state && s.counters.Some? == s'.counters.Some?
    && s.isolation.Some? == s'.isolation.Some?
    && (s.isolation.Some? ==> s.isolation.value.tenants == s'.isolation.value.tenants)
    && (|| (s.state == RUNNING && s'.log == s.log && id in s'.frames && s'.frames == s.frames[id := s'.frames[id]])
        || (s'.frames == s.frames && |s'.log| == |s.log| + 1 && s'.log[..|s.log|] == s.log
            && !s'.log[|s.log|].Succeeded()))
  }

  lemma AdmitShape(s: System, id: string, intent: Intent, now: real)
    ensures Admitted(s, Admit(s, id, intent, now), id)
  {
    var tenant := if s.context.Some? then Some(s.context.value.tenantId) else None;
    AdmitQuotaShape(s, id, intent, tenant, now);
    if s.isolation.Some? && tenant.Some? {
      AdmitQuotaShape(s.(isolation := Some(s.isolation.value.Started(tenant.value))), id, intent, tenant, now);
    }
  }

  lemma RejectShape(s: System, s': System, id: string, tenant: Option<string>, slot: bool, message: string,
                    e: RuntimeError)
    requires s'.state == s.state && s.counters.Some? == s'.counters.Some? && s'.isolation == s.isolation
    requires s'.frames == s.frames && s'.log == s.log
    ensures Admitted(s, s'.Rejected(id, tenant, slot, message), id)
    ensures Admitted(s, s'.Logged(Ended(id, tenant, slot, false, Threw(e))), id)
  {
  }

  lemma AdmitQuotaShape(s: System, id: string, intent: Intent, tenant: Option<string>, now: real)
    ensures Admitted(s, AdmitQuota(s, id, intent, tenant, now), id)
  {
    if s.quota.None? || tenant.None? || tenant.value == "" {
      BeginShape(s, id, intent, tenant, false, now);
    } else if !s.quota.value.HasRoom(tenant.value) {
      RejectShape(s, s.Counted(QuotaExceeded), id, tenant, s.isolation.Some?,
                  "Concurrent execution limit exceeded for tenant " + tenant.value, ZeroDivision);
    } else {
      AdmitAtRateShape(s, id, intent, tenant.value, now);
    }
  }

  lemma AdmitAtRateShape(s: System, id: string, intent: Intent, t: string, now: real)
    requires s.quota.Some?
    ensures Admitted(s, AdmitAtRate(s, id, intent, t, now), id)
  {
    var q, slot, call := s.quota.value, s.isolation.Some?, B.Consume(now, 1.0);
    if B.Grants(q.rate, Lookup(q.levels, t), call) {
      BeginShape(s.(quota := Some(q.Touched(t, call).Started(t, id))), id, intent, Some(t), true, now);
    } else {
      var s' := s.(quota := Some(q.Touched(t, call).Touched(t, B.RetryAfter(now))));
      RejectShape(s, s', id, Some(t), slot, "", ZeroDivision);
      RejectShape(s, s'.Counted(RateLimitHit), id, Some(t), slot, "Rate limit exceeded for tenant " + t, ZeroDivision);
    }
  }

  lemma BeginShape(s: System, id: string, intent: Intent, tenant: Option<string>, held: bool, now: real)
    ensures Admitted(s, Begin(s, id, intent, tenant, held, now), id)
  {
  }

  // A resumption moves its own execution on, or logs its reply.
  ghost predicate Moved(s: System, s': System, id: string, p: Progress)
    requires id in s.frames
  {
    && s'.state == s.state && s.counters.Some? == s'.counters.Some?
    && s.isolation.Some? == s'.isolation.Some?
    && (s.isolation.Some? ==> s.isolation.value.tenants == s'.isolation.value.tenants)
    && (if p.Waiting? then s'.log == s.log && s'.frames == s.frames[id := p.frame]
        else
          var reply := if p.Finished? then Replied(p.result) else Threw(InvalidState);
          s'.frames == s.frames - {id}
          && s'.log == s.log + [Ended(id, s.frames[id].tenant, s.frames[id].slotHeld, true, reply)])
  }

  lemma ApplyShape(s: System, id: string, p: Progress)
    requires id in s.frames
    ensures Moved(s, Apply(s, id, p), id, p)
  {
  }

  lemma StepAdvances(s: System, e: Event)
    requires Enabled(s, e)
    ensures Advances(s, Step(s, e))
  {
    match e
    case Execute(id, intent, now) => AdmitShape(s, id, intent, now);
    case Resumed(id, o, now) => ApplyShape(s, id, Resume(s.frames[id], o, now));
    case _ =>
  }

  lemma {:induction false} RunAdvances(s: System, events: seq<Event>)
    requires AllEnabled(s, events)
    ensures Advances(s, Run(s, events))
    decreases |events|
  {
    if events != [] {
      StepAdvances(s, events[0]);
      RunAdvances(Step(s, events[0]), events[1..]);
      AdvancesTwice(s, Step(s, events[0]), Run(s, events));
    }
  }

  lemma AdvancesTwice(s: System, m: System, s': System)
    requires Advances(s, m) && Advances(m, s')
    ensures Advances(s, s')
  {
    assert s'.log[..|s.log|] == m.log[..|s.log|];
  }

  /** Shutdown: once draining or stopped, the runtime never runs again and no
      further execution reaches a collaborator. */
  lemma ShutdownIsFinal(s: System, events: seq<Event>)
    requires AllEnabled(s, events) && s.state != RUNNING
    ensures Run(s, events).state != RUNNING && s.state.Rank() <= Run(s, events).state.Rank()
    ensures Run(s, events).frames.Keys <= s.frames.Keys
  {
    RunAdvances(s, events);
  }

  /** Lock-out: a tenant whose unreturned slots reach its limit is refused by
      every later call, whatever happens in between. */
  lemma LockedOutForever(s: System, t: string, events: seq<Event>, id: string, intent: Intent, now: real)
    requires Reachable(s) && s.isolation.Some? && t in s.isolation.value.tenants
    requires Leaks(s.log, t) >= s.isolation.value.tenants[t].maxConcurrentExecutions
    requires AllEnabled(s, events)
    requires var s' := Run(s, events);
             s'.isolation.Some? && s'.context.Some? && s'.context.value.tenantId == t && id !in s'.frames
    ensures var s', maximum := Run(s, events), s.isolation.value.tenants[t].maxConcurrentExecutions;
            Admit(s', id, intent, now)
            == s'.Logged(Ended(id, Some(t), false, false,
                 Threw(Denied(ResourceLimitExceeded(t, s'.isolation.value.Count(t), maximum)))))
  {
    ReachableIsSafe(s);
    RunKeeps(s, events);
    RunAdvances(s, events);
    var s' := Run(s, events);
    LeaksGrow(s.log, s'.log, t);
    assert SlotOk(s'.isolation.value, s'.frames, s'.log, t, NOTHING);
  }

  /* ----- Conservation ----- */

  // Saves that returned to their execution during a run.
  function SavesResumed(s: System, events: seq<Event>): nat
    requires AllEnabled(s, events)
    decreases |events|
  {
    if events == [] then 0
    else
      var e := events[0];
      (if e.Resumed? && s.frames[e.id].stage.SaveStage? && e.outcome.Returned? then 1 else 0)
      + SavesResumed(Step(s, e), events[1..])
  }

  lemma AdmitSuccesses(s: System, s': System, id: string)
    requires Admitted(s, s', id)
    ensures Successes(s'.log) == Successes(s.log)
  {
    if s'.log != s.log {
      var e := s'.log[|s.log|];
      assert s'.log == s.log + [e];
      LogGrows(s.log, e);
    }
  }

  lemma ResumeSuccesses(s: System, id: string, o: Outcome, now: real)
    requires Inv(s) && id in s.frames && s.frames[id].stage.Admits(o)
    ensures Successes(ResumeStep(s, id, o, now).log)
         == Successes(s.log) + (if s.frames[id].stage.SaveStage? && o.Returned? then 1 else 0)
  {
    var f := s.frames[id];
    var p := Resume(f, o, now);
    assert FrameOk(s.isolation.Some?, s.quota.Some?, id, f);
    ResumeIsSound(f, o, now);
    ApplyShape(s, id, p);
    if p.Finished? {
      LogGrows(s.log, Ended(id, f.tenant, f.slotHeld, true, Replied(p.result)));
    }
  }

  lemma StepSuccesses(s: System, e: Event)
    requires Inv(s) && Enabled(s, e)
    ensures Successes(Step(s, e).log)
         == Successes(s.log)
            + (if e.Resumed? && s.frames[e.id].stage.SaveStage? && e.outcome.Returned? then 1 else 0)
  {
    match e
    case Execute(id, intent, now) =>
      AdmitShape(s, id, intent, now);
      AdmitSuccesses(s, Admit(s, id, intent, now), id);
    case Resumed(id, o, now) => ResumeSuccesses(s, id, o, now);
    case _ =>
  }

  lemma {:induction false} SuccessesAreSaves(s: System, events: seq<Event>)
    requires Inv(s) && AllEnabled(s, events)
    ensures Successes(Run(s, events).log) == Successes(s.log) + SavesResumed(s, events)
    decreases |events|
  {
    if events != [] {
      var e := events[0];
      StepKeeps(s, e);
      StepSuccesses(s, e);
      SuccessesAreSaves(Step(s, e), events[1..]);
    }
  }

  /** Conservation, in every reachable state: total = completed + failed + in
      flight, and completed = saves resumed = successful replies. */
  lemma Conservation(s0: System, events: seq<Event>)
    requires Initial(s0) && AllEnabled(s0, events) && s0.counters.Some?
    ensures var s := Run(s0, events);
            && s.counters.Some?
            && Get(s.counters.value, ExecutionsTotal)
               == Get(s.counters.value, ExecutionsCompleted) + Get(s.counters.value, ExecutionsFailed) + |s.frames|
            && Get(s.counters.value, ExecutionsCompleted) == SavesResumed(s0, events)
            && Get(s.counters.value, ExecutionsCompleted) == Successes(s.log)
  {
    InitialIsSafe(s0);
    RunKeeps(s0, events);
    SuccessesAreSaves(s0, events);
    RunAdvances(s0, events);
  }

  /** Every reply is consistent: success, COMPLETED and a checkpoint id hold
      together; inside the guarded body the state is terminal and nothing is
      thrown; outside it the state is CREATED. */
  lemma RepliesAreConsistent(s: System, i: nat)
    requires Reachable(s) && i < |s.log|
    ensures var e := s.log[i];
            && (e.guarded ==> e.reply.Replied? && e.reply.result.state.Terminal())
            && (e.reply.Replied? ==>
                  && e.reply.result.executionId == e.id
                  && (e.reply.result.success <==> e.reply.result.state == COMPLETED)
                  && (e.reply.result.success <==> e.reply.result.checkpointId.Some?)
                  && (!e.guarded ==> e.reply.result.state == CREATED))
  {
    ReachableIsSafe(s);
    assert EntryOk(s.log[i]);
  }

  /* ----- Each execution ----- */

  /** In every reachable state, resuming any suspended execution runs legally:
      no transition raises or falls back, no phase is missing, and if the body
      returns it does so in a terminal state with a closed trace. */
  lemma ExecutionsRunLegally(s: System, id: string, o: Outcome, now: real)
    requires Reachable(s) && id in s.frames && s.frames[id].stage.Admits(o)
    ensures var p := Resume(s.frames[id], o, now);
            && !p.Crashed?
            && LegalWalk(p.frame.walk) && s.frames[id].walk <= p.frame.walk
            && (p.Finished? ==> WellEnded(p.frame, p.result) && p.result.state == EndState(s.frames[id].stage, o))
            && (p.Waiting? ==> p.frame.trace.Some? ==> TraceMatches(p.frame.trace.value, p.frame.stage))
  {
    ReachableIsSafe(s);
    assert FrameOk(s.isolation.Some?, s.quota.Some?, id, s.frames[id]);
    ResumeIsSound(s.frames[id], o, now);
  }

  /** A closed trace has at most one failed entry, the last, and its summary
      says failure exactly when the execution failed. */
  lemma ClosedTraceSummary(t: Trace, success: bool)
    requires TraceClosed(t, success)
    ensures FailureCount(t.entries) == (if success then 0 else 1)
    ensures !t.entries[|t.entries| - 1].success <==> !success
    ensures t.Phases() <= PHASES
  {
    var n := |t.entries| - 1;
    forall e | e in t.entries[..n] ensures e.success {
      var i :| 0 <= i < n && t.entries[..n][i] == e;
    }
    NoFailureIffAllSucceed(t.entries[..n]);
  }

  function Resumptions(events: seq<Event>, id: string): nat {
    if events == [] then 0
    else (if events[0].Resumed? && events[0].id == id then 1 else 0) + Resumptions(events[1..], id)
  }

  // Resuming an execution moves it to the next stage or logs its terminal reply.
  lemma OwnResumption(s: System, id: string, o: Outcome, now: real)
    requires Inv(s) && id in s.frames && s.frames[id].stage.Admits(o)
    ensures var s' := ResumeStep(s, id, o, now);
            || (id in s'.frames && s'.frames[id].stage.Number() == s.frames[id].stage.Number() + 1 && s'.log == s.log)
            || (id !in s'.frames && |s'.log| == |s.log| + 1 && TerminalReply(s'.log[|s.log|], id))
  {
    assert FrameOk(s.isolation.Some?, s.quota.Some?, id, s.frames[id]);
    ResumeIsSound(s.frames[id], o, now);
    ApplyShape(s, id, Resume(s.frames[id], o, now));
  }

  // The execution has replied since the log had `from` entries.
  ghost predicate EndedSince(from: nat, log: seq<Ended>, id: string) {
    exists i :: from <= i < |log| && TerminalReply(log[i], id)
  }

  predicate TerminalReply(e: Ended, id: string) {
    e.id == id && e.guarded && e.reply.Replied? && e.reply.result.state.Terminal()
  }

  /** Progress: an admitted execution returns in a terminal state once its
      remaining awaits (five at most) have returned or raised, whatever the
      others do and whether or not the runtime is draining or stopped. */
  lemma {:induction false} AdmittedExecutionsFinish(s: System, events: seq<Event>, id: string)
    requires Inv(s) && AllEnabled(s, events) && id in s.frames
    requires Resumptions(events, id) >= 5 - s.frames[id].stage.Number()
    ensures EndedSince(|s.log|, Run(s, events).log, id)
    decreases |events|
  {
    var e, s' := events[0], Step(s, events[0]);
    StepKeeps(s, e);
    StepTowardsEnd(s, e, id);
    if id in s'.frames {
      AdmittedExecutionsFinish(s', events[1..], id);
      assert EndedSince(|s'.log|, Run(s', events[1..]).log, id);
    } else {
      RunAdvances(s', events[1..]);
      var final := Run(s', events[1..]);
      assert final.log[|s.log|] == s'.log[|s.log|];
    }
  }

  lemma StepTowardsEnd(s: System, e: Event, id: string)
    requires Inv(s) && Enabled(s, e) && id in s.frames
    ensures var s', own := Step(s, e), if e.Resumed? && e.id == id then 1 else 0;
            && |s.log| <= |s'.log|
            && (if id in s'.frames then s'.frames[id].stage.Number() == s.frames[id].stage.Number() + own
                else |s'.log| == |s.log| + 1 && TerminalReply(s'.log[|s.log|], id))
  {
    if e.Resumed? && e.id == id {
      OwnResumption(s, id, e.outcome, e.now);
    } else {
      OthersStay(s, e, id);
    }
  }

  lemma OthersStay(s: System, e: Event, id: string)
    requires Enabled(s, e) && id in s.frames && !(e.Resumed? && e.id == id)
    ensures id in Step(s, e).frames && Step(s, e).frames[id] == s.frames[id]
    ensures |s.log| <= |Step(s, e).log|
  {
    match e
    case Execute(other, intent, now) => AdmitShape(s, other, intent, now);
    case Resumed(other, o, now) => ApplyShape(s, other, Resume(s.frames[other], o, now));
    case _ =>
  }
}
