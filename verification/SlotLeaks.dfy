/** Which calls lose an isolation slot for ever, read off the guards of the
    branches they take. */
module SlotLeaks {
  import opened Wrappers
  import opened ExecutionStates
  import opened Metrics
  import opened GuardedExecution
  import opened RuntimeSystem
  import opened RuntimeSafety
  import B = BucketArithmetic

  // A call that holds a slot is turned away: by the quota, the rate or the shutdown.
  predicate TurnedAway(s: System, t: string, now: real) {
    || s.state != RUNNING
    || (s.quota.Some?
        && (|| !s.quota.value.HasRoom(t)
            || !B.Grants(s.quota.value.rate, Lookup(s.quota.value.levels, t), B.Consume(now, 1.0))))
  }

  // The step loses a slot of the tenant: an admission that passes the limit check
  // and is then turned away, or an execution in flight whose collaborator refuses
  // or raises.
  predicate Loses(s: System, e: Event, t: string) {
    && s.isolation.Some?
    && match e
       case Execute(_, _, now) =>
         && s.context.Some? && s.context.value.tenantId == t
         && s.isolation.value.CheckLimits(t).None? && TurnedAway(s, t, now)
       case Resumed(id, o, _) => id in s.frames && s.frames[id].tenant == Some(t) && !o.Returned?
       case _ => false
  }

  // One more loss of the tenant, if `lost`, and no other change.
  ghost predicate LossIs(s: System, s': System, t: string, lost: bool) {
    Leaks(s'.log, t) == Leaks(s.log, t) + (if lost then 1 else 0)
  }

  lemma LoggedLoss(s: System, s': System, e: Ended, t: string)
    requires s'.log == s.log
    ensures LossIs(s, s'.Logged(e), t, e.Owes(t))
  {
    LogGrows(s.log, e);
  }

  lemma RejectedLoss(s: System, s': System, id: string, tenant: Option<string>, slot: bool, message: string, t: string)
    requires s'.log == s.log
    ensures LossIs(s, s'.Rejected(id, tenant, slot, message), t, slot && tenant == Some(t))
  {
    LoggedLoss(s, s', Ended(id, tenant, slot, false,
      Replied(ExecutionResult(false, id, None, "", Some(message), CREATED))), t);
  }

  lemma BeginLoss(s: System, id: string, intent: Intent, tenant: Option<string>, held: bool, now: real, t: string)
    ensures LossIs(s, Begin(s, id, intent, tenant, held, now), t,
                   s.isolation.Some? && tenant == Some(t) && s.state != RUNNING)
  {
    if s.state != RUNNING {
      RejectedLoss(s, Release(s, tenant, id, held).Counted(ExecutionsRejected), id, tenant, s.isolation.Some?,
                   if s.state == DRAINING then "Runtime is draining" else "Runtime is stopped", t);
    }
  }

  lemma AtRateLoss(s: System, id: string, intent: Intent, u: string, now: real, t: string)
    requires s.quota.Some? && s.quota.value.HasRoom(u)
    ensures LossIs(s, AdmitAtRate(s, id, intent, u, now), t, s.isolation.Some? && u == t && TurnedAway(s, u, now))
  {
    var q, call, slot := s.quota.value, B.Consume(now, 1.0), s.isolation.Some?;
    var touched := q.Touched(u, call);
    if B.Grants(q.rate, Lookup(q.levels, u), call) {
      BeginLoss(s.(quota := Some(touched.Started(u, id))), id, intent, Some(u), true, now, t);
    } else {
      var s' := s.(quota := Some(touched.Touched(u, B.RetryAfter(now))));
      LoggedLoss(s, s', Ended(id, Some(u), slot, false, Threw(ZeroDivision)), t);
      RejectedLoss(s, s'.Counted(RateLimitHit), id, Some(u), slot, "Rate limit exceeded for tenant " + u, t);
    }
  }

  lemma QuotaLoss(s: System, id: string, intent: Intent, u: string, now: real, t: string)
    requires u != ""
    ensures LossIs(s, AdmitQuota(s, id, intent, Some(u), now), t, s.isolation.Some? && u == t && TurnedAway(s, u, now))
  {
    if s.quota.None? {
      BeginLoss(s, id, intent, Some(u), false, now, t);
    } else if !s.quota.value.HasRoom(u) {
      RejectedLoss(s, s.Counted(QuotaExceeded), id, Some(u), s.isolation.Some?,
                   "Concurrent execution limit exceeded for tenant " + u, t);
    } else {
      AtRateLoss(s, id, intent, u, now, t);
    }
  }

  // Without a tenant no slot is taken.
  lemma NoTenantLoss(s: System, id: string, intent: Intent, now: real, t: string)
    requires s.context.None? || s.isolation.None?
    requires s.context.Some? ==> s.context.value.tenantId != ""
    ensures LossIs(s, Admit(s, id, intent, now), t, false)
  {
    if s.isolation.Some? {
      RejectedLoss(s, s, id, None, false, "No tenant context - execution denied", t);
    } else if s.context.None? {
      BeginLoss(s, id, intent, None, false, now, t);
    } else {
      QuotaLoss(s, id, intent, s.context.value.tenantId, now, t);
    }
  }

  lemma AdmitLoss(s: System, e: Event, t: string)
    requires e.Execute? && ContextOk(s.context, s.isolation)
    ensures LossIs(s, Admit(s, e.id, e.intent, e.now), t, Loses(s, e, t))
  {
    if s.context.None? || s.isolation.None? {
      NoTenantLoss(s, e.id, e.intent, e.now, t);
    } else {
      var u := s.context.value.tenantId;
      var limit := s.isolation.value.CheckLimits(u);
      if limit.Some? {
        LoggedLoss(s, s, Ended(e.id, Some(u), false, false, Threw(Denied(limit.value))), t);
      } else {
        var taken := s.(isolation := Some(s.isolation.value.Started(u)));
        QuotaLoss(taken, e.id, e.intent, u, e.now, t);
      }
    }
  }

  lemma ReturnedGoesOn(f: Frame, o: Outcome, now: real)
    requires Sound(f) && f.stage.Admits(o)
    ensures Resume(f, o, now).Waiting? <==> o.Returned? && !f.stage.SaveStage?
    ensures Resume(f, o, now).Finished? ==> (Resume(f, o, now).result.state == COMPLETED <==> o.Returned?)
  {
    ResumeIsSound(f, o, now);
  }

  lemma ResumeLoss(s: System, e: Event, t: string)
    requires Inv(s) && e.Resumed? && Enabled(s, e)
    ensures LossIs(s, ResumeStep(s, e.id, e.outcome, e.now), t, Loses(s, e, t))
  {
    var f := s.frames[e.id];
    assert FrameOk(s.isolation.Some?, s.quota.Some?, e.id, f);
    var p := Resume(f, e.outcome, e.now);
    ReturnedGoesOn(f, e.outcome, e.now);
    ResumeIsSound(f, e.outcome, e.now);
    ApplyShape(s, e.id, p);
    if p.Finished? {
      LogGrows(s.log, Ended(e.id, f.tenant, f.slotHeld, true, Replied(p.result)));
    }
  }

  /** The guard is exact: a step loses a slot of a tenant, one and for ever, if
      and only if it satisfies it. */
  lemma StepLoses(s: System, e: Event, t: string)
    requires Inv(s) && Enabled(s, e)
    ensures Leaks(Step(s, e).log, t) == Leaks(s.log, t) + (if Loses(s, e, t) then 1 else 0)
  {
    match e
    case Execute(_, _, _) => AdmitLoss(s, e, t);
    case Resumed(_, _, _) => ResumeLoss(s, e, t);
    case _ =>
  }

  // The steps of a run that lose a slot of the tenant.
  function LostSlots(s: System, events: seq<Event>, t: string): nat
    requires AllEnabled(s, events)
    decreases |events|
  {
    if events == [] then 0
    else (if Loses(s, events[0], t) then 1 else 0) + LostSlots(Step(s, events[0]), events[1..], t)
  }

  lemma {:induction false} RunLoses(s: System, events: seq<Event>, t: string)
    requires Inv(s) && AllEnabled(s, events)
    ensures Leaks(Run(s, events).log, t) == Leaks(s.log, t) + LostSlots(s, events, t)
    decreases |events|
  {
    if events != [] {
      StepKeeps(s, events[0]);
      StepLoses(s, events[0], t);
      RunLoses(Step(s, events[0]), events[1..], t);
    }
  }

  /** Over whole runs the boundary's count is the executions in flight plus the
      steps that satisfied the guard; the two agree exactly when none did. */
  lemma CountIsInFlightPlusLost(s0: System, events: seq<Event>, t: string)
    requires Initial(s0) && AllEnabled(s0, events) && s0.isolation.Some?
    ensures var s := Run(s0, events);
            s.isolation.Some? && s.isolation.value.Count(t) == |SlotHolders(s.frames, t)| + LostSlots(s0, events, t)
  {
    InitialIsSafe(s0);
    RunKeeps(s0, events);
    RunAdvances(s0, events);
    RunLoses(s0, events, t);
    var s := Run(s0, events);
    assert SlotOk(s.isolation.value, s.frames, s.log, t, NOTHING);
  }
}
