/** The runtime object (kernel/runtime.py). Each method is one atomic stretch of
    code; suspended executions wait in `frames` until Resume is called. */
module Runtime {
  import opened Wrappers
  import opened ExecutionStates
  import opened Metrics
  import opened Isolation
  import opened GuardedExecution
  import opened RuntimeSystem
  import B = BucketArithmetic
  import Q = Quotas

  class KitematicRuntime {
    const isolation: IsolationBoundary?
    const quotaManager: Q.QuotaManager?
    const metrics: MetricsRegistry?
    const traced: bool
    var state: RuntimeState
    var tenantContext: Option<TenantContext>
    var frames: map<string, Frame>
    ghost var log: seq<Ended>

    ghost function Limiter(): set<object> {
      if quotaManager == null then {} else {quotaManager.rateLimiter}
    }

    ghost function Buckets(): set<object>
      reads Limiter()
    {
      if quotaManager == null then {} else quotaManager.rateLimiter.buckets.Values
    }

    ghost predicate Valid()
      reads quotaManager, Limiter(), Buckets()
    {
      quotaManager != null ==> quotaManager.Valid()
    }

    ghost function View(): System
      reads this, isolation, quotaManager, metrics, Limiter(), Buckets()
    {
      System(
        if isolation == null then None else Some(isolation.View()),
        if quotaManager == null then None else Some(quotaManager.View()),
        if metrics == null then None else Some(metrics.counters),
        traced, state, tenantContext, frames, log)
    }

    // No reply while the execution is suspended, else the one just logged.
    ghost predicate Answered(id: string, reply: Option<RuntimeSystem.Reply>)
      reads this
    {
      if id in frames then reply.None? else log != [] && reply == Some(log[|log| - 1].reply)
    }

    constructor (isolation: IsolationBoundary?, quotaManager: Q.QuotaManager?, metrics: MetricsRegistry?, traced: bool)
      requires quotaManager != null ==> quotaManager.Valid()
      ensures Valid()
      ensures this.isolation == isolation && this.quotaManager == quotaManager
      ensures this.metrics == metrics && this.traced == traced
      ensures state == RUNNING && tenantContext == None && frames == map[] && log == []
    {
      this.isolation, this.quotaManager, this.metrics, this.traced := isolation, quotaManager, metrics, traced;
      state, tenantContext, frames, log := RUNNING, None, map[], [];
    }

    method Increment(m: Metric)
      requires Valid()
      modifies metrics
      ensures Valid() && View() == old(View()).Counted(m)
      ensures Buckets() == old(Buckets())
    {
      if metrics != null {
        metrics.Increment(m);
      }
    }

    method SetTenantContext(c: TenantContext) returns (e: Option<IsolationError>)
      requires Valid()
      modifies this
      ensures Valid() && View() == Contextualised(old(View()), c)
      ensures tenantContext == if e.None? then Some(c) else old(tenantContext)
      ensures e.None? <==> c.tenantId != "" && c.agentId != ""
                           && (isolation != null ==> isolation.View().CheckContext(c).None?)
    {
      if !c.IsValid() {
        return Some(MissingTenantContext);
      }
      if isolation != null {
        e := isolation.ValidateTenantContext(c);
        if e.Some? {
          return;
        }
      }
      tenantContext := Some(c);
      e := None;
    }

    method Drain()
      requires Valid()
      modifies this
      ensures Valid() && View() == Step(old(View()), Event.Drain)
      ensures state == if old(state) == RUNNING then DRAINING else old(state)
      ensures frames == old(frames) && tenantContext == old(tenantContext) && log == old(log)
    {
      if state != RUNNING {
        return;
      }
      state := DRAINING;
    }

    method Stop()
      requires Valid()
      modifies this, metrics
      ensures Valid() && View() == Step(old(View()), Event.Stop)
      ensures state == STOPPED
      ensures frames == old(frames) && tenantContext == old(tenantContext) && log == old(log)
      ensures metrics != null ==>
                Get(metrics.counters, ShutdownCount)
                == Get(old(metrics.counters), ShutdownCount) + (if old(state) == STOPPED then 0 else 1)
    {
      if state == STOPPED {
        return;
      }
      state := STOPPED;
      Increment(ShutdownCount);
    }

    // Records the reply of a call that ended without entering the guarded body.
    method Reply(id: string, tenant: Option<string>, slot: bool, r: RuntimeSystem.Reply)
      returns (reply: Option<RuntimeSystem.Reply>)
      requires Valid()
      modifies this
      ensures Valid() && View() == old(View()).Logged(Ended(id, tenant, slot, false, r))
      ensures id !in old(frames) ==> Answered(id, reply)
      ensures Buckets() == old(Buckets())
    {
      log := log + [Ended(id, tenant, slot, false, r)];
      reply := Some(r);
    }

    method Refuse(id: string, tenant: Option<string>, slot: bool, message: string)
      returns (reply: Option<RuntimeSystem.Reply>)
      requires Valid()
      modifies this
      ensures Valid() && View() == old(View()).Rejected(id, tenant, slot, message)
      ensures id !in old(frames) ==> Answered(id, reply)
      ensures Buckets() == old(Buckets())
    {
      reply := Reply(id, tenant, slot, Replied(ExecutionResult(false, id, None, "", Some(message), CREATED)));
    }

    method RefuseCounted(m: Metric, id: string, tenant: Option<string>, message: string)
      returns (reply: Option<RuntimeSystem.Reply>)
      requires Valid()
      modifies this, metrics
      ensures Valid() && View() == old(View()).Counted(m).Rejected(id, tenant, isolation != null, message)
      ensures id !in old(frames) ==> Answered(id, reply)
      ensures Buckets() == old(Buckets())
    {
      Increment(m);
      reply := Refuse(id, tenant, isolation != null, message);
    }

    method ReleaseQuota(tenant: Option<string>, id: string, held: bool)
      requires Valid()
      modifies quotaManager
      ensures Valid() && View() == Release(old(View()), tenant, id, held)
      ensures Buckets() == old(Buckets())
    {
      if held && quotaManager != null && tenant.Some? {
        quotaManager.EndExecution(tenant.value, id);
      }
    }

    method TakeSlot(tenant: string) returns (e: Option<IsolationError>)
      requires Valid() && isolation != null
      modifies isolation
      ensures Valid() && Buckets() == old(Buckets())
      ensures e == old(isolation.View()).CheckLimits(tenant)
      ensures e.Some? ==> View() == old(View())
      ensures e.None? ==> View() == old(View()).(isolation := Some(old(isolation.View()).Started(tenant)))
    {
      e := isolation.CheckResourceLimits(tenant);
      if e.None? {
        isolation.StartExecution(tenant);
      }
    }

    method ReturnIsolationSlot(tenant: Option<string>, final: ExecutionState)
      requires Valid()
      modifies isolation
      ensures Valid() && View() == ReturnSlot(old(View()), tenant, final)
      ensures Buckets() == old(Buckets())
    {
      if final == COMPLETED && isolation != null && tenant.Some? {
        isolation.EndExecution(tenant.value);
      }
    }

    method CountRun(extra: Option<Metric>, success: bool)
      requires Valid()
      modifies metrics
      ensures Valid() && View() == old(View()).CountedEnd(extra, success)
      ensures Buckets() == old(Buckets())
    {
      if extra.Some? {
        Increment(extra.value);
      }
      Increment(if success then ExecutionsCompleted else ExecutionsFailed);
    }

    // A rate check: granted, or refused with the wait that is reported.
    method CheckRate(tenant: string, now: real) returns (granted: bool, wait: Option<real>)
      requires Valid() && quotaManager != null
      modifies Limiter(), Buckets()
      ensures Valid() && fresh(Buckets() - old(Buckets()))
      ensures var q, call := old(quotaManager.View()), B.Consume(now, 1.0);
              && granted == B.Grants(q.rate, Lookup(q.levels, tenant), call)
              && (granted ==> View() == old(View()).(quota := Some(q.Touched(tenant, call))))
              && (!granted ==>
                    && View() == old(View()).(quota := Some(q.Touched(tenant, call).Touched(tenant, B.RetryAfter(now))))
                    && wait == B.RetryAnswer(q.rate,
                         B.Access(q.rate, Lookup(q.Touched(tenant, call).levels, tenant), now)))
    {
      wait := None;
      granted := quotaManager.CheckAndConsumeRate(tenant, now);
      if !granted {
        wait := quotaManager.RetryAfter(tenant, now);
      }
    }

    method HoldQuota(tenant: string, id: string)
      requires Valid() && quotaManager != null
      modifies quotaManager
      ensures Valid() && Buckets() == old(Buckets())
      ensures View() == old(View()).(quota := Some(old(quotaManager.View()).Started(tenant, id)))
    {
      quotaManager.StartExecution(tenant, id);
    }

    /** Admission: everything before the first await, for a fresh id. No reply
        means that the execution is suspended in its guarded body. */
    method ExecuteIntent(id: string, intent: Intent, now: real) returns (reply: Option<RuntimeSystem.Reply>)
      requires Valid() && id !in frames
      modifies this, isolation, quotaManager, metrics, Limiter(), Buckets()
      ensures Valid() && fresh(Buckets() - old(Buckets()))
      ensures View() == Admit(old(View()), id, intent, now)
      ensures Answered(id, reply)
    {
      var tenant := if tenantContext.Some? then Some(tenantContext.value.tenantId) else None;
      if isolation != null && tenant.None? {
        reply := Refuse(id, None, false, "No tenant context - execution denied");
        return;
      }
      if tenant.Some? && isolation != null {
        var limit := TakeSlot(tenant.value);
        if limit.Some? {
          reply := Reply(id, tenant, false, Threw(Denied(limit.value)));
          return;
        }
      }
      reply := AdmitWithQuota(id, intent, tenant, now);
    }

    method AdmitWithQuota(id: string, intent: Intent, tenant: Option<string>, now: real)
      returns (reply: Option<RuntimeSystem.Reply>)
      requires Valid() && id !in frames
      modifies this, quotaManager, metrics, Limiter(), Buckets()
      ensures Valid() && fresh(Buckets() - old(Buckets()))
      ensures View() == AdmitQuota(old(View()), id, intent, tenant, now)
      ensures Answered(id, reply)
    {
      if quotaManager == null || tenant.None? || tenant.value == "" {
        assert AdmitQuota(View(), id, intent, tenant, now) == Begin(View(), id, intent, tenant, false, now);
        reply := BeginExecution(id, intent, tenant, false, now);
        return;
      }
      var room := quotaManager.CheckConcurrent(tenant.value);
      assert room == View().quota.value.HasRoom(tenant.value);
      if !room {
        assert AdmitQuota(View(), id, intent, tenant, now)
            == View().Counted(QuotaExceeded).Rejected(id, tenant, isolation != null,
                 "Concurrent execution limit exceeded for tenant " + tenant.value);
        reply := RefuseCounted(QuotaExceeded, id, tenant,
                               "Concurrent execution limit exceeded for tenant " + tenant.value);
        return;
      }
      assert AdmitQuota(View(), id, intent, tenant, now) == AdmitAtRate(View(), id, intent, tenant.value, now);
      reply := AdmitAtRateOf(id, intent, tenant.value, now);
    }

    method AdmitAtRateOf(id: string, intent: Intent, tenant: string, now: real)
      returns (reply: Option<RuntimeSystem.Reply>)
      requires Valid() && id !in frames && quotaManager != null
      modifies this, quotaManager, metrics, Limiter(), Buckets()
      ensures Valid() && fresh(Buckets() - old(Buckets()))
      ensures View() == AdmitAtRate(old(View()), id, intent, tenant, now)
      ensures Answered(id, reply)
    {
      var granted, wait := CheckRate(tenant, now);
      if granted {
        HoldQuota(tenant, id);
        reply := BeginExecution(id, intent, Some(tenant), true, now);
      } else if wait.None? {
        reply := Reply(id, Some(tenant), isolation != null, Threw(ZeroDivision));
      } else {
        reply := RefuseCounted(RateLimitHit, id, Some(tenant), "Rate limit exceeded for tenant " + tenant);
      }
    }

    method BeginExecution(id: string, intent: Intent, tenant: Option<string>, acquired: bool, now: real)
      returns (reply: Option<RuntimeSystem.Reply>)
      requires Valid() && id !in frames
      modifies this, quotaManager, metrics
      ensures Valid() && Buckets() == old(Buckets())
      ensures View() == Begin(old(View()), id, intent, tenant, acquired, now)
      ensures Answered(id, reply)
    {
      if state == DRAINING || state == STOPPED {
        var message := if state == DRAINING then "Runtime is draining" else "Runtime is stopped";
        ReleaseQuota(tenant, id, acquired);
        reply := RefuseCounted(ExecutionsRejected, id, tenant, message);
        return;
      }
      Increment(ExecutionsTotal);
      frames := frames[id := Start(id, intent, tenant, isolation != null, acquired, traced, now)];
      reply := None;
    }

    // The coroutine is over.
    method Leave(id: string, ghost e: Ended)
      requires Valid()
      modifies this
      ensures Valid() && Buckets() == old(Buckets())
      ensures View() == old(View()).(frames := old(frames) - {id}).Logged(e)
    {
      frames := frames - {id};
      log := log + [e];
    }

    /** The stretch that runs when what an execution awaits returns or raises. */
    method ResumeExecution(id: string, o: Outcome, now: real)
      requires Valid() && id in frames && frames[id].stage.Admits(o)
      modifies this, isolation, quotaManager, metrics
      ensures Valid() && Buckets() == old(Buckets())
      ensures View() == ResumeStep(old(View()), id, o, now)
    {
      Continue(id, Resume(frames[id], o, now));
    }

    method Continue(id: string, p: Progress)
      requires Valid() && id in frames
      modifies this, isolation, quotaManager, metrics
      ensures Valid() && Buckets() == old(Buckets())
      ensures View() == Apply(old(View()), id, p)
    {
      var f := frames[id];
      match p
      case Waiting(g) =>
        frames := frames[id := g];
      case Crashed =>
        Leave(id, Ended(id, f.tenant, f.slotHeld, true, Threw(InvalidState)));
      case Finished(_, result, extra) =>
        Conclude(id, f, result, extra);
    }

    // The body returned: its own effects, the quota release, the reply.
    method Conclude(id: string, f: Frame, result: ExecutionResult, extra: Option<Metric>)
      requires Valid() && id in frames && frames[id] == f
      modifies this, isolation, quotaManager, metrics
      ensures Valid() && Buckets() == old(Buckets())
      ensures View() == Apply(old(View()), id, Finished(f, result, extra))
    {
      ReturnIsolationSlot(f.tenant, result.state);
      CountRun(extra, result.success);
      ReleaseQuota(f.tenant, id, f.quotaHeld);
      Leave(id, Ended(id, f.tenant, f.slotHeld, true, Replied(result)));
    }
  }
}
