/** What a caller of execute_intent is told when it is not let in, and what an
    admitted execution starts with: the conditions in the order of the code,
    written on the state itself. */
module AdmissionReplies {
  import opened Wrappers
  import opened ExecutionStates
  import opened Metrics
  import opened Isolation
  import opened GuardedExecution
  import opened RuntimeSystem
  import B = BucketArithmetic

  // A refusal: the tenant it is logged under, whether a slot is kept, the reply
  // and the counter that grows.
  datatype Refusal = Refusal(tenant: Option<string>, slot: bool, reply: Reply, metric: Option<Metric>)
  {
    predicate Successful() { reply.Replied? && reply.result.success }
  }

  function Text(id: string, message: string): Reply {
    Replied(ExecutionResult(false, id, None, "", Some(message), CREATED))
  }

  // The last condition: the runtime has to be RUNNING.
  function ShutdownRefusal(s: System, id: string, tenant: Option<string>): (r: Option<Refusal>)
    ensures s.state != RUNNING ==> r.Some?
    ensures r.Some? ==> !r.value.Successful()
  {
    match s.state
    case RUNNING => None
    case DRAINING =>
      Some(Refusal(tenant, s.isolation.Some?, Text(id, "Runtime is draining"), Some(ExecutionsRejected)))
    case STOPPED =>
      Some(Refusal(tenant, s.isolation.Some?, Text(id, "Runtime is stopped"), Some(ExecutionsRejected)))
  }

  // Before it: a token, and room among the tenant's active executions.
  function RateRefusal(s: System, id: string, t: string, now: real): (r: Option<Refusal>)
    requires s.quota.Some?
    ensures s.state != RUNNING ==> r.Some?
    ensures r.Some? ==> !r.value.Successful()
  {
    var q := s.quota.value;
    if B.Grants(q.rate, Lookup(q.levels, t), B.Consume(now, 1.0)) then ShutdownRefusal(s, id, Some(t))
    else if q.rate.refillRate == 0.0 then Some(Refusal(Some(t), s.isolation.Some?, Threw(ZeroDivision), None))
    else
      Some(Refusal(Some(t), s.isolation.Some?, Text(id, "Rate limit exceeded for tenant " + t), Some(RateLimitHit)))
  }

  function QuotaRefusal(s: System, id: string, tenant: Option<string>, now: real): (r: Option<Refusal>)
    ensures s.state != RUNNING ==> r.Some?
    ensures r.Some? ==> !r.value.Successful()
  {
    if s.quota.None? || tenant.None? then ShutdownRefusal(s, id, tenant)
    else
      var q, t := s.quota.value, tenant.value;
      var active := if t in q.active then |q.active[t]| else 0;
      if active >= (if t in q.configs then q.configs[t].maxConcurrent else 5) then
        Some(Refusal(Some(t), s.isolation.Some?,
                     Text(id, "Concurrent execution limit exceeded for tenant " + t), Some(QuotaExceeded)))
      else RateRefusal(s, id, t, now)
  }

  // First of all, where there is a boundary: a context, a known tenant, a free slot.
  function RefusalOf(s: System, id: string, now: real): (r: Option<Refusal>)
    ensures s.state != RUNNING ==> r.Some?
    ensures r.Some? ==> !r.value.Successful()
  {
    var tenant := if s.context.Some? then Some(s.context.value.tenantId) else None;
    if s.isolation.None? then QuotaRefusal(s, id, tenant, now)
    else if tenant.None? then Some(Refusal(None, false, Text(id, "No tenant context - execution denied"), None))
    else
      var b, t := s.isolation.value, tenant.value;
      var count := if t in b.counts then b.counts[t] else 0;
      if t !in b.tenants then Some(Refusal(tenant, false, Threw(Denied(TenantNotFound(t))), None))
      else if count >= b.tenants[t].maxConcurrentExecutions then
        Some(Refusal(tenant, false,
                     Threw(Denied(ResourceLimitExceeded(t, count, b.tenants[t].maxConcurrentExecutions))), None))
      else QuotaRefusal(s, id, tenant, now)
  }

  // One counter, if any, has grown by one.
  ghost predicate CountedAs(c: Option<Counters>, c': Option<Counters>, m: Option<Metric>) {
    && c.Some? == c'.Some?
    && (c.Some? ==> c'.value == if m.Some? then c.value[m.value := Get(c.value, m.value) + 1] else c.value)
  }

  ghost predicate RefusedAs(s: System, s': System, id: string, r: Refusal) {
    && s'.frames == s.frames && s'.log == s.log + [Ended(id, r.tenant, r.slot, false, r.reply)]
    && CountedAs(s.counters, s'.counters, r.metric)
  }

  // The execution waits for the policy, under the tenant of the context it found.
  ghost predicate EnteredAs(s: System, s': System, id: string, intent: Intent, tenant: Option<string>, held: bool) {
    && s'.log == s.log && id in s'.frames && s'.frames == s.frames[id := s'.frames[id]]
    && CountedAs(s.counters, s'.counters, Some(ExecutionsTotal))
    && var f := s'.frames[id];
       && f.id == id && f.intent == intent && f.tenant == tenant && f.toolData == ""
       && f.slotHeld == s.isolation.Some? && f.quotaHeld == held
       && f.stage == PolicyStage && f.state == VALIDATING && f.walk == [CREATED, VALIDATING]
  }

  ghost predicate Outcome(s: System, s': System, id: string, intent: Intent, tenant: Option<string>, held: bool,
                          r: Option<Refusal>)
  {
    if r.Some? then RefusedAs(s, s', id, r.value) else EnteredAs(s, s', id, intent, tenant, held)
  }

  // The parts of the state that decide what follows are the same.
  ghost predicate Alike(s: System, s': System) {
    s'.isolation.Some? == s.isolation.Some? && s'.state == s.state && s'.counters == s.counters
    && s'.frames == s.frames && s'.log == s.log
  }

  lemma BeginOutcome(s: System, s0: System, id: string, intent: Intent, tenant: Option<string>, held: bool, now: real)
    requires Alike(s0, s)
    ensures Outcome(s0, Begin(s, id, intent, tenant, held, now), id, intent, tenant, held,
                    ShutdownRefusal(s0, id, tenant))
  {
  }

  lemma AtRateOutcome(s: System, s0: System, id: string, intent: Intent, t: string, now: real)
    requires Alike(s0, s) && s.quota.Some? && s0.quota == s.quota
    ensures Outcome(s0, AdmitAtRate(s, id, intent, t, now), id, intent, Some(t), true, RateRefusal(s0, id, t, now))
  {
    var q, call := s.quota.value, B.Consume(now, 1.0);
    var touched := q.Touched(t, call);
    if B.Grants(q.rate, Lookup(q.levels, t), call) {
      BeginOutcome(s.(quota := Some(touched.Started(t, id))), s0, id, intent, Some(t), true, now);
    } else {
      RefusedWait(q.rate, Lookup(q.levels, t), now);
    }
  }

  // Asked again at the same moment, a refused bucket is as short as it was.
  lemma RefusedWait(c: B.Config, bucket: Option<B.Level>, now: real)
    requires !B.Grants(c, bucket, B.Consume(now, 1.0))
    ensures B.RetryAnswer(c, B.Access(c, Some(B.After(c, bucket, B.Consume(now, 1.0))), now)).None?
       <==> c.refillRate == 0.0
  {
    assert B.Accrued(c, now, now) == 0.0;
  }

  lemma QuotaOutcome(s: System, s0: System, id: string, intent: Intent, tenant: Option<string>, now: real)
    requires Alike(s0, s) && s0.quota == s.quota && (tenant.Some? ==> tenant.value != "")
    ensures Outcome(s0, AdmitQuota(s, id, intent, tenant, now), id, intent, tenant,
                    s0.quota.Some? && tenant.Some?, QuotaRefusal(s0, id, tenant, now))
  {
    if s.quota.None? || tenant.None? {
      BeginOutcome(s, s0, id, intent, tenant, false, now);
    } else if s.quota.value.HasRoom(tenant.value) {
      AtRateOutcome(s, s0, id, intent, tenant.value, now);
    }
  }

  /** The whole of admission: what the first condition that fails replies, counts and
      logs, and otherwise an execution that waits for the policy. */
  lemma AdmissionOutcome(s: System, id: string, intent: Intent, now: real)
    requires ContextOk(s.context, s.isolation)
    ensures Outcome(s, Admit(s, id, intent, now), id, intent,
                    if s.context.Some? then Some(s.context.value.tenantId) else None,
                    s.quota.Some? && s.context.Some?, RefusalOf(s, id, now))
  {
    var tenant := if s.context.Some? then Some(s.context.value.tenantId) else None;
    if s.isolation.None? {
      QuotaOutcome(s, s, id, intent, tenant, now);
    } else if tenant.Some? {
      QuotaOutcome(s.(isolation := Some(s.isolation.value.Started(tenant.value))), s, id, intent, tenant, now);
    }
  }

  // All that happened is one unsuccessful reply from outside the guarded body.
  ghost predicate OnlyRefused(s: System, s': System) {
    && s'.frames == s.frames && |s'.log| == |s.log| + 1 && s'.log[..|s.log|] == s.log
    && !s'.log[|s.log|].guarded && !s'.log[|s.log|].Succeeded()
  }

  /** So a runtime that is not RUNNING lets nothing in and reports no success. */
  lemma NotRunningRefuses(s: System, id: string, intent: Intent, now: real)
    requires ContextOk(s.context, s.isolation) && s.state != RUNNING
    ensures OnlyRefused(s, Admit(s, id, intent, now))
  {
    AdmissionOutcome(s, id, intent, now);
  }
}
