/** Admission over whole runs: the runtime's steps and the token buckets joined. */
module AdmissionControl {
  import opened Wrappers
  import opened ExecutionStates
  import opened Isolation
  import opened GuardedExecution
  import opened RuntimeSystem
  import opened RuntimeSafety
  import AdmissionReplies
  import B = BucketArithmetic
  import Q = Quotas

  // The tenant whose bucket an admission touches, if it gets that far.
  function RateChecked(s: System, e: Event): Option<string> {
    if !e.Execute? || s.context.None? || s.quota.None? then None
    else
      var t := s.context.value.tenantId;
      if t == "" || (s.isolation.Some? && s.isolation.value.CheckLimits(t).Some?) || !s.quota.value.HasRoom(t) then None
      else Some(t)
  }

  // The calls on the rate limiter that a step makes: a request for one token
  // and, when it is refused, a question about the wait.
  function RateCalls(s: System, e: Event): seq<Q.Request> {
    var t := RateChecked(s, e);
    if t.None? || s.quota.None? || !e.Execute? then []
    else
      var q, call := s.quota.value, B.Consume(e.now, 1.0);
      [Q.Request(t.value, Q.Touch(call))]
      + (if B.Grants(q.rate, Lookup(q.levels, t.value), call) then []
         else [Q.Request(t.value, Q.Touch(B.RetryAfter(e.now)))])
  }

  function RateLog(s: System, events: seq<Event>): seq<Q.Request>
    requires AllEnabled(s, events)
    decreases |events|
  {
    if events == [] then [] else RateCalls(s, events[0]) + RateLog(Step(s, events[0]), events[1..])
  }

  // The limiter's levels after more calls.
  function LevelsAfter(c: B.Config, levels: Q.Levels, log: seq<Q.Request>): Q.Levels
    decreases |log|
  {
    if log == [] then levels else LevelsAfter(c, Q.LimiterStep(c, levels, log[0]), log[1..])
  }

  lemma {:induction false} LevelsAfterSplits(c: B.Config, levels: Q.Levels, first: seq<Q.Request>, rest: seq<Q.Request>)
    ensures LevelsAfter(c, levels, first + rest) == LevelsAfter(c, LevelsAfter(c, levels, first), rest)
    decreases |first|
  {
    if first == [] {
      assert first + rest == rest;
    } else {
      assert (first + rest)[1..] == first[1..] + rest;
      LevelsAfterSplits(c, Q.LimiterStep(c, levels, first[0]), first[1..], rest);
    }
  }

  lemma {:induction false} LevelsAreLimiterRun(c: B.Config, log: seq<Q.Request>)
    ensures LevelsAfter(c, map[], log) == Q.LimiterRun(c, log)
    decreases |log|
  {
    if log != [] {
      var n := |log| - 1;
      LevelsAreLimiterRun(c, log[..n]);
      assert log == log[..n] + [log[n]];
      LevelsAfterSplits(c, map[], log[..n], [log[n]]);
      assert [log[n]][1..] == [];
    }
  }

  // Two calls, one after the other.
  lemma TwoCalls(c: B.Config, levels: Q.Levels, a: Q.Request, b: Q.Request)
    ensures LevelsAfter(c, levels, [a]) == Q.LimiterStep(c, levels, a)
    ensures LevelsAfter(c, levels, [a] + [b]) == Q.LimiterStep(c, Q.LimiterStep(c, levels, a), b)
  {
    assert [a][1..] == [] && [b][1..] == [] && ([a] + [b])[1..] == [b];
    assert LevelsAfter(c, Q.LimiterStep(c, levels, a), [b]) == Q.LimiterStep(c, Q.LimiterStep(c, levels, a), b);
  }

  ghost predicate SameRate(s: System, s': System, log: seq<Q.Request>) {
    && s.quota.Some? == s'.quota.Some?
    && (s.quota.Some? ==>
          && s'.quota.value.rate == s.quota.value.rate
          && s'.quota.value.levels == LevelsAfter(s.quota.value.rate, s.quota.value.levels, log))
  }

  lemma BeginRate(s: System, id: string, intent: Intent, tenant: Option<string>, held: bool, now: real)
    ensures SameRate(s, Begin(s, id, intent, tenant, held, now), [])
  {
  }

  lemma AtRateRate(s: System, id: string, intent: Intent, t: string, now: real)
    requires s.quota.Some?
    ensures var q, call := s.quota.value, B.Consume(now, 1.0);
            SameRate(s, AdmitAtRate(s, id, intent, t, now),
              [Q.Request(t, Q.Touch(call))]
              + (if B.Grants(q.rate, Lookup(q.levels, t), call) then []
                 else [Q.Request(t, Q.Touch(B.RetryAfter(now)))]))
  {
    var q, call := s.quota.value, B.Consume(now, 1.0);
    var a, b := Q.Request(t, Q.Touch(call)), Q.Request(t, Q.Touch(B.RetryAfter(now)));
    TwoCalls(q.rate, q.levels, a, b);
    assert [a] + [] == [a];
    BeginRate(s.(quota := Some(q.Touched(t, call).Started(t, id))), id, intent, Some(t), true, now);
  }

  lemma QuotaRate(s: System, id: string, intent: Intent, tenant: Option<string>, now: real)
    ensures s.quota.None? || tenant.None? || tenant.value == "" || !s.quota.value.HasRoom(tenant.value) ==>
              SameRate(s, AdmitQuota(s, id, intent, tenant, now), [])
    ensures s.quota.Some? && tenant.Some? && tenant.value != "" && s.quota.value.HasRoom(tenant.value) ==>
              AdmitQuota(s, id, intent, tenant, now) == AdmitAtRate(s, id, intent, tenant.value, now)
  {
    BeginRate(s, id, intent, tenant, false, now);
  }

  lemma AdmitRate(s: System, e: Event)
    requires e.Execute? && ContextOk(s.context, s.isolation)
    ensures SameRate(s, Admit(s, e.id, e.intent, e.now), RateCalls(s, e))
  {
    var tenant := if s.context.Some? then Some(s.context.value.tenantId) else None;
    if s.isolation.None? || (tenant.Some? && s.isolation.value.CheckLimits(tenant.value).None?) {
      var s1 := if s.isolation.Some? then s.(isolation := Some(s.isolation.value.Started(tenant.value))) else s;
      QuotaRate(s1, e.id, e.intent, tenant, e.now);
      if s.quota.Some? && tenant.Some? {
        AtRateRate(s1, e.id, e.intent, tenant.value, e.now);
      }
    }
  }

  lemma ApplyRate(s: System, id: string, p: Progress)
    requires id in s.frames
    ensures SameRate(s, Apply(s, id, p), [])
  {
  }

  lemma StepRate(s: System, e: Event)
    requires Inv(s) && Enabled(s, e)
    ensures SameRate(s, Step(s, e), RateCalls(s, e))
  {
    match e
    case Execute(_, _, _) => AdmitRate(s, e);
    case Resumed(id, o, now) => ApplyRate(s, id, Resume(s.frames[id], o, now));
    case _ =>
  }

  lemma {:induction false} RunRate(s: System, events: seq<Event>)
    requires Inv(s) && AllEnabled(s, events)
    ensures SameRate(s, Run(s, events), RateLog(s, events))
    decreases |events|
  {
    if events != [] {
      var s' := Step(s, events[0]);
      StepKeeps(s, events[0]);
      StepRate(s, events[0]);
      RunRate(s', events[1..]);
      if s.quota.Some? {
        LevelsAfterSplits(s.quota.value.rate, s.quota.value.levels, RateCalls(s, events[0]), RateLog(s', events[1..]));
      }
    }
  }

  // No window of the tenant's calls so far would break by one more token.
  ghost predicate RateAllows(c: B.Config, calls: seq<B.Call>, now: real) {
    1.0 <= c.maxTokens && forall i | 0 <= i < |calls| :: 1.0 <= B.Headroom(c, calls, i, now)
  }

  ghost predicate MayEnter(s: System, calls: seq<B.Call>, now: real) {
    && s.state == RUNNING
    && (s.isolation.Some? ==>
          s.context.Some?
          && var b, t := s.isolation.value, s.context.value.tenantId;
             t in b.tenants && b.Count(t) < b.tenants[t].maxConcurrentExecutions)
    && (s.quota.Some? && s.context.Some? ==>
          var q, t := s.quota.value, s.context.value.tenantId;
          |if t in q.active then q.active[t] else {}| < (if t in q.configs then q.configs[t].maxConcurrent else 5)
          && RateAllows(q.rate, calls, now))
  }

  lemma BeginDecides(s: System, id: string, intent: Intent, tenant: Option<string>, held: bool, now: real)
    requires id !in s.frames
    ensures id in Begin(s, id, intent, tenant, held, now).frames <==> s.state == RUNNING
  {
  }

  lemma AtRateDecides(s: System, id: string, intent: Intent, t: string, now: real)
    requires s.quota.Some? && id !in s.frames
    ensures id in AdmitAtRate(s, id, intent, t, now).frames
       <==> (s.state == RUNNING
             && B.Grants(s.quota.value.rate, Lookup(s.quota.value.levels, t), B.Consume(now, 1.0)))
  {
    var q, call := s.quota.value, B.Consume(now, 1.0);
    BeginDecides(s.(quota := Some(q.Touched(t, call).Started(t, id))), id, intent, Some(t), true, now);
  }

  lemma QuotaDecides(s: System, id: string, intent: Intent, tenant: Option<string>, now: real)
    requires id !in s.frames && (tenant.Some? ==> tenant.value != "")
    ensures id in AdmitQuota(s, id, intent, tenant, now).frames
       <==> (&& s.state == RUNNING
             && (s.quota.Some? && tenant.Some? ==>
                   var q, t := s.quota.value, tenant.value;
                   q.HasRoom(t) && B.Grants(q.rate, Lookup(q.levels, t), B.Consume(now, 1.0))))
  {
    BeginDecides(s, id, intent, tenant, false, now);
    if s.quota.Some? && tenant.Some? {
      AtRateDecides(s, id, intent, tenant.value, now);
    }
  }

  lemma AdmitDecides(s: System, id: string, intent: Intent, now: real)
    requires ContextOk(s.context, s.isolation) && id !in s.frames
    ensures id in Admit(s, id, intent, now).frames
       <==> (&& s.state == RUNNING
             && (s.isolation.Some? ==> s.context.Some? && s.isolation.value.CheckLimits(s.context.value.tenantId).None?)
             && (s.quota.Some? && s.context.Some? ==>
                   var q, t := s.quota.value, s.context.value.tenantId;
                   q.HasRoom(t) && B.Grants(q.rate, Lookup(q.levels, t), B.Consume(now, 1.0))))
  {
    var tenant := if s.context.Some? then Some(s.context.value.tenantId) else None;
    if s.isolation.None? {
      QuotaDecides(s, id, intent, tenant, now);
    } else if tenant.Some? {
      QuotaDecides(s.(isolation := Some(s.isolation.value.Started(tenant.value))), id, intent, tenant, now);
    }
  }

  /** The exact admission rule over whole runs: an intent enters the guarded body
      exactly when the runtime is running, the tenant (if isolation is on) is
      known and has a free slot, its active set has room, and no window of its own
      earlier rate checks would overflow. Other tenants play no part. */
  lemma AdmittedExactlyWhen(s0: System, events: seq<Event>, id: string, intent: Intent, now: real)
    requires Initial(s0) && AllEnabled(s0, events) && id !in Run(s0, events).frames
    requires s0.quota.Some? ==> s0.quota.value.levels == map[]
    ensures var s := Run(s0, events);
            var t := if s.context.Some? then s.context.value.tenantId else "";
            id in Admit(s, id, intent, now).frames <==> MayEnter(s, Q.OwnCalls(RateLog(s0, events), t), now)
  {
    var s := Run(s0, events);
    InitialIsSafe(s0);
    RunKeeps(s0, events);
    RunRate(s0, events);
    AdmitDecides(s, id, intent, now);
    if s.quota.Some? && s.context.Some? {
      var c, t := s.quota.value.rate, s.context.value.tenantId;
      var log := RateLog(s0, events);
      LevelsAreLimiterRun(c, log);
      Q.TenantsAreIndependent(c, log, t);
      B.GrantedIffEveryWindowFits(c, Q.OwnCalls(log, t), now, 1.0);
    }
  }

  /* ----- The division by a zero refill rate ----- */

  predicate ZeroDivided(e: Ended) {
    e.reply == Threw(ZeroDivision)
  }

  // The step ends its call with the ZeroDivisionError of retry_after.
  ghost predicate Throws(s: System, s': System) {
    |s'.log| == |s.log| + 1 && s'.log[..|s.log|] == s.log && ZeroDivided(s'.log[|s.log|])
  }

  lemma AtRateThrows(s: System, id: string, intent: Intent, t: string, now: real)
    requires s.quota.Some?
    ensures var q := s.quota.value;
            Throws(s, AdmitAtRate(s, id, intent, t, now))
            <==> q.rate.refillRate == 0.0 && !B.Grants(q.rate, Lookup(q.levels, t), B.Consume(now, 1.0))
  {
    var q, call := s.quota.value, B.Consume(now, 1.0);
    if B.Grants(q.rate, Lookup(q.levels, t), call) {
      BeginNeverThrows(s.(quota := Some(q.Touched(t, call).Started(t, id))), id, intent, Some(t), true, now);
    } else {
      AdmissionReplies.RefusedWait(q.rate, Lookup(q.levels, t), now);
    }
  }

  lemma BeginNeverThrows(s: System, id: string, intent: Intent, tenant: Option<string>, held: bool, now: real)
    ensures !Throws(s, Begin(s, id, intent, tenant, held, now))
  {
  }

  lemma QuotaThrows(s: System, id: string, intent: Intent, tenant: Option<string>, now: real)
    ensures Throws(s, AdmitQuota(s, id, intent, tenant, now))
       <==> (&& s.quota.Some? && tenant.Some? && tenant.value != "" && s.quota.value.HasRoom(tenant.value)
             && var q := s.quota.value;
                q.rate.refillRate == 0.0 && !B.Grants(q.rate, Lookup(q.levels, tenant.value), B.Consume(now, 1.0)))
  {
    BeginNeverThrows(s, id, intent, tenant, false, now);
    if s.quota.Some? && tenant.Some? {
      AtRateThrows(s, id, intent, tenant.value, now);
    }
  }

  /** One call raises the ZeroDivisionError out of execute_intent exactly when it
      gets as far as the rate check, the bucket refuses it, and the rate is zero. */
  lemma AdmitThrows(s: System, e: Event)
    requires e.Execute? && ContextOk(s.context, s.isolation)
    ensures Throws(s, Admit(s, e.id, e.intent, e.now))
       <==> (&& RateChecked(s, e).Some? && s.quota.Some?
             && var q, t := s.quota.value, RateChecked(s, e).value;
                q.rate.refillRate == 0.0 && !B.Grants(q.rate, Lookup(q.levels, t), B.Consume(e.now, 1.0)))
  {
    var tenant := if s.context.Some? then Some(s.context.value.tenantId) else None;
    if s.isolation.None? {
      QuotaThrows(s, e.id, e.intent, tenant, e.now);
    } else if tenant.Some? {
      QuotaThrows(s.(isolation := Some(s.isolation.value.Started(tenant.value))), e.id, e.intent, tenant, e.now);
    }
  }

  /** Over whole runs: a call raises it exactly when it is rate checked, one more
      token would break a window of the tenant's earlier checks, and the rate is
      zero. */
  lemma ThrowsExactlyWhen(s0: System, events: seq<Event>, e: Event)
    requires Initial(s0) && AllEnabled(s0, events) && e.Execute?
    requires s0.quota.Some? ==> s0.quota.value.levels == map[]
    ensures var s := Run(s0, events);
            Throws(s, Admit(s, e.id, e.intent, e.now))
            <==> (&& RateChecked(s, e).Some? && s0.quota.Some?
                  && s0.quota.value.rate.refillRate == 0.0
                  && !RateAllows(s0.quota.value.rate, Q.OwnCalls(RateLog(s0, events), RateChecked(s, e).value), e.now))
  {
    var s := Run(s0, events);
    InitialIsSafe(s0);
    RunKeeps(s0, events);
    RunRate(s0, events);
    AdmitThrows(s, e);
    if s.quota.Some? && RateChecked(s, e).Some? {
      var c, t, log := s.quota.value.rate, RateChecked(s, e).value, RateLog(s0, events);
      LevelsAreLimiterRun(c, log);
      Q.TenantsAreIndependent(c, log, t);
      B.GrantedIffEveryWindowFits(c, Q.OwnCalls(log, t), e.now, 1.0);
    }
  }

  lemma StepThrows(s: System, e: Event)
    requires Inv(s) && Enabled(s, e) && s.quota.Some? && s.quota.value.rate.refillRate != 0.0
    requires forall i | 0 <= i < |s.log| :: !ZeroDivided(s.log[i])
    ensures forall i | 0 <= i < |Step(s, e).log| :: !ZeroDivided(Step(s, e).log[i])
  {
    match e
    case Execute(id, intent, now) =>
      AdmitShape(s, id, intent, now);
      AdmitThrows(s, e);
      NoThrowKeeps(s.log, Admit(s, id, intent, now).log);
    case Resumed(id, o, now) => ApplyShape(s, id, Resume(s.frames[id], o, now));
    case _ =>
  }

  lemma NoThrowKeeps(log: seq<Ended>, longer: seq<Ended>)
    requires log == longer || (|longer| == |log| + 1 && longer[..|log|] == log && !ZeroDivided(longer[|log|]))
    requires forall i | 0 <= i < |log| :: !ZeroDivided(log[i])
    ensures forall i | 0 <= i < |longer| :: !ZeroDivided(longer[i])
  {
    forall i | 0 <= i < |log| && log != longer ensures !ZeroDivided(longer[i]) {
      assert longer[..|log|][i] == log[i];
    }
  }

  lemma {:induction false} RunNeverThrows(s: System, events: seq<Event>)
    requires Inv(s) && AllEnabled(s, events) && s.quota.Some? && s.quota.value.rate.refillRate != 0.0
    requires forall i | 0 <= i < |s.log| :: !ZeroDivided(s.log[i])
    ensures forall i | 0 <= i < |Run(s, events).log| :: !ZeroDivided(Run(s, events).log[i])
    decreases |events|
  {
    if events != [] {
      StepKeeps(s, events[0]);
      StepRate(s, events[0]);
      StepThrows(s, events[0]);
      RunNeverThrows(Step(s, events[0]), events[1..]);
    }
  }

  /** So with a rate other than zero no reachable log holds such an error. */
  lemma RefillingNeverThrows(s: System, i: nat)
    requires Reachable(s) && s.quota.Some? && s.quota.value.rate.refillRate != 0.0 && i < |s.log|
    ensures !ZeroDivided(s.log[i])
  {
    var s0, events :| Initial(s0) && AllEnabled(s0, events) && Run(s0, events) == s;
    InitialIsSafe(s0);
    RunRate(s0, events);
    RunNeverThrows(s0, events);
  }

  // A runtime with nothing but a quota manager, whose buckets never refill.
  function Dry(capacity: real, context: Option<TenantContext>): System {
    System(None, Some(Q.QuotaState(B.Config(capacity, 0.0), map[], map[], map[])), None, false,
           RUNNING, context, map[], [])
  }

  lemma EmptyBucketRefuses(capacity: real, now: real)
    requires capacity < 1.0
    ensures !B.Grants(B.Config(capacity, 0.0), None, B.Consume(now, 1.0))
  {
  }

  lemma NewTenantIsChecked(capacity: real, tenant: TenantContext, e: Event)
    requires tenant.IsValid() && e.Execute?
    ensures RateChecked(Dry(capacity, Some(tenant)), e) == Some(tenant.tenantId)
  {
    assert Dry(capacity, Some(tenant)).quota.value.ActiveOf(tenant.tenantId) == {};
  }

  /** An input that shows it: a bucket smaller than one token that never refills.
      The first intent of every tenant raises. */
  lemma DryBucketThrows(capacity: real, tenant: TenantContext, e: Event)
    requires capacity < 1.0 && tenant.IsValid() && e.Execute?
    ensures Initial(Dry(capacity, None)) && AllEnabled(Dry(capacity, None), [SetContext(tenant)])
    ensures var s := Run(Dry(capacity, None), [SetContext(tenant)]);
            Throws(s, Admit(s, e.id, e.intent, e.now))
  {
    var s := Dry(capacity, Some(tenant));
    assert Step(Dry(capacity, None), SetContext(tenant)) == s;
    assert [SetContext(tenant)][1..] == [];
    NewTenantIsChecked(capacity, tenant, e);
    EmptyBucketRefuses(capacity, e.now);
    assert Lookup(s.quota.value.levels, tenant.tenantId) == None;
    AdmitThrows(s, e);
  }
}
