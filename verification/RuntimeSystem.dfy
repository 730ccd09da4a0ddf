/** The runtime as a system of atomic steps: every stretch of code between two
    awaits is one step, and any number of executions may be suspended. */
module RuntimeSystem {
  import opened Wrappers
  import opened ExecutionStates
  import opened Metrics
  import opened Isolation
  import opened GuardedExecution
  import B = BucketArithmetic
  import Q = Quotas

  datatype RuntimeError = Denied(why: IsolationError) | ZeroDivision | InvalidState

  datatype Reply = Replied(result: ExecutionResult) | Threw(error: RuntimeError)

  // One finished call of execute_intent: whether it took an isolation slot,
  // and whether it entered the guarded body.
  datatype Ended = Ended(id: string, tenant: Option<string>, slotTaken: bool, guarded: bool, reply: Reply)
  {
    predicate Completed() { reply.Replied? && reply.result.state == COMPLETED }

    predicate Owes(t: string) { slotTaken && tenant == Some(t) && !Completed() }

    predicate FailedInside() { guarded && !(reply.Replied? && reply.result.success) }

    predicate Succeeded() { reply.Replied? && reply.result.success }
  }

  datatype System = System(
    isolation: Option<IsolationState>, quota: Option<Q.QuotaState>, counters: Option<Counters>, traced: bool,
    state: RuntimeState, context: Option<TenantContext>, frames: map<string, Frame>, log: seq<Ended>)
  {
    function Counted(m: Metric): System {
      this.(counters := if counters.Some? then Some(Incremented(counters.value, m)) else None)
    }

    function CountedEnd(extra: Option<Metric>, success: bool): System {
      this.(counters := if counters.Some? then Some(CountEnd(counters.value, extra, success)) else None)
    }

    function Logged(e: Ended): System {
      this.(log := log + [e])
    }

    function Rejected(id: string, tenant: Option<string>, slot: bool, message: string): System {
      Logged(Ended(id, tenant, slot, false,
                   Replied(ExecutionResult(false, id, None, "", Some(message), CREATED))))
    }
  }

  datatype Event =
    | Execute(id: string, intent: Intent, now: real)
    | Resumed(id: string, outcome: Outcome, now: real)
    | Drain
    | Stop
    | SetContext(context: TenantContext)
    | RegisterTenant(tenant: TenantModel)
    | RegisterAgent(agent: string, tenantId: string)

  /* ----- The steps ----- */

  function Admit(s: System, id: string, intent: Intent, now: real): System {
    var tenant := if s.context.Some? then Some(s.context.value.tenantId) else None;
    if s.isolation.Some? && tenant.None? then
      s.Rejected(id, None, false, "No tenant context - execution denied")
    else if s.isolation.None? then AdmitQuota(s, id, intent, tenant, now)
    else
      var limit := s.isolation.value.CheckLimits(tenant.value);
      if limit.Some? then s.Logged(Ended(id, tenant, false, false, Threw(Denied(limit.value))))
      else AdmitQuota(s.(isolation := Some(s.isolation.value.Started(tenant.value))), id, intent, tenant, now)
  }

  function AdmitQuota(s: System, id: string, intent: Intent, tenant: Option<string>, now: real): System {
    var slot := s.isolation.Some?;
    if s.quota.None? || tenant.None? || tenant.value == "" then Begin(s, id, intent, tenant, false, now)
    else if !s.quota.value.HasRoom(tenant.value) then
      s.Counted(QuotaExceeded)
        .Rejected(id, tenant, slot, "Concurrent execution limit exceeded for tenant " + tenant.value)
    else AdmitAtRate(s, id, intent, tenant.value, now)
  }

  function AdmitAtRate(s: System, id: string, intent: Intent, t: string, now: real): System
    requires s.quota.Some?
  {
    var q, call := s.quota.value, B.Consume(now, 1.0);
    var touched := q.Touched(t, call);
    if B.Grants(q.rate, Lookup(q.levels, t), call) then
      Begin(s.(quota := Some(touched.Started(t, id))), id, intent, Some(t), true, now)
    else
      var s' := s.(quota := Some(touched.Touched(t, B.RetryAfter(now))));
      if B.RetryAnswer(q.rate, B.Access(q.rate, Lookup(touched.levels, t), now)).None? then
        s'.Logged(Ended(id, Some(t), s.isolation.Some?, false, Threw(ZeroDivision)))
      else
        s'.Counted(RateLimitHit).Rejected(id, Some(t), s.isolation.Some?, "Rate limit exceeded for tenant " + t)
  }

  function Begin(s: System, id: string, intent: Intent, tenant: Option<string>, held: bool, now: real): System {
    var slot := s.isolation.Some?;
    if s.state == RUNNING then
      s.(frames := s.frames[id := Start(id, intent, tenant, slot, held, s.traced, now)]).Counted(ExecutionsTotal)
    else
      Release(s, tenant, id, held).Counted(ExecutionsRejected)
        .Rejected(id, tenant, slot, if s.state == DRAINING then "Runtime is draining" else "Runtime is stopped")
  }

  function Release(s: System, tenant: Option<string>, id: string, held: bool): System {
    if held && s.quota.Some? && tenant.Some? then s.(quota := Some(s.quota.value.Ended(tenant.value, id))) else s
  }

  // A slot goes back to the boundary when an execution completes, and only then.
  function ReturnSlot(s: System, tenant: Option<string>, state: ExecutionState): System {
    if state == COMPLETED && s.isolation.Some? && tenant.Some?
    then s.(isolation := Some(s.isolation.value.Ended(tenant.value)))
    else s
  }

  function ResumeStep(s: System, id: string, o: Outcome, now: real): System
    requires id in s.frames && s.frames[id].stage.Admits(o)
  {
    Apply(s, id, Resume(s.frames[id], o, now))
  }

  // What a stretch of the guarded body does to the shared state.
  function Apply(s: System, id: string, p: Progress): System
    requires id in s.frames
  {
    var f := s.frames[id];
    match p
    case Waiting(g) => s.(frames := s.frames[id := g])
    case Finished(g, result, extra) =>
      Release(ReturnSlot(s, f.tenant, result.state).CountedEnd(extra, result.success), f.tenant, id, f.quotaHeld)
        .(frames := s.frames - {id})
        .Logged(Ended(id, f.tenant, f.slotHeld, true, Replied(result)))
    case Crashed =>
      s.(frames := s.frames - {id}).Logged(Ended(id, f.tenant, f.slotHeld, true, Threw(InvalidState)))
  }

  function Contextualised(s: System, c: TenantContext): System {
    if !c.IsValid() || (s.isolation.Some? && s.isolation.value.CheckContext(c).Some?) then s
    else s.(context := Some(c))
  }

  // Fresh ids, outcomes a collaborator can give, and limits that stay fixed.
  predicate Enabled(s: System, e: Event) {
    match e
    case Execute(id, _, _) => id !in s.frames
    case Resumed(id, o, _) => id in s.frames && s.frames[id].stage.Admits(o)
    case RegisterTenant(t) =>
      s.isolation.Some? && t.tenantId in s.isolation.value.tenants ==>
        s.isolation.value.tenants[t.tenantId].maxConcurrentExecutions == t.maxConcurrentExecutions
    case _ => true
  }

  function Step(s: System, e: Event): System
    requires Enabled(s, e)
  {
    match e
    case Execute(id, intent, now) => Admit(s, id, intent, now)
    case Resumed(id, o, now) => ResumeStep(s, id, o, now)
    case Drain => if s.state == RUNNING then s.(state := DRAINING) else s
    case Stop => if s.state == STOPPED then s else s.(state := STOPPED).Counted(ShutdownCount)
    case SetContext(c) => Contextualised(s, c)
    case RegisterTenant(t) =>
      if s.isolation.Some? then s.(isolation := Some(s.isolation.value.TenantAdded(t))) else s
    case RegisterAgent(a, t) =>
      if s.isolation.Some? then s.(isolation := Some(s.isolation.value.AgentAdded(a, t))) else s
  }

  predicate AllEnabled(s: System, events: seq<Event>)
    decreases |events|
  {
    events != [] ==> Enabled(s, events[0]) && AllEnabled(Step(s, events[0]), events[1..])
  }

  function Run(s: System, events: seq<Event>): System
    requires AllEnabled(s, events)
    decreases |events|
  {
    if events == [] then s else Run(Step(s, events[0]), events[1..])
  }

  // A runtime as constructed: any collaborators, nothing in flight, nothing counted.
  ghost predicate Initial(s: System) {
    && s.state == RUNNING && s.context == None && s.frames == map[] && s.log == []
    && (s.isolation.Some? ==> s.isolation.value.counts == map[])
    && (s.quota.Some? ==> s.quota.value.active == map[])
    && (s.counters.Some? ==> s.counters.value == map[])
  }

  /* ----- What is counted ----- */

  function SlotHolders(frames: map<string, Frame>, t: string): set<string> {
    set id | id in frames && frames[id].slotHeld && frames[id].tenant == Some(t)
  }

  function QuotaHolders(frames: map<string, Frame>, t: string): set<string> {
    set id | id in frames && frames[id].quotaHeld && frames[id].tenant == Some(t)
  }

  // Ended calls that took a slot of the tenant and did not complete.
  function Leaks(log: seq<Ended>, t: string): nat {
    if log == [] then 0
    else Leaks(log[..|log| - 1], t) + (if log[|log| - 1].Owes(t) then 1 else 0)
  }

  function TakenBy(log: seq<Ended>, t: string): nat {
    if log == [] then 0
    else
      var e := log[|log| - 1];
      TakenBy(log[..|log| - 1], t) + (if e.slotTaken && e.tenant == Some(t) then 1 else 0)
  }

  function CompletedBy(log: seq<Ended>, t: string): nat {
    if log == [] then 0
    else
      var e := log[|log| - 1];
      CompletedBy(log[..|log| - 1], t) + (if e.slotTaken && e.tenant == Some(t) && e.Completed() then 1 else 0)
  }

  function Successes(log: seq<Ended>): nat {
    if log == [] then 0
    else Successes(log[..|log| - 1]) + (if log[|log| - 1].Succeeded() then 1 else 0)
  }

  function InnerFailures(log: seq<Ended>): nat {
    if log == [] then 0
    else InnerFailures(log[..|log| - 1]) + (if log[|log| - 1].FailedInside() then 1 else 0)
  }

  /* ----- The invariant ----- */

  ghost predicate ContextOk(context: Option<TenantContext>, isolation: Option<IsolationState>) {
    context.Some? ==>
      && context.value.IsValid()
      && (isolation.Some? ==> context.value.tenantId in isolation.value.tenants)
  }

  ghost predicate FrameOk(bounded: bool, limited: bool, id: string, f: Frame) {
    && f.id == id && Sound(f)
    && (f.slotHeld <==> bounded)
    && (f.slotHeld ==> f.tenant.Some?)
    && (f.quotaHeld <==> limited && f.tenant.Some?)
  }

  ghost predicate FramesOk(bounded: bool, limited: bool, frames: map<string, Frame>) {
    forall id | id in frames :: FrameOk(bounded, limited, id, frames[id])
  }

  ghost predicate EntryOk(e: Ended) {
    match e.reply
    case Threw(_) => !e.guarded
    case Replied(r) =>
      && r.executionId == e.id
      && (r.success <==> r.state == COMPLETED)
      && (r.success <==> r.checkpointId.Some?)
      && (if e.guarded then r.state.Terminal() else r.state == CREATED)
  }

  ghost predicate LogOk(log: seq<Ended>) {
    forall i | 0 <= i < |log| :: EntryOk(log[i])
  }

  // What a step in progress has in hand: an execution that is in neither the
  // frames nor the log, its isolation slot, its quota slot, its place in the total.
  datatype Pending = Pending(id: string, slot: Option<string>, quota: Option<string>, inside: bool)

  const NOTHING := Pending("", None, None, false)

  // Slots in use = executions in flight + slots never returned.
  ghost predicate SlotOk(b: IsolationState, frames: map<string, Frame>, log: seq<Ended>, t: string, p: Pending) {
    && b.Count(t) == |SlotHolders(frames, t)| + Leaks(log, t) + (if p.slot == Some(t) then 1 else 0)
    && (b.Count(t) > 0 ==> t in b.tenants && b.Count(t) <= b.tenants[t].maxConcurrentExecutions)
  }

  ghost predicate SlotsOk(isolation: Option<IsolationState>, frames: map<string, Frame>, log: seq<Ended>, p: Pending) {
    isolation.Some? ==> forall t :: SlotOk(isolation.value, frames, log, t, p)
  }

  // A tenant's active set = its executions in flight.
  ghost predicate ActiveOk(q: Q.QuotaState, frames: map<string, Frame>, t: string, p: Pending) {
    && q.ActiveOf(t) == QuotaHolders(frames, t) + (if p.quota == Some(t) then {p.id} else {})
    && (q.ActiveOf(t) != {} ==> |q.ActiveOf(t)| <= q.Limit(t))
  }

  ghost predicate QuotaOk(quota: Option<Q.QuotaState>, frames: map<string, Frame>, p: Pending) {
    quota.Some? ==> forall t :: ActiveOk(quota.value, frames, t, p)
  }

  // `inside` is the number of executions in the guarded body.
  ghost predicate CountersOk(counters: Option<Counters>, log: seq<Ended>, inside: nat) {
    counters.Some? ==>
      && Get(counters.value, ExecutionsCompleted) == Successes(log)
      && Get(counters.value, ExecutionsFailed) == InnerFailures(log)
      && Get(counters.value, ExecutionsTotal) == Successes(log) + InnerFailures(log) + inside
  }

  ghost predicate InvWith(s: System, p: Pending) {
    && ContextOk(s.context, s.isolation)
    && FramesOk(s.isolation.Some?, s.quota.Some?, s.frames)
    && LogOk(s.log)
    && SlotsOk(s.isolation, s.frames, s.log, p)
    && QuotaOk(s.quota, s.frames, p)
    && CountersOk(s.counters, s.log, |s.frames| + (if p.inside then 1 else 0))
    && (p != NOTHING ==> p.id !in s.frames)
  }

  ghost predicate Inv(s: System) {
    InvWith(s, NOTHING)
  }

  /* ----- The pieces of a step ----- */

  lemma LogGrows(log: seq<Ended>, e: Ended)
    ensures forall t :: Leaks(log + [e], t) == Leaks(log, t) + (if e.Owes(t) then 1 else 0)
    ensures Successes(log + [e]) == Successes(log) + (if e.Succeeded() then 1 else 0)
    ensures InnerFailures(log + [e]) == InnerFailures(log) + (if e.FailedInside() then 1 else 0)
  {
    assert (log + [e])[..|log|] == log;
  }

  lemma HoldersGrow(frames: map<string, Frame>, id: string, f: Frame, t: string)
    requires id !in frames
    ensures SlotHolders(frames[id := f], t)
         == SlotHolders(frames, t) + (if f.slotHeld && f.tenant == Some(t) then {id} else {})
    ensures QuotaHolders(frames[id := f], t)
         == QuotaHolders(frames, t) + (if f.quotaHeld && f.tenant == Some(t) then {id} else {})
    ensures id !in SlotHolders(frames, t) && id !in QuotaHolders(frames, t)
  {
  }

  // The slot part of the invariant reads only the pending slot, the quota part
  // only the pending quota and id.
  lemma SlotsRelabelled(b: Option<IsolationState>, frames: map<string, Frame>, log: seq<Ended>, p: Pending, p': Pending)
    requires SlotsOk(b, frames, log, p) && p.slot == p'.slot
    ensures SlotsOk(b, frames, log, p')
  {
    if b.Some? {
      forall t ensures SlotOk(b.value, frames, log, t, p') {
        assert SlotOk(b.value, frames, log, t, p);
      }
    }
  }

  lemma QuotaRelabelled(q: Option<Q.QuotaState>, frames: map<string, Frame>, p: Pending, p': Pending)
    requires QuotaOk(q, frames, p) && p.quota == p'.quota && (p.quota.None? || p.id == p'.id)
    ensures QuotaOk(q, frames, p')
  {
    if q.Some? {
      forall t ensures ActiveOk(q.value, frames, t, p') {
        assert ActiveOk(q.value, frames, t, p);
      }
    }
  }

  lemma Relabelled(s: System, p: Pending, p': Pending)
    requires InvWith(s, p) && p.slot == p'.slot && p.quota == p'.quota && p.inside == p'.inside
    requires (p.quota.None? || p.id == p'.id) && p'.id !in s.frames
    ensures InvWith(s, p')
  {
    SlotsRelabelled(s.isolation, s.frames, s.log, p, p');
    QuotaRelabelled(s.quota, s.frames, p, p');
  }

  lemma TakeSlot(s: System, id: string, t: string)
    requires Inv(s) && s.isolation.Some? && s.isolation.value.CheckLimits(t).None? && id !in s.frames
    ensures InvWith(s.(isolation := Some(s.isolation.value.Started(t))), Pending(id, Some(t), None, false))
  {
    var b, p := s.isolation.value, Pending(id, Some(t), None, false);
    forall u ensures SlotOk(b.Started(t), s.frames, s.log, u, p) {
      assert SlotOk(b, s.frames, s.log, u, NOTHING);
    }
    QuotaRelabelled(s.quota, s.frames, NOTHING, p);
  }

  lemma ReturnsSlot(s: System, p: Pending)
    requires InvWith(s, p) && p.slot.Some? && s.isolation.Some? && p.id !in s.frames
    ensures s.isolation.value.Count(p.slot.value) >= 1
    ensures InvWith(s.(isolation := Some(s.isolation.value.Ended(p.slot.value))), p.(slot := None))
  {
    var b := s.isolation.value;
    assert SlotOk(b, s.frames, s.log, p.slot.value, p);
    forall u ensures SlotOk(b.Ended(p.slot.value), s.frames, s.log, u, p.(slot := None)) {
      assert SlotOk(b, s.frames, s.log, u, p);
    }
    QuotaRelabelled(s.quota, s.frames, p, p.(slot := None));
  }

  lemma ActiveStarted(q: Q.QuotaState, q': Q.QuotaState, frames: map<string, Frame>, p: Pending, t: string, u: string)
    requires ActiveOk(q, frames, u, p) && p.quota.None? && q'.HasRoom(t)
    requires q'.active == q.active && q'.configs == q.configs
    ensures ActiveOk(q'.Started(t, p.id), frames, u, p.(quota := Some(t)))
  {
    var started := q'.Started(t, p.id);
    if u == t {
      assert started.ActiveOf(u) == q.ActiveOf(u) + {p.id};
    } else {
      assert started.ActiveOf(u) == q.ActiveOf(u);
    }
  }

  lemma TakeQuota(s: System, p: Pending, q: Q.QuotaState, t: string)
    requires InvWith(s, p) && p.quota.None? && p.id !in s.frames && s.quota.Some?
    requires q.active == s.quota.value.active && q.configs == s.quota.value.configs
    requires q.HasRoom(t)
    ensures InvWith(s.(quota := Some(q.Started(t, p.id))), p.(quota := Some(t)))
  {
    forall u ensures ActiveOk(q.Started(t, p.id), s.frames, u, p.(quota := Some(t))) {
      assert ActiveOk(s.quota.value, s.frames, u, p);
      ActiveStarted(s.quota.value, q, s.frames, p, t, u);
    }
    SlotsRelabelled(s.isolation, s.frames, s.log, p, p.(quota := Some(t)));
  }

  lemma ActiveEnded(q: Q.QuotaState, frames: map<string, Frame>, p: Pending, u: string)
    requires ActiveOk(q, frames, u, p) && p.quota.Some? && p.id !in frames
    ensures ActiveOk(q.Ended(p.quota.value, p.id), frames, u, p.(quota := None))
  {
    var ended := q.Ended(p.quota.value, p.id);
    assert p.id !in QuotaHolders(frames, u);
    if u == p.quota.value {
      assert ended.ActiveOf(u) == q.ActiveOf(u) - {p.id};
      Smaller(q.ActiveOf(u) - {p.id}, q.ActiveOf(u));
    } else {
      assert ended.ActiveOf(u) == q.ActiveOf(u);
    }
  }

  lemma DropQuota(s: System, p: Pending)
    requires InvWith(s, p) && p.quota.Some? && s.quota.Some? && p.id !in s.frames
    ensures InvWith(s.(quota := Some(s.quota.value.Ended(p.quota.value, p.id))), p.(quota := None))
  {
    var q := s.quota.value;
    forall u ensures ActiveOk(q.Ended(p.quota.value, p.id), s.frames, u, p.(quota := None)) {
      assert ActiveOk(q, s.frames, u, p);
      ActiveEnded(q, s.frames, p, u);
    }
    SlotsRelabelled(s.isolation, s.frames, s.log, p, p.(quota := None));
  }

  lemma Smaller(a: set<string>, b: set<string>)
    requires a <= b
    ensures |a| <= |b|
  {
    assert a + (b - a) == b;
  }

  lemma RateTouched(s: System, p: Pending, q: Q.QuotaState)
    requires InvWith(s, p) && s.quota.Some?
    requires q.active == s.quota.value.active && q.configs == s.quota.value.configs
    ensures InvWith(s.(quota := Some(q)), p)
  {
    forall u ensures ActiveOk(q, s.frames, u, p) {
      assert ActiveOk(s.quota.value, s.frames, u, p);
    }
  }

  // An execution leaves the pending hand for the log; c is the new counters.
  lemma EntryEnters(s: System, p: Pending, c: Option<Counters>, e: Ended)
    requires InvWith(s, p) && p.quota.None? && EntryOk(e)
    requires forall t :: e.Owes(t) <==> p.slot == Some(t)
    requires e.guarded == p.inside
    requires e.guarded ==> (e.Succeeded() != e.FailedInside())
    requires !e.guarded ==> !e.Succeeded()
    requires c.Some? == s.counters.Some?
    requires c.Some? ==>
      && Get(c.value, ExecutionsTotal) == Get(s.counters.value, ExecutionsTotal)
      && Get(c.value, ExecutionsCompleted)
         == Get(s.counters.value, ExecutionsCompleted) + (if e.Succeeded() then 1 else 0)
      && Get(c.value, ExecutionsFailed) == Get(s.counters.value, ExecutionsFailed) + (if e.FailedInside() then 1 else 0)
    ensures Inv(s.(counters := c).Logged(e))
  {
    var log := s.log + [e];
    LogGrows(s.log, e);
    forall i | 0 <= i < |log| ensures EntryOk(log[i]) {
      if i < |s.log| { assert EntryOk(s.log[i]); }
    }
    if s.isolation.Some? {
      forall t ensures SlotOk(s.isolation.value, s.frames, log, t, NOTHING) {
        assert SlotOk(s.isolation.value, s.frames, s.log, t, p);
      }
    }
    QuotaRelabelled(s.quota, s.frames, p, NOTHING);
  }

  // What is in hand when the execution of frame f is neither suspended nor logged.
  ghost function InHand(id: string, f: Frame, inside: bool): Pending {
    Pending(id, if f.slotHeld then f.tenant else None, if f.quotaHeld then f.tenant else None, inside)
  }

  lemma HandSlot(b: IsolationState, frames: map<string, Frame>, log: seq<Ended>, t: string, id: string, f: Frame,
                 inside: bool)
    requires id !in frames
    ensures SlotOk(b, frames, log, t, InHand(id, f, inside)) == SlotOk(b, frames[id := f], log, t, NOTHING)
  {
    HoldersGrow(frames, id, f, t);
  }

  lemma HandQuota(q: Q.QuotaState, frames: map<string, Frame>, t: string, id: string, f: Frame, inside: bool)
    requires id !in frames
    ensures ActiveOk(q, frames, t, InHand(id, f, inside)) == ActiveOk(q, frames[id := f], t, NOTHING)
  {
    HoldersGrow(frames, id, f, t);
    if f.quotaHeld && f.tenant == Some(t) {
      assert QuotaHolders(frames[id := f], t) + {} == QuotaHolders(frames, t) + {id};
    } else {
      assert QuotaHolders(frames[id := f], t) + {} == QuotaHolders(frames, t) + {};
    }
  }

  // Holding an execution in hand or in the frames comes to the same.
  lemma HandsOk(s: System, id: string, f: Frame, inside: bool)
    requires id !in s.frames
    ensures SlotsOk(s.isolation, s.frames, s.log, InHand(id, f, inside))
         == SlotsOk(s.isolation, s.frames[id := f], s.log, NOTHING)
    ensures QuotaOk(s.quota, s.frames, InHand(id, f, inside)) == QuotaOk(s.quota, s.frames[id := f], NOTHING)
    ensures |s.frames[id := f]| == |s.frames| + 1
  {
    var p, frames := InHand(id, f, inside), s.frames[id := f];
    assert frames.Keys == s.frames.Keys + {id};
    if s.isolation.Some? {
      var b := s.isolation.value;
      forall t { HandSlot(b, s.frames, s.log, t, id, f, inside); }
      assert forall t :: SlotOk(b, s.frames, s.log, t, p) == SlotOk(b, frames, s.log, t, NOTHING);
    }
    if s.quota.Some? {
      var q := s.quota.value;
      forall t { HandQuota(q, s.frames, t, id, f, inside); }
      assert forall t :: ActiveOk(q, s.frames, t, p) == ActiveOk(q, frames, t, NOTHING);
    }
  }

  lemma FramesGrow(bounded: bool, limited: bool, frames: map<string, Frame>, id: string, f: Frame)
    requires FramesOk(bounded, limited, frames) && FrameOk(bounded, limited, id, f)
    ensures FramesOk(bounded, limited, frames[id := f])
  {
    var grown := frames[id := f];
    forall other | other in grown ensures FrameOk(bounded, limited, other, grown[other]) {
      if other != id { assert FrameOk(bounded, limited, other, frames[other]); }
    }
  }

  // An execution leaves the pending hand for the frames.
  lemma FrameReenters(s: System, id: string, f: Frame)
    requires InvWith(s, InHand(id, f, true)) && id !in s.frames && FrameOk(s.isolation.Some?, s.quota.Some?, id, f)
    ensures Inv(s.(frames := s.frames[id := f]))
  {
    FramesGrow(s.isolation.Some?, s.quota.Some?, s.frames, id, f);
    HandsOk(s, id, f, true);
  }

  lemma FrameStarts(s: System, id: string, f: Frame)
    requires InvWith(s, InHand(id, f, false)) && id !in s.frames && FrameOk(s.isolation.Some?, s.quota.Some?, id, f)
    ensures Inv(s.(frames := s.frames[id := f]).Counted(ExecutionsTotal))
  {
    FramesGrow(s.isolation.Some?, s.quota.Some?, s.frames, id, f);
    HandsOk(s, id, f, false);
  }

  // A suspended execution is taken in hand.
  lemma FrameTaken(s: System, id: string)
    requires Inv(s) && id in s.frames
    ensures InvWith(s.(frames := s.frames - {id}), InHand(id, s.frames[id], true))
  {
    var f, s' := s.frames[id], s.(frames := s.frames - {id});
    assert s'.frames[id := f] == s.frames;
    forall other | other in s'.frames
      ensures FrameOk(s.isolation.Some?, s.quota.Some?, other, s'.frames[other])
    {
      assert FrameOk(s.isolation.Some?, s.quota.Some?, other, s.frames[other]);
    }
    HandsOk(s', id, f, true);
  }

  /* ----- Every step keeps the invariant ----- */

  lemma RejectKeeps(s: System, p: Pending, m: Metric, message: string)
    requires InvWith(s, p) && p.quota.None? && !p.inside && (p.slot.Some? ==> s.isolation.Some?)
    requires m !in {ExecutionsTotal, ExecutionsCompleted, ExecutionsFailed}
    ensures forall tenant: Option<string> | p.slot == (if s.isolation.Some? then tenant else None) ::
              Inv(s.Counted(m).Rejected(p.id, tenant, s.isolation.Some?, message))
  {
    forall tenant: Option<string> | p.slot == (if s.isolation.Some? then tenant else None)
      ensures Inv(s.Counted(m).Rejected(p.id, tenant, s.isolation.Some?, message))
    {
      EntryEnters(s, p, s.Counted(m).counters,
        Ended(p.id, tenant, s.isolation.Some?, false,
              Replied(ExecutionResult(false, p.id, None, "", Some(message), CREATED))));
    }
  }

  lemma BeginKeeps(s: System, id: string, intent: Intent, tenant: Option<string>, held: bool, now: real)
    requires InvWith(s, Pending(id, if s.isolation.Some? then tenant else None, if held then tenant else None, false))
    requires id !in s.frames && (s.isolation.Some? ==> tenant.Some?)
    requires held <==> s.quota.Some? && tenant.Some?
    ensures Inv(Begin(s, id, intent, tenant, held, now))
  {
    var p := Pending(id, if s.isolation.Some? then tenant else None, if held then tenant else None, false);
    if s.state == RUNNING {
      StartIsSound(id, intent, tenant, s.isolation.Some?, held, s.traced, now);
      FrameStarts(s, id, Start(id, intent, tenant, s.isolation.Some?, held, s.traced, now));
    } else {
      if held {
        DropQuota(s, p);
      }
      RejectKeeps(Release(s, tenant, id, held), p.(quota := None), ExecutionsRejected,
                  if s.state == DRAINING then "Runtime is draining" else "Runtime is stopped");
    }
  }

  lemma RateLimitedKeeps(s: System, p: Pending, tenant: string, q: Q.QuotaState)
    requires InvWith(s, p) && p.quota.None? && !p.inside && s.quota.Some?
    requires p.slot == if s.isolation.Some? then Some(tenant) else None
    requires q.active == s.quota.value.active && q.configs == s.quota.value.configs
    ensures Inv(s.(quota := Some(q)).Logged(Ended(p.id, Some(tenant), s.isolation.Some?, false, Threw(ZeroDivision))))
    ensures Inv(s.(quota := Some(q)).Counted(RateLimitHit)
                 .Rejected(p.id, Some(tenant), s.isolation.Some?, "Rate limit exceeded for tenant " + tenant))
  {
    RateTouched(s, p, q);
    var s' := s.(quota := Some(q));
    RejectKeeps(s', p, RateLimitHit, "Rate limit exceeded for tenant " + tenant);
    EntryEnters(s', p, s'.counters, Ended(p.id, Some(tenant), s.isolation.Some?, false, Threw(ZeroDivision)));
  }

  lemma AdmitQuotaKeeps(s: System, id: string, intent: Intent, tenant: Option<string>, now: real)
    requires InvWith(s, Pending(id, if s.isolation.Some? then tenant else None, None, false))
    requires id !in s.frames && (s.isolation.Some? ==> tenant.Some?)
    requires tenant.Some? ==> tenant.value != ""
    ensures Inv(AdmitQuota(s, id, intent, tenant, now))
  {
    var p := Pending(id, if s.isolation.Some? then tenant else None, None, false);
    if s.quota.None? || tenant.None? {
      BeginKeeps(s, id, intent, tenant, false, now);
    } else {
      var t := tenant.value;
      if !s.quota.value.HasRoom(t) {
        RejectKeeps(s, p, QuotaExceeded, "Concurrent execution limit exceeded for tenant " + t);
      } else {
        AdmitAtRateKeeps(s, id, intent, t, now);
      }
    }
  }

  lemma AdmitAtRateKeeps(s: System, id: string, intent: Intent, t: string, now: real)
    requires InvWith(s, Pending(id, if s.isolation.Some? then Some(t) else None, None, false))
    requires id !in s.frames && s.quota.Some? && s.quota.value.HasRoom(t)
    ensures Inv(AdmitAtRate(s, id, intent, t, now))
  {
    var p := Pending(id, if s.isolation.Some? then Some(t) else None, None, false);
    var q, call := s.quota.value, B.Consume(now, 1.0);
    if B.Grants(q.rate, Lookup(q.levels, t), call) {
      TakeQuota(s, p, q.Touched(t, call), t);
      BeginKeeps(s.(quota := Some(q.Touched(t, call).Started(t, id))), id, intent, Some(t), true, now);
    } else {
      RateLimitedKeeps(s, p, t, q.Touched(t, call).Touched(t, B.RetryAfter(now)));
    }
  }

  lemma AdmitKeeps(s: System, id: string, intent: Intent, now: real)
    requires Inv(s) && id !in s.frames
    ensures Inv(Admit(s, id, intent, now))
  {
    var tenant := if s.context.Some? then Some(s.context.value.tenantId) else None;
    Relabelled(s, NOTHING, Pending(id, None, None, false));
    if s.isolation.Some? && tenant.None? {
      EntryEnters(s, NOTHING, s.counters, Ended(id, None, false, false, Replied(ExecutionResult(false, id, None, "",
        Some("No tenant context - execution denied"), CREATED))));
    } else if s.isolation.None? {
      AdmitQuotaKeeps(s, id, intent, tenant, now);
    } else {
      var limit := s.isolation.value.CheckLimits(tenant.value);
      if limit.Some? {
        EntryEnters(s, NOTHING, s.counters, Ended(id, tenant, false, false, Threw(Denied(limit.value))));
      } else {
        TakeSlot(s, id, tenant.value);
        AdmitQuotaKeeps(s.(isolation := Some(s.isolation.value.Started(tenant.value))), id, intent, tenant, now);
      }
    }
  }

  // What is still in hand after the slot and the quota have been given back.
  ghost function Emptied(id: string, f: Frame, state: ExecutionState): Pending {
    Pending(id, if f.slotHeld && state != COMPLETED then f.tenant else None, None, true)
  }

  lemma HandEmpties(s: System, id: string, f: Frame, state: ExecutionState)
    requires InvWith(s, InHand(id, f, true)) && FrameOk(s.isolation.Some?, s.quota.Some?, id, f)
    ensures InvWith(Release(ReturnSlot(s, f.tenant, state), f.tenant, id, f.quotaHeld), Emptied(id, f, state))
  {
    var p := InHand(id, f, true);
    if state == COMPLETED && f.slotHeld {
      ReturnsSlot(s, p);
    }
    var p1 := if state == COMPLETED then p.(slot := None) else p;
    if f.quotaHeld {
      DropQuota(ReturnSlot(s, f.tenant, state), p1);
    }
  }

  lemma FinishKeeps(s: System, id: string, f: Frame, result: ExecutionResult, extra: Option<Metric>)
    requires InvWith(s, InHand(id, f, true)) && FrameOk(s.isolation.Some?, s.quota.Some?, id, f)
    requires result.executionId == id && result.state.Terminal()
    requires (result.success <==> result.state == COMPLETED) && (result.success <==> result.checkpointId.Some?)
    requires CountedOnce(extra)
    ensures Inv(Release(ReturnSlot(s, f.tenant, result.state), f.tenant, id, f.quotaHeld)
                .CountedEnd(extra, result.success).Logged(Ended(id, f.tenant, f.slotHeld, true, Replied(result))))
  {
    HandEmpties(s, id, f, result.state);
    EntryEnters(Release(ReturnSlot(s, f.tenant, result.state), f.tenant, id, f.quotaHeld), Emptied(id, f, result.state),
                s.CountedEnd(extra, result.success).counters,
                Ended(id, f.tenant, f.slotHeld, true, Replied(result)));
  }

  lemma SuspendKeeps(s: System, id: string, g: Frame)
    requires Inv(s) && id in s.frames && FrameOk(s.isolation.Some?, s.quota.Some?, id, g) && SameOwner(s.frames[id], g)
    ensures Inv(s.(frames := s.frames[id := g]))
  {
    FrameTaken(s, id);
    var taken := s.(frames := s.frames - {id});
    assert InHand(id, g, true) == InHand(id, s.frames[id], true);
    assert FrameOk(taken.isolation.Some?, taken.quota.Some?, id, g);
    FrameReenters(taken, id, g);
    assert taken.frames[id := g] == s.frames[id := g];
  }

  lemma ResumeKeeps(s: System, id: string, o: Outcome, now: real)
    requires Inv(s) && id in s.frames && s.frames[id].stage.Admits(o)
    ensures Inv(ResumeStep(s, id, o, now))
  {
    var f, p := s.frames[id], Resume(s.frames[id], o, now);
    assert FrameOk(s.isolation.Some?, s.quota.Some?, id, f);
    ResumeIsSound(f, o, now);
    if p.Waiting? {
      SuspendKeeps(s, id, p.frame);
    } else {
      FrameTaken(s, id);
      var taken := s.(frames := s.frames - {id});
      assert FrameOk(taken.isolation.Some?, taken.quota.Some?, id, f);
      FinishKeeps(taken, id, f, p.result, p.extra);
    }
  }
}
