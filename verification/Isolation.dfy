/** Tenant registration, ownership checks and execution slots (kernel/isolation.py). */
module Isolation {
  import opened Wrappers

  datatype TenantModel = TenantModel(tenantId: string, name: string, maxConcurrentExecutions: int)
  {
    predicate IsValid() { tenantId != "" && name != "" }
  }

  datatype TenantContext = TenantContext(tenantId: string, agentId: string)
  {
    predicate IsValid() { tenantId != "" && agentId != "" }
  }

  datatype IsolationError =
    | InvalidTenant
    | MissingTenantContext
    | TenantNotFound(tenantId: string)
    | AgentNotInTenant(agentId: string, expected: string, actual: Option<string>)
    | CrossTenantAccess(requesting: string, target: string)
    | CrossAgentAccess(requestingAgent: string, targetAgent: string)
    | ResourceLimitExceeded(tenant: string, current: int, maximum: int)

  // The state of a boundary: tenants, the tenant of each agent, slots in use.
  datatype IsolationState = IsolationState(
    tenants: map<string, TenantModel>, agents: map<string, string>, counts: map<string, int>)
  {
    function Count(tenant: string): int {
      if tenant in counts then counts[tenant] else 0
    }

    function CheckContext(c: TenantContext): Option<IsolationError> {
      if !c.IsValid() then Some(MissingTenantContext)
      else if c.tenantId !in tenants then Some(TenantNotFound(c.tenantId))
      else if Lookup(agents, c.agentId) != Some(c.tenantId)
      then Some(AgentNotInTenant(c.agentId, c.tenantId, Lookup(agents, c.agentId)))
      else None
    }

    function CheckLimits(tenant: string): Option<IsolationError> {
      if tenant !in tenants then Some(TenantNotFound(tenant))
      else if Count(tenant) >= tenants[tenant].maxConcurrentExecutions
      then Some(ResourceLimitExceeded(tenant, Count(tenant), tenants[tenant].maxConcurrentExecutions))
      else None
    }

    function Started(tenant: string): IsolationState {
      this.(counts := counts[tenant := Count(tenant) + 1])
    }

    // The count is clamped at zero.
    function Ended(tenant: string): IsolationState {
      this.(counts := counts[tenant := if Count(tenant) - 1 < 0 then 0 else Count(tenant) - 1])
    }

    function TenantAdded(t: TenantModel): IsolationState {
      if t.IsValid() then this.(tenants := tenants[t.tenantId := t]) else this
    }

    function AgentAdded(agent: string, tenant: string): IsolationState {
      if tenant in tenants then this.(agents := agents[agent := tenant]) else this
    }
  }

  class IsolationBoundary {
    var tenants: map<string, TenantModel>
    var agents: map<string, string>
    var executionCounts: map<string, int>

    constructor ()
      ensures View() == IsolationState(map[], map[], map[])
    {
      tenants, agents, executionCounts := map[], map[], map[];
    }

    ghost function View(): IsolationState
      reads this
    {
      IsolationState(tenants, agents, executionCounts)
    }

    method RegisterTenant(t: TenantModel) returns (e: Option<IsolationError>)
      modifies this
      ensures View() == old(View()).TenantAdded(t)
      ensures e.None? <==> t.tenantId != "" && t.name != ""
      ensures e.None? ==> tenants == old(tenants)[t.tenantId := t]
      ensures e.Some? ==> e.value == InvalidTenant && tenants == old(tenants)
      ensures agents == old(agents) && executionCounts == old(executionCounts)
    {
      if !t.IsValid() {
        return Some(InvalidTenant);
      }
      tenants := tenants[t.tenantId := t];
      return None;
    }

    method RegisterAgent(agent: string, tenant: string) returns (e: Option<IsolationError>)
      modifies this
      ensures View() == old(View()).AgentAdded(agent, tenant)
      ensures e == if tenant in old(tenants) then None else Some(TenantNotFound(tenant))
      ensures agents == if tenant in old(tenants) then old(agents)[agent := tenant] else old(agents)
      ensures tenants == old(tenants) && executionCounts == old(executionCounts)
    {
      if tenant !in tenants {
        return Some(TenantNotFound(tenant));
      }
      agents := agents[agent := tenant];
      return None;
    }

    method ValidateAgentScope(agent: string, tenant: string) returns (e: Option<IsolationError>)
      ensures e.None? <==> agent in agents && agents[agent] == tenant
      ensures e.Some? ==> e.value == AgentNotInTenant(agent, tenant, Lookup(agents, agent))
    {
      if agent !in agents {
        return Some(AgentNotInTenant(agent, tenant, None));
      }
      if agents[agent] != tenant {
        return Some(AgentNotInTenant(agent, tenant, Some(agents[agent])));
      }
      return None;
    }

    method ValidateTenantContext(c: TenantContext) returns (e: Option<IsolationError>)
      ensures e == View().CheckContext(c)
      ensures e.None? <==> c.tenantId != "" && c.agentId != "" && c.tenantId in tenants
                           && c.agentId in agents && agents[c.agentId] == c.tenantId
      ensures e == Some(MissingTenantContext) <==> c.tenantId == "" || c.agentId == ""
      ensures e == Some(TenantNotFound(c.tenantId)) <==>
                c.tenantId != "" && c.agentId != "" && c.tenantId !in tenants
      ensures e.Some? && e.value.AgentNotInTenant? ==>
                && e.value.agentId == c.agentId && e.value.expected == c.tenantId
                && e.value.actual == (if c.agentId in agents then Some(agents[c.agentId]) else None)
    {
      if !c.IsValid() {
        return Some(MissingTenantContext);
      }
      if c.tenantId !in tenants {
        return Some(TenantNotFound(c.tenantId));
      }
      e := ValidateAgentScope(c.agentId, c.tenantId);
    }

    method CheckResourceLimits(tenant: string) returns (e: Option<IsolationError>)
      ensures e == View().CheckLimits(tenant)
      ensures var current := if tenant in executionCounts then executionCounts[tenant] else 0;
              && (e.None? <==> tenant in tenants && current < tenants[tenant].maxConcurrentExecutions)
              && (tenant !in tenants ==> e == Some(TenantNotFound(tenant)))
              && (e.Some? && tenant in tenants ==>
                    e.value == ResourceLimitExceeded(tenant, current, tenants[tenant].maxConcurrentExecutions))
    {
      if tenant !in tenants {
        return Some(TenantNotFound(tenant));
      }
      var current := if tenant in executionCounts then executionCounts[tenant] else 0;
      var maximum := tenants[tenant].maxConcurrentExecutions;
      if current >= maximum {
        return Some(ResourceLimitExceeded(tenant, current, maximum));
      }
      return None;
    }

    method StartExecution(tenant: string)
      modifies this
      ensures View() == old(View()).Started(tenant)
      ensures executionCounts
           == old(executionCounts)[tenant :=
                (if tenant in old(executionCounts) then old(executionCounts)[tenant] else 0) + 1]
    {
      var current := if tenant in executionCounts then executionCounts[tenant] else 0;
      executionCounts := executionCounts[tenant := current + 1];
    }

    method EndExecution(tenant: string)
      modifies this
      ensures View() == old(View()).Ended(tenant)
      ensures var count := if tenant in old(executionCounts) then old(executionCounts)[tenant] else 0;
              executionCounts == old(executionCounts)[tenant := if count >= 1 then count - 1 else 0]
    {
      var current := if tenant in executionCounts then executionCounts[tenant] else 0;
      executionCounts := executionCounts[tenant := if current - 1 < 0 then 0 else current - 1];
    }
  }

  // The owner of a state or a checkpoint.
  datatype Owner = Owner(tenant: string, agent: string)

  /** Access is granted to the owner and to nobody else; a tenant mismatch is
      reported before an agent mismatch. */
  function ValidateOwner(owner: Owner, requester: Owner): (e: Option<IsolationError>)
    ensures e.None? <==> owner == requester
    ensures e.Some? && e.value.CrossTenantAccess? <==> owner.tenant != requester.tenant
  {
    if owner.tenant != requester.tenant then Some(CrossTenantAccess(requester.tenant, owner.tenant))
    else if owner.agent != requester.agent then Some(CrossAgentAccess(requester.agent, owner.agent))
    else None
  }
}
