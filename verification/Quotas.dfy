/** The per-tenant rate limiter and the quota manager (api/rest/quotas.py). */
module Quotas {
  import opened Wrappers
  import opened BucketArithmetic

  /* ----- What the limiter computes, on values ----- */

  type Levels = map<string, Level>

  datatype Action = Touch(call: Call) | Reset

  datatype Request = Request(tenant: string, action: Action)

  function LimiterStep(c: Config, levels: Levels, request: Request): Levels {
    match request.action
    case Touch(call) => levels[request.tenant := After(c, Lookup(levels, request.tenant), call)]
    case Reset => levels - {request.tenant}
  }

  function LimiterRun(c: Config, log: seq<Request>): Levels {
    if log == [] then map[]
    else LimiterStep(c, LimiterRun(c, log[..|log| - 1]), log[|log| - 1])
  }

  // The calls of one tenant since its last reset.
  function OwnCalls(log: seq<Request>, tenant: string): seq<Call> {
    if log == [] then []
    else
      var earlier, last := OwnCalls(log[..|log| - 1], tenant), log[|log| - 1];
      if last.tenant != tenant then earlier
      else if last.action.Reset? then []
      else earlier + [last.action.call]
  }

  /** A tenant's bucket is the run of its own calls since its last reset,
      whatever the other tenants did in between. */
  lemma {:induction false} TenantsAreIndependent(c: Config, log: seq<Request>, tenant: string)
    ensures Lookup(LimiterRun(c, log), tenant) == Run(c, OwnCalls(log, tenant))
  {
    if log != [] {
      var earlier := log[..|log| - 1];
      TenantsAreIndependent(c, earlier, tenant);
      var own := OwnCalls(earlier, tenant);
      var last := log[|log| - 1];
      if last.tenant == tenant && last.action.Touch? {
        assert (own + [last.action.call])[..|own|] == own;
      }
    }
  }

  /** So two logs in which a tenant made the same calls give it the same answer
      to every next request. */
  lemma SameCallsSameAnswers(c: Config, log: seq<Request>, other: seq<Request>, tenant: string, call: Call)
    requires OwnCalls(log, tenant) == OwnCalls(other, tenant)
    ensures Grants(c, Lookup(LimiterRun(c, log), tenant), call)
         == Grants(c, Lookup(LimiterRun(c, other), tenant), call)
    ensures Access(c, Lookup(LimiterRun(c, log), tenant), call.now)
         == Access(c, Lookup(LimiterRun(c, other), tenant), call.now)
  {
    TenantsAreIndependent(c, log, tenant);
    TenantsAreIndependent(c, other, tenant);
  }

  /* ----- The limiter object ----- */

  class TokenBucket {
    var tokens: real
    const config: Config
    var lastRefill: real

    constructor (config: Config, now: real)
      ensures tokens == config.maxTokens && this.config == config && lastRefill == now
    {
      tokens := config.maxTokens;
      this.config := config;
      lastRefill := now;
    }

    ghost function Value(): Level
      reads this
    {
      Level(tokens, lastRefill)
    }
  }

  class TokenBucketRateLimiter {
    const config: Config
    var buckets: map<string, TokenBucket>

    ghost predicate Valid()
      reads this, buckets.Values
    {
      && (forall t | t in buckets :: buckets[t].config == config)
      && (forall s, t | s in buckets && t in buckets && s != t :: buckets[s] != buckets[t])
    }

    ghost function View(): Levels
      reads this, buckets.Values
    {
      map t | t in buckets :: buckets[t].Value()
    }

    constructor (maxTokens: real := 100.0, refillRate: real := 10.0)
      ensures Valid() && config == Config(maxTokens, refillRate)
      ensures buckets == map[] && View() == map[]
    {
      config := Config(maxTokens, refillRate);
      buckets := map[];
    }

    method GetBucket(tenant: string, now: real) returns (b: TokenBucket)
      requires Valid()
      modifies this
      ensures Valid() && fresh(buckets.Values - old(buckets.Values))
      ensures tenant in buckets && buckets[tenant] == b
      ensures buckets == old(buckets)[tenant := b]
      ensures tenant in old(buckets) ==> b == old(buckets)[tenant]
      ensures tenant !in old(buckets) ==> fresh(b) && b.Value() == Level(config.maxTokens, now)
    {
      if tenant !in buckets {
        var made := new TokenBucket(config, now);
        buckets := buckets[tenant := made];
      }
      b := buckets[tenant];
    }

    method RefillBucket(b: TokenBucket, now: real)
      modifies b
      ensures b.Value() == Refill(b.config, old(b.Value()), now)
      ensures b.lastRefill == now
      ensures var grown := old(b.tokens) + (now - old(b.lastRefill)) * b.config.refillRate;
              && b.tokens <= grown && b.tokens <= b.config.maxTokens
              && (b.tokens == grown || b.tokens == b.config.maxTokens)
    {
      var elapsed := now - b.lastRefill;
      var grown := b.tokens + elapsed * b.config.refillRate;
      b.tokens := if grown < b.config.maxTokens then grown else b.config.maxTokens;
      b.lastRefill := now;
    }

    // The tenant's bucket, refilled: where both questions below begin.
    method RefilledBucket(tenant: string, now: real) returns (b: TokenBucket)
      requires Valid()
      modifies this, buckets.Values
      ensures Valid() && fresh(buckets.Values - old(buckets.Values))
      ensures tenant in buckets && buckets[tenant] == b && b.config == config
      ensures View() == old(View())[tenant := Access(config, Lookup(old(View()), tenant), now)]
    {
      b := GetBucket(tenant, now);
      RefillBucket(b, now);
      assert b.Value() == Access(config, Lookup(old(View()), tenant), now);
      forall t | t in buckets && t != tenant ensures View()[t] == old(View())[t] {
        assert buckets[t] != b;
      }
    }

    method Consume(tenant: string, tokens: real, now: real) returns (allowed: bool)
      requires Valid()
      modifies this, buckets.Values
      ensures Valid() && fresh(buckets.Values - old(buckets.Values))
      ensures allowed == Grants(config, Lookup(old(View()), tenant), Call.Consume(now, tokens))
      ensures View() == LimiterStep(config, old(View()), Request(tenant, Touch(Call.Consume(now, tokens))))
    {
      var b := RefilledBucket(tenant, now);
      assert b.Value() == View()[tenant];
      allowed := b.tokens >= tokens;
      if allowed {
        b.tokens := b.tokens - tokens;
      }
    }

    // None is the ZeroDivisionError of a bucket that never refills.
    method RetryAfter(tenant: string, now: real) returns (wait: Option<real>)
      requires Valid()
      modifies this, buckets.Values
      ensures Valid() && fresh(buckets.Values - old(buckets.Values))
      ensures wait == RetryAnswer(config, Access(config, Lookup(old(View()), tenant), now))
      ensures View() == LimiterStep(config, old(View()), Request(tenant, Touch(Call.RetryAfter(now))))
    {
      var b := RefilledBucket(tenant, now);
      assert b.Value() == View()[tenant];
      var deficit := 1.0 - b.tokens;
      if deficit <= 0.0 {
        return Some(0.0);
      }
      if b.config.refillRate == 0.0 {
        return None;
      }
      return Some(deficit / b.config.refillRate);
    }

    method Reset(tenant: string)
      requires Valid()
      modifies this
      ensures Valid() && buckets.Values <= old(buckets.Values)
      ensures View() == LimiterStep(config, old(View()), Request(tenant, Action.Reset))
    {
      buckets := buckets - {tenant};
    }
  }

  /* ----- The quota manager ----- */

  datatype TenantQuotaConfig = TenantQuotaConfig(
    maxConcurrent: int := 5, maxTotalPerMinute: int := 60, maxStepsPerExecution: int := 10)

  datatype QuotaState = QuotaState(
    rate: Config, levels: Levels, active: map<string, set<string>>, configs: map<string, TenantQuotaConfig>)
  {
    function Limit(tenant: string): int {
      if tenant in configs then configs[tenant].maxConcurrent else TenantQuotaConfig().maxConcurrent
    }

    function ActiveOf(tenant: string): set<string> {
      if tenant in active then active[tenant] else {}
    }

    predicate HasRoom(tenant: string) {
      |ActiveOf(tenant)| < Limit(tenant)
    }

    function Touched(tenant: string, call: Call): QuotaState {
      this.(levels := LimiterStep(rate, levels, Request(tenant, Touch(call))))
    }

    function Started(tenant: string, id: string): QuotaState {
      this.(active := active[tenant := ActiveOf(tenant) + {id}])
    }

    function Ended(tenant: string, id: string): QuotaState {
      if tenant in active then this.(active := active[tenant := active[tenant] - {id}]) else this
    }
  }

  class QuotaManager {
    const rateLimiter: TokenBucketRateLimiter
    var concurrent: map<string, set<string>>
    var configs: map<string, TenantQuotaConfig>

    ghost predicate Valid()
      reads this, rateLimiter, rateLimiter.buckets.Values
    {
      rateLimiter.Valid()
    }

    ghost function Footprint(): set<object>
      reads this, rateLimiter
    {
      {this, rateLimiter} + rateLimiter.buckets.Values
    }

    ghost function View(): QuotaState
      reads this, rateLimiter, rateLimiter.buckets.Values
    {
      QuotaState(rateLimiter.config, rateLimiter.View(), concurrent, configs)
    }

    constructor (limiter: TokenBucketRateLimiter?)
      requires limiter != null ==> limiter.Valid()
      ensures Valid() && concurrent == map[] && configs == map[]
      ensures limiter != null ==> rateLimiter == limiter
      ensures limiter == null ==> fresh(rateLimiter)
      ensures limiter == null ==> rateLimiter.config == Config(100.0, 10.0) && rateLimiter.View() == map[]
    {
      var own := limiter;
      if limiter == null {
        own := new TokenBucketRateLimiter();
      }
      rateLimiter := own;
      concurrent := map[];
      configs := map[];
    }

    method Configure(tenant: string, config: TenantQuotaConfig)
      modifies this
      ensures configs == old(configs)[tenant := config] && concurrent == old(concurrent)
    {
      configs := configs[tenant := config];
    }

    method CheckConcurrent(tenant: string) returns (ok: bool)
      requires Valid()
      ensures ok == View().HasRoom(tenant)
      ensures ok <==> (if tenant in concurrent then |concurrent[tenant]| else 0)
                      < (if tenant in configs then configs[tenant].maxConcurrent else 5)
    {
      var config := if tenant in configs then configs[tenant] else TenantQuotaConfig();
      var count := if tenant in concurrent then |concurrent[tenant]| else 0;
      ok := count < config.maxConcurrent;
    }

    method StartExecution(tenant: string, id: string)
      requires Valid()
      modifies this
      ensures Valid() && View() == old(View()).Started(tenant, id)
      ensures concurrent == old(concurrent)[tenant :=
                (if tenant in old(concurrent) then old(concurrent)[tenant] else {}) + {id}]
    {
      var execs := if tenant in concurrent then concurrent[tenant] else {};
      concurrent := concurrent[tenant := execs + {id}];
    }

    method EndExecution(tenant: string, id: string)
      requires Valid()
      modifies this
      ensures Valid() && View() == old(View()).Ended(tenant, id)
      ensures concurrent == if tenant in old(concurrent)
                            then old(concurrent)[tenant := old(concurrent)[tenant] - {id}] else old(concurrent)
    {
      if tenant in concurrent && concurrent[tenant] != {} {
        concurrent := concurrent[tenant := concurrent[tenant] - {id}];
      } else if tenant in concurrent {
        assert concurrent[tenant] - {id} == concurrent[tenant];
        assert concurrent[tenant := concurrent[tenant]] == concurrent;
      }
    }

    method CheckAndConsumeRate(tenant: string, now: real) returns (ok: bool)
      requires Valid()
      modifies rateLimiter, rateLimiter.buckets.Values
      ensures Valid() && fresh(rateLimiter.buckets.Values - old(rateLimiter.buckets.Values))
      ensures ok == Grants(old(View()).rate, Lookup(old(View()).levels, tenant), Consume(now, 1.0))
      ensures View() == old(View()).Touched(tenant, Consume(now, 1.0))
    {
      ok := rateLimiter.Consume(tenant, 1.0, now);
    }

    method RetryAfter(tenant: string, now: real) returns (wait: Option<real>)
      requires Valid()
      modifies rateLimiter, rateLimiter.buckets.Values
      ensures Valid() && fresh(rateLimiter.buckets.Values - old(rateLimiter.buckets.Values))
      ensures wait == RetryAnswer(old(View()).rate, Access(old(View()).rate, Lookup(old(View()).levels, tenant), now))
      ensures View() == old(View()).Touched(tenant, Call.RetryAfter(now))
    {
      wait := rateLimiter.RetryAfter(tenant, now);
    }

    method Cleanup(tenant: string)
      requires Valid()
      modifies this, rateLimiter
      ensures Valid() && rateLimiter.buckets.Values <= old(rateLimiter.buckets.Values)
      ensures View() == old(View()).(
                active := old(concurrent) - {tenant},
                levels := LimiterStep(old(View()).rate, old(View()).levels, Request(tenant, Reset)))
    {
      concurrent := concurrent - {tenant};
      rateLimiter.Reset(tenant);
    }
  }
}
