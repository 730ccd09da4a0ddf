/** Runtime counters (kernel/observability/metrics.py). */
module Metrics {

  // The counters the runtime increments.
  datatype Metric =
    | ExecutionsTotal | ExecutionsFailed | ExecutionsCompleted | ExecutionsRejected
    | QuotaExceeded | RateLimitHit | PolicyRejected | CapabilityDenied
    | GatewayError | CheckpointError | ShutdownCount

  type Counters = map<Metric, int>

  function Get(c: Counters, m: Metric): int {
    if m in c then c[m] else 0
  }

  function Added(c: Counters, m: Metric, value: int): Counters {
    c[m := Get(c, m) + value]
  }

  function Incremented(c: Counters, m: Metric): Counters {
    Added(c, m, 1)
  }

  class MetricsRegistry {
    var counters: Counters

    constructor ()
      ensures counters == map[]
    {
      counters := map[];
    }

    method Increment(m: Metric, value: int := 1)
      modifies this
      ensures counters == Added(old(counters), m, value)
      ensures Get(counters, m) == (if m in old(counters) then old(counters)[m] else 0) + value
      ensures forall other | other != m :: Get(counters, other) == Get(old(counters), other)
    {
      counters := counters[m := (if m in counters then counters[m] else 0) + value];
    }
  }
}
