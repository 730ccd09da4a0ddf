/** Phase tracing of one execution (kernel/observability/tracing.py). */
module Tracing {
  import opened Wrappers

  datatype TracePhase =
    | INTENT_RECEIVED | POLICY_EVALUATION | CAPABILITY_CHECK | INTENT_ROUTING
    | TOOL_EXECUTION | CHECKPOINT_SAVE | EXECUTION_COMPLETED

  datatype TraceEntry = TraceEntry(
    phase: TracePhase, startTime: real, endTime: real, durationMs: real, success: bool, error: Option<string>)

  datatype OpenPhase = OpenPhase(phase: TracePhase, start: real)

  datatype Trace = Trace(entries: seq<TraceEntry>, current: Option<OpenPhase>)
  {
    function End(success: bool, error: Option<string>, now: real): Trace
      requires current.Some?
    {
      var e := TraceEntry(current.value.phase, current.value.start, now,
                          (now - current.value.start) * 1000.0, success, error);
      Trace(entries + [e], None)
    }

    // Starting a phase ends the one still open, as a success.
    function Start(phase: TracePhase, now: real): Trace {
      (if current.Some? then End(true, None, now) else this).(current := Some(OpenPhase(phase, now)))
    }

    function Phases(): (p: seq<TracePhase>)
      ensures |p| == |entries|
    {
      seq(|entries|, i requires 0 <= i < |entries| => entries[i].phase)
    }
  }

  function FailureCount(entries: seq<TraceEntry>): nat {
    if entries == [] then 0
    else FailureCount(entries[..|entries| - 1]) + (if entries[|entries| - 1].success then 0 else 1)
  }

  function TotalDuration(entries: seq<TraceEntry>): real {
    if entries == [] then 0.0
    else TotalDuration(entries[..|entries| - 1]) + entries[|entries| - 1].durationMs
  }

  lemma {:induction false} NoFailureIffAllSucceed(entries: seq<TraceEntry>)
    ensures FailureCount(entries) == 0 <==> forall e | e in entries :: e.success
  {
    if entries != [] {
      var n := |entries| - 1;
      NoFailureIffAllSucceed(entries[..n]);
      assert entries == entries[..n] + [entries[n]];
    }
  }

  /** The total is the sum over any two parts, and that of one entry its own
      duration; so with the count of failures. */
  lemma {:induction false} TotalsAdd(a: seq<TraceEntry>, b: seq<TraceEntry>)
    ensures TotalDuration(a + b) == TotalDuration(a) + TotalDuration(b)
    ensures FailureCount(a + b) == FailureCount(a) + FailureCount(b)
    ensures |b| == 1 ==> TotalDuration(b) == b[0].durationMs && FailureCount(b) == if b[0].success then 0 else 1
  {
    if b == [] {
      assert a + b == a;
    } else {
      var n := |b| - 1;
      assert (a + b)[..|a + b| - 1] == a + b[..n];
      TotalsAdd(a, b[..n]);
    }
  }

  datatype TraceStatus = SUCCESS | FAILURE

  datatype Summary = Summary(
    totalDurationMs: real, phaseCount: nat, phases: seq<TracePhase>, failures: nat, status: TraceStatus)

  class ExecutionTracer {
    var entries: seq<TraceEntry>
    var currentPhase: Option<TracePhase>
    var currentStart: real

    constructor ()
      ensures View() == Trace([], None)
    {
      entries := [];
      currentPhase := None;
      currentStart := 0.0;
    }

    ghost function View(): Trace
      reads this
    {
      Trace(entries, if currentPhase.Some? then Some(OpenPhase(currentPhase.value, currentStart)) else None)
    }

    method StartPhase(phase: TracePhase, now: real)
      modifies this
      ensures View() == old(View()).Start(phase, now)
      ensures currentPhase == Some(phase) && currentStart == now
      ensures old(currentPhase).None? ==> entries == old(entries)
      ensures old(currentPhase).Some? ==>
                entries == old(entries) + [TraceEntry(old(currentPhase).value, old(currentStart), now,
                                                      (now - old(currentStart)) * 1000.0, true, None)]
    {
      if currentPhase != None {
        var _ := EndPhase(true, None, now);
      }
      currentPhase := Some(phase);
      currentStart := now;
    }

    // Err is the RuntimeError raised when no phase is open.
    method EndPhase(success: bool, error: Option<string>, now: real) returns (r: Result<TraceEntry, string>)
      modifies this
      ensures old(View()).current.None? ==> r.Err? && View() == old(View())
      ensures old(View()).current.Some? ==>
                && View() == old(View()).End(success, error, now)
                && r == Ok(View().entries[|View().entries| - 1])
      ensures old(currentPhase).Some? ==>
                && currentPhase == None
                && entries == old(entries) + [TraceEntry(old(currentPhase).value, old(currentStart), now,
                                                         (now - old(currentStart)) * 1000.0, success, error)]
    {
      if currentPhase == None {
        return Err("No active phase to end");
      }
      var duration := (now - currentStart) * 1000.0;
      var entry := TraceEntry(currentPhase.value, currentStart, now, duration, success, error);
      entries := entries + [entry];
      currentPhase := None;
      currentStart := 0.0;
      r := Ok(entry);
    }

    /** The summary calls a run a failure exactly when some entry failed. */
    method GetSummary() returns (s: Summary)
      ensures s.totalDurationMs == TotalDuration(entries) && s.failures == FailureCount(entries)
      ensures s.phaseCount == |entries| && s.phases == View().Phases()
      ensures s.status.FAILURE? <==> exists e :: e in entries && !e.success
    {
      var total, phases, failures := 0.0, [], 0;
      for i := 0 to |entries|
        invariant total == TotalDuration(entries[..i])
        invariant phases == View().Phases()[..i]
        invariant failures == FailureCount(entries[..i])
      {
        assert entries[..i + 1][..i] == entries[..i];
        total := total + entries[i].durationMs;
        phases := phases + [entries[i].phase];
        failures := failures + (if entries[i].success then 0 else 1);
      }
      assert entries[..|entries|] == entries;
      NoFailureIffAllSucceed(entries);
      s := Summary(total, |entries|, phases, failures, if failures > 0 then FAILURE else SUCCESS);
    }

    method Clear()
      modifies this
      ensures View() == Trace([], None)
    {
      entries, currentPhase, currentStart := [], None, 0.0;
    }
  }
}
