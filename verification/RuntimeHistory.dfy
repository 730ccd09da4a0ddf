/** What the history of a runtime says of its present: what a drain or a stop has
    done, and where each successful reply comes from. */
module RuntimeHistory {
  import opened Wrappers
  import opened ExecutionStates
  import opened GuardedExecution
  import opened RuntimeSystem
  import opened RuntimeSafety
  import AdmissionReplies

  /* ----- Runs by their prefixes ----- */

  // The state after the first n events.
  function At(s0: System, events: seq<Event>, n: nat): System
    requires n <= |events| && AllEnabled(s0, events)
  {
    Enabledness(s0, events, n);
    Run(s0, events[..n])
  }

  lemma {:induction false} Enabledness(s: System, events: seq<Event>, n: nat)
    requires n <= |events| && AllEnabled(s, events)
    ensures AllEnabled(s, events[..n])
    decreases |events|
  {
    if n > 0 {
      assert events[..n][1..] == events[1..][..n - 1];
      Enabledness(Step(s, events[0]), events[1..], n - 1);
    }
  }

  lemma {:induction false} AtNext(s: System, events: seq<Event>, n: nat)
    requires n < |events| && AllEnabled(s, events)
    ensures Enabled(At(s, events, n), events[n])
    ensures At(s, events, n + 1) == Step(At(s, events, n), events[n])
    decreases |events|
  {
    Enabledness(s, events, n + 1);
    if n > 0 {
      var s', rest := Step(s, events[0]), events[1..];
      AtNext(s', rest, n - 1);
      assert events[..n][1..] == rest[..n - 1] && events[..n + 1][1..] == rest[..n];
      assert At(s, events, n) == At(s', rest, n - 1) && At(s, events, n + 1) == At(s', rest, n);
    } else {
      assert events[..1][1..] == [];
      assert At(s, events, 1) == Run(Step(s, events[0]), []);
    }
  }

  lemma AtEnd(s: System, events: seq<Event>)
    requires AllEnabled(s, events)
    ensures At(s, events, |events|) == Run(s, events) && At(s, events, 0) == s
  {
    assert events[..|events|] == events && events[..0] == [];
  }

  lemma {:induction false} AtAdvances(s: System, events: seq<Event>, m: nat, n: nat)
    requires m <= n <= |events| && AllEnabled(s, events)
    ensures Advances(At(s, events, m), At(s, events, n))
    decreases n
  {
    if m < n {
      AtAdvances(s, events, m, n - 1);
      AtNext(s, events, n - 1);
      StepAdvances(At(s, events, n - 1), events[n - 1]);
      AdvancesTwice(At(s, events, m), At(s, events, n - 1), At(s, events, n));
    }
  }

  lemma {:induction false} AtIsSafe(s: System, events: seq<Event>, n: nat)
    requires n <= |events| && AllEnabled(s, events) && Inv(s)
    ensures Inv(At(s, events, n))
  {
    if n > 0 {
      AtIsSafe(s, events, n - 1);
      AtNext(s, events, n - 1);
      StepKeeps(At(s, events, n - 1), events[n - 1]);
    } else {
      AtEnd(s, events);
    }
  }

  /* ----- Shutdown ----- */

  /** What the two calls do: a drain takes a RUNNING runtime to DRAINING and leaves
      the others, a stop takes every runtime to STOPPED; nothing in flight is lost. */
  lemma ShutdownCalls(s: System)
    ensures Step(s, Drain).state == (if s.state == RUNNING then DRAINING else s.state)
    ensures Step(s, Stop).state == STOPPED
    ensures Step(s, Drain).frames == s.frames == Step(s, Stop).frames
    ensures Step(s, Drain).log == s.log == Step(s, Stop).log
  {
  }

  /** Shutdown takes effect and lasts: at every moment after a drain or a stop the
      runtime is not RUNNING, after a stop it is STOPPED, and nothing is in flight
      that was not when it was called. */
  lemma ShutdownTakesEffect(s0: System, events: seq<Event>, i: nat, n: nat)
    requires AllEnabled(s0, events) && i < n <= |events| && (events[i] == Drain || events[i] == Stop)
    ensures At(s0, events, n).state != RUNNING
    ensures events[i] == Stop ==> At(s0, events, n).state == STOPPED
    ensures At(s0, events, n).frames.Keys <= At(s0, events, i).frames.Keys
  {
    AtNext(s0, events, i);
    ShutdownCalls(At(s0, events, i));
    AtAdvances(s0, events, i + 1, n);
  }

  /** So all that a call made after it does is to log one unsuccessful reply from
      outside the guarded body: it is not in flight after its own step. */
  lemma RefusedAfterShutdown(s0: System, events: seq<Event>, i: nat, n: nat)
    requires Inv(s0) && AllEnabled(s0, events) && i < n < |events|
    requires (events[i] == Drain || events[i] == Stop) && events[n].Execute?
    ensures AdmissionReplies.OnlyRefused(At(s0, events, n), At(s0, events, n + 1))
  {
    ShutdownTakesEffect(s0, events, i, n);
    AtNext(s0, events, n);
    AtIsSafe(s0, events, n);
    AdmissionReplies.NotRunningRefuses(At(s0, events, n), events[n].id, events[n].intent, events[n].now);
  }

  /* ----- Where a successful reply comes from ----- */

  // The execution is suspended at its save, holding that data.
  ghost predicate Saving(s: System, id: string, data: string) {
    id in s.frames && s.frames[id].stage.SaveStage? && s.frames[id].toolData == data
  }

  // Event k resumed the execution from its tool with that value, and it has been
  // at its save since, up to moment n.
  ghost predicate ToolSaid(s0: System, events: seq<Event>, k: nat, n: nat, id: string, data: string)
    requires AllEnabled(s0, events) && n <= |events|
  {
    && k < n && events[k].Resumed? && events[k].id == id && events[k].outcome == Returned(data)
    && id in At(s0, events, k).frames && At(s0, events, k).frames[id].stage.ToolStage?
    && forall j | k < j <= n :: Saving(At(s0, events, j), id, data)
  }

  // A resumption that leaves an execution at its save comes from its tool.
  lemma SavingResume(f: Frame, o: Outcome, now: real)
    requires Sound(f) && f.stage.Admits(o) && Resume(f, o, now).Waiting? && Resume(f, o, now).frame.stage.SaveStage?
    ensures f.stage.ToolStage? && o == Returned(Resume(f, o, now).frame.toolData)
  {
    ResumeIsSound(f, o, now);
    ResumeReports(f, o, now);
  }

  // One step: a save in progress was in progress, or has just begun.
  lemma SavingStep(s: System, e: Event, id: string, data: string)
    requires Inv(s) && Enabled(s, e) && Saving(Step(s, e), id, data)
    ensures || Saving(s, id, data)
            || (e.Resumed? && e.id == id && e.outcome == Returned(data)
                && id in s.frames && s.frames[id].stage.ToolStage?)
  {
    match e
    case Execute(other, intent, now) =>
      AdmissionReplies.AdmissionOutcome(s, other, intent, now);
    case Resumed(other, o, now) =>
      var f := s.frames[other];
      assert FrameOk(s.isolation.Some?, s.quota.Some?, other, f);
      ApplyShape(s, other, Resume(f, o, now));
      if other == id {
        ResumeIsSound(f, o, now);
        SavingResume(f, o, now);
      }
    case _ =>
  }

  lemma {:induction false} SavingHasSource(s0: System, events: seq<Event>, n: nat, id: string, data: string)
    returns (k: nat)
    requires Initial(s0) && AllEnabled(s0, events) && n <= |events| && Saving(At(s0, events, n), id, data)
    ensures ToolSaid(s0, events, k, n, id, data)
  {
    InitialIsSafe(s0);
    AtEnd(s0, events);
    assert n > 0;
    var before := At(s0, events, n - 1);
    AtIsSafe(s0, events, n - 1);
    AtNext(s0, events, n - 1);
    SavingStep(before, events[n - 1], id, data);
    if Saving(before, id, data) {
      k := SavingHasSource(s0, events, n - 1, id, data);
    } else {
      k := n - 1;
    }
  }

  // A step that logs a success resumes a save, and takes the reply from it.
  lemma SuccessStep(s: System, e: Event)
    requires Inv(s) && Enabled(s, e) && |Step(s, e).log| == |s.log| + 1
    requires Step(s, e).log[|s.log|].Succeeded()
    ensures var entry := Step(s, e).log[|s.log|];
            && e.Resumed? && e.id == entry.id && Saving(s, e.id, entry.reply.result.data)
            && e.outcome.Returned? && entry.reply.result.checkpointId == Some(e.outcome.value)
  {
    match e
    case Execute(other, intent, now) => AdmitShape(s, other, intent, now);
    case Resumed(id, o, now) =>
      var f := s.frames[id];
      assert FrameOk(s.isolation.Some?, s.quota.Some?, id, f);
      ApplyShape(s, id, Resume(f, o, now));
      ResumeIsSound(f, o, now);
      ResumeReports(f, o, now);
    case _ =>
  }

  // The event that logged an entry.
  lemma {:induction false} Logged(s0: System, events: seq<Event>, n: nat, i: nat) returns (m: nat)
    requires Initial(s0) && AllEnabled(s0, events) && n <= |events| && i < |At(s0, events, n).log|
    ensures m < n && |At(s0, events, m).log| == i && |At(s0, events, m + 1).log| == i + 1
    ensures At(s0, events, m + 1).log[i] == At(s0, events, n).log[i]
  {
    AtEnd(s0, events);
    assert n > 0;
    AtNext(s0, events, n - 1);
    var s := At(s0, events, n - 1);
    OneEntryAStep(s, events[n - 1]);
    if i < |s.log| {
      m := Logged(s0, events, n - 1, i);
      assert At(s0, events, n).log[..|s.log|][i] == s.log[i];
    } else {
      m := n - 1;
    }
  }

  lemma OneEntryAStep(s: System, e: Event)
    requires Enabled(s, e)
    ensures |s.log| <= |Step(s, e).log| <= |s.log| + 1 && Step(s, e).log[..|s.log|] == s.log
  {
    match e
    case Execute(id, intent, now) => AdmitShape(s, id, intent, now);
    case Resumed(id, o, now) => ApplyShape(s, id, Resume(s.frames[id], o, now));
    case _ =>
  }

  /** Where every successful reply comes from: event m resumed this execution from
      its save with the reply's checkpoint id, and an earlier event k had resumed it
      from its tool with the reply's data; in between it was at its save. */
  lemma SuccessHasSources(s0: System, events: seq<Event>, i: nat) returns (k: nat, m: nat)
    requires Initial(s0) && AllEnabled(s0, events)
    requires i < |Run(s0, events).log| && Run(s0, events).log[i].Succeeded()
    ensures m < |events|
    ensures ToolSaid(s0, events, k, m, Run(s0, events).log[i].id, Run(s0, events).log[i].reply.result.data)
    ensures events[m].Resumed? && events[m].id == Run(s0, events).log[i].id && events[m].outcome.Returned?
    ensures Run(s0, events).log[i].reply.result.checkpointId == Some(events[m].outcome.value)
    ensures |At(s0, events, m).log| == i
  {
    InitialIsSafe(s0);
    AtEnd(s0, events);
    m := Logged(s0, events, |events|, i);
    AtIsSafe(s0, events, m);
    AtNext(s0, events, m);
    SuccessStep(At(s0, events, m), events[m]);
    var reply := Run(s0, events).log[i].reply.result;
    k := SavingHasSource(s0, events, m, events[m].id, reply.data);
  }
}
