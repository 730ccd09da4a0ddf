/** The arithmetic of one token bucket, described over whole runs of calls.
    The clock is an argument of every call; amounts are real numbers. */
module BucketArithmetic {
  import opened Wrappers

  datatype Config = Config(maxTokens: real, refillRate: real)

  // What the limiter remembers of one tenant.
  datatype Level = Level(tokens: real, lastRefill: real)

  // The calls that touch a bucket.
  datatype Call = Consume(now: real, amount: real) | RetryAfter(now: real)

  // The tokens that drip in between two instants.
  function Accrued(c: Config, from: real, to: real): real {
    (to - from) * c.refillRate
  }

  function Refill(c: Config, l: Level, now: real): Level {
    var grown := l.tokens + Accrued(c, l.lastRefill, now);
    Level(if grown < c.maxTokens then grown else c.maxTokens, now)
  }

  // A tenant without a bucket gets a full one on its first call.
  function Access(c: Config, bucket: Option<Level>, now: real): Level {
    Refill(c, if bucket.Some? then bucket.value else Level(c.maxTokens, now), now)
  }

  predicate Grants(c: Config, bucket: Option<Level>, call: Call) {
    call.Consume? && Access(c, bucket, call.now).tokens >= call.amount
  }

  function Taken(c: Config, bucket: Option<Level>, call: Call): real {
    if Grants(c, bucket, call) then call.amount else 0.0
  }

  function After(c: Config, bucket: Option<Level>, call: Call): Level {
    var l := Access(c, bucket, call.now);
    l.(tokens := l.tokens - Taken(c, bucket, call))
  }

  // None stands for the division by a zero refill rate.
  function RetryAnswer(c: Config, refilled: Level): Option<real> {
    var deficit := 1.0 - refilled.tokens;
    if deficit <= 0.0 then Some(0.0)
    else if c.refillRate == 0.0 then None
    else Some(deficit / c.refillRate)
  }

  /* ----- Runs ----- */

  function Run(c: Config, calls: seq<Call>): Option<Level> {
    if calls == [] then None
    else Some(After(c, Run(c, calls[..|calls| - 1]), calls[|calls| - 1]))
  }

  // Tokens granted to the calls numbered `from` and later.
  function GrantedSince(c: Config, calls: seq<Call>, from: nat): real {
    if |calls| <= from then 0.0
    else
      var before := calls[..|calls| - 1];
      var last := calls[|calls| - 1];
      GrantedSince(c, before, from) + (if Grants(c, Run(c, before), last) then last.amount else 0.0)
  }

  // The time of the last call.
  function Latest(calls: seq<Call>): real
    requires calls != []
  {
    calls[|calls| - 1].now
  }

  // What the window that opens at call i still allows at time `now`.
  function Headroom(c: Config, calls: seq<Call>, i: nat, now: real): real
    requires i < |calls|
  {
    c.maxTokens + Accrued(c, calls[i].now, now) - GrantedSince(c, calls, i)
  }

  lemma AccruedAdds(c: Config, r: real, s: real, t: real)
    ensures Accrued(c, r, s) + Accrued(c, s, t) == Accrued(c, r, t)
  {
    calc {
      (s - r) * c.refillRate + (t - s) * c.refillRate;
      ((s - r) + (t - s)) * c.refillRate;
      (t - r) * c.refillRate;
    }
  }

  lemma AccruedGrows(c: Config, s: real, t: real)
    requires c.refillRate >= 0.0 && s <= t
    ensures Accrued(c, s, t) >= 0.0
  {
  }

  // One more call moves every open window by what accrued and what was taken.
  lemma HeadroomMoves(c: Config, calls: seq<Call>, call: Call, i: nat)
    requires i < |calls|
    ensures Headroom(c, calls + [call], i, call.now)
         == Headroom(c, calls, i, Latest(calls))
          + Accrued(c, Latest(calls), call.now) - Taken(c, Run(c, calls), call)
  {
    assert (calls + [call])[..|calls|] == calls;
    AccruedAdds(c, calls[i].now, Latest(calls), call.now);
  }

  /** The exact envelope: the level is the least headroom over all windows
      that open at a call made so far. No assumption on the clock, the rate or
      the amounts. */
  lemma {:induction false} LevelIsLeastHeadroom(c: Config, calls: seq<Call>)
    requires calls != []
    ensures Run(c, calls).Some? && Run(c, calls).value.lastRefill == Latest(calls)
    ensures forall i | 0 <= i < |calls| ::
              Run(c, calls).value.tokens <= Headroom(c, calls, i, Latest(calls))
    ensures exists i :: 0 <= i < |calls|
              && Run(c, calls).value.tokens == Headroom(c, calls, i, Latest(calls))
  {
    var n := |calls| - 1;
    var before, call := calls[..n], calls[n];
    assert calls == before + [call];
    assert GrantedSince(c, calls, n) == Taken(c, Run(c, before), call);
    assert Headroom(c, calls, n, call.now) == c.maxTokens - Taken(c, Run(c, before), call);
    if before != [] {
      LevelIsLeastHeadroom(c, before);
      forall i | 0 <= i < n
        ensures Run(c, calls).value.tokens <= Headroom(c, calls, i, call.now)
      {
        HeadroomMoves(c, before, call, i);
      }
      var k :| 0 <= k < n && Run(c, before).value.tokens == Headroom(c, before, k, Latest(before));
      HeadroomMoves(c, before, call, k);
    }
  }

  // What one earlier access, at time `from`, still allows at time `now`.
  ghost predicate Allows(c: Config, from: real, now: real, granted: real, level: real) {
    level <= c.maxTokens + (now - from) * c.refillRate - granted
  }

  // It allows that much and no more.
  ghost predicate AllowsNoMore(c: Config, from: real, now: real, granted: real, level: real) {
    level == c.maxTokens + (now - from) * c.refillRate - granted
  }

  /** The same written out: for each earlier access at time s, the level is at most
      max_tokens + rate * (now - s) - what was granted since s, and for one of them
      it is just that. */
  lemma EnvelopeInNumbers(c: Config, calls: seq<Call>)
    requires calls != []
    ensures var level, now := Run(c, calls).value.tokens, calls[|calls| - 1].now;
            && (forall i | 0 <= i < |calls| :: Allows(c, calls[i].now, now, GrantedSince(c, calls, i), level))
            && (exists i :: 0 <= i < |calls| && AllowsNoMore(c, calls[i].now, now, GrantedSince(c, calls, i), level))
  {
    LevelIsLeastHeadroom(c, calls);
    var level, now := Run(c, calls).value.tokens, calls[|calls| - 1].now;
    forall i | 0 <= i < |calls| ensures Allows(c, calls[i].now, now, GrantedSince(c, calls, i), level) {
      assert level <= Headroom(c, calls, i, now);
    }
    var k :| 0 <= k < |calls| && level == Headroom(c, calls, k, now);
    assert AllowsNoMore(c, calls[k].now, now, GrantedSince(c, calls, k), level);
  }

  // Between calls every open window gains the same amount.
  lemma HeadroomLater(c: Config, calls: seq<Call>, i: nat, now: real)
    requires i < |calls|
    ensures Headroom(c, calls, i, now) == Headroom(c, calls, i, Latest(calls)) + Accrued(c, Latest(calls), now)
  {
    AccruedAdds(c, calls[i].now, Latest(calls), now);
  }

  /** A request is granted exactly when no window bound would break. */
  lemma GrantedIffEveryWindowFits(c: Config, calls: seq<Call>, now: real, amount: real)
    ensures Grants(c, Run(c, calls), Consume(now, amount))
         <==> (amount <= c.maxTokens
               && forall i | 0 <= i < |calls| :: amount <= Headroom(c, calls, i, now))
  {
    if calls != [] {
      LevelIsLeastHeadroom(c, calls);
      var level := Run(c, calls).value;
      var k :| 0 <= k < |calls| && level.tokens == Headroom(c, calls, k, Latest(calls));
      HeadroomLater(c, calls, k, now);
      forall i | 0 <= i < |calls|
        ensures Headroom(c, calls, i, now) >= level.tokens + Accrued(c, level.lastRefill, now)
      {
        HeadroomLater(c, calls, i, now);
      }
    }
  }

  /* ----- Rate bound ----- */

  ghost predicate Ordered(calls: seq<Call>) {
    forall i, j | 0 <= i <= j < |calls| :: calls[i].now <= calls[j].now
  }

  // A call on a bucket that is not overdrawn, made no earlier, does not overdraw it.
  lemma NeverOverdrawn(c: Config, bucket: Option<Level>, call: Call)
    requires c.maxTokens >= 0.0 && c.refillRate >= 0.0
    requires bucket.Some? ==> bucket.value.tokens >= 0.0 && bucket.value.lastRefill <= call.now
    ensures After(c, bucket, call).tokens >= 0.0
  {
    AccruedGrows(c, if bucket.Some? then bucket.value.lastRefill else call.now, call.now);
    assert Access(c, bucket, call.now).tokens >= 0.0;
  }

  lemma {:induction false} LevelNeverNegative(c: Config, calls: seq<Call>)
    requires c.maxTokens >= 0.0 && c.refillRate >= 0.0 && Ordered(calls) && calls != []
    ensures Run(c, calls).value.tokens >= 0.0
  {
    var n := |calls| - 1;
    var before := calls[..n];
    if n > 0 {
      assert before[n - 1] == calls[n - 1];
      LevelNeverNegative(c, before);
      LevelIsLeastHeadroom(c, before);
    }
    NeverOverdrawn(c, Run(c, before), calls[n]);
  }

  /** The published limit: in every window the grants stay within the burst
      plus what the rate supplies. */
  lemma WindowBound(c: Config, calls: seq<Call>, i: nat, j: nat)
    requires c.maxTokens >= 0.0 && c.refillRate >= 0.0 && Ordered(calls)
    requires i <= j < |calls|
    ensures GrantedSince(c, calls[..j + 1], i) <= c.maxTokens + Accrued(c, calls[i].now, calls[j].now)
  {
    var w := calls[..j + 1];
    LevelNeverNegative(c, w);
    LevelIsLeastHeadroom(c, w);
    assert Run(c, w).value.tokens <= Headroom(c, w, i, w[j].now);
  }

  /* ----- retry_after ----- */

  lemma RefillsCompose(c: Config, l: Level, s: real, t: real)
    requires c.refillRate >= 0.0 && s <= t
    ensures Refill(c, Refill(c, l, s), t) == Refill(c, l, t)
  {
    AccruedAdds(c, l.lastRefill, s, t);
    AccruedGrows(c, s, t);
  }

  // The bucket after a list of calls made on an existing bucket.
  function RunFrom(c: Config, l: Level, calls: seq<Call>): Level
    decreases |calls|
  {
    if calls == [] then l else RunFrom(c, After(c, Some(l), calls[0]), calls[1..])
  }

  // None of the calls is granted anything.
  predicate AllRefused(c: Config, l: Level, calls: seq<Call>)
    decreases |calls|
  {
    calls != [] ==> !Grants(c, Some(l), calls[0]) && AllRefused(c, After(c, Some(l), calls[0]), calls[1..])
  }

  /** retry_after calls and refused requests leave no trace in later answers. */
  lemma {:induction false} RefusalsAreInvisible(c: Config, l: Level, calls: seq<Call>, t: real)
    requires c.refillRate >= 0.0 && AllRefused(c, l, calls) && Ordered(calls)
    requires forall i | 0 <= i < |calls| :: calls[i].now <= t
    ensures Refill(c, RunFrom(c, l, calls), t) == Refill(c, l, t)
    decreases |calls|
  {
    if calls != [] {
      RefusalsAreInvisible(c, After(c, Some(l), calls[0]), calls[1..], t);
      RefillsCompose(c, l, calls[0].now, t);
    }
  }

  // When a unit request succeeds on a bucket that nobody draws from. The answer
  // is missing exactly when a bucket that never refills lacks a token.
  lemma UnitGrantTime(c: Config, l: Level, t: real)
    requires c.refillRate >= 0.0 && l.tokens <= c.maxTokens && l.lastRefill <= t
    ensures RetryAnswer(c, l).None? <==> c.refillRate == 0.0 && l.tokens < 1.0
    ensures Grants(c, Some(l), Consume(t, 1.0))
         <==> (1.0 <= c.maxTokens && RetryAnswer(c, l).Some? && l.lastRefill + RetryAnswer(c, l).value <= t)
  {
    var dt := t - l.lastRefill;
    AccruedGrows(c, l.lastRefill, t);
    if l.tokens < 1.0 && c.refillRate > 0.0 {
      var w := (1.0 - l.tokens) / c.refillRate;
      assert w * c.refillRate == 1.0 - l.tokens;
      if w <= dt {
        assert (dt - w) * c.refillRate >= 0.0;
        assert dt * c.refillRate == w * c.refillRate + (dt - w) * c.refillRate;
      } else {
        assert (w - dt) * c.refillRate > 0.0;
        assert dt * c.refillRate == w * c.refillRate - (w - dt) * c.refillRate;
      }
    }
  }

  // The answer is the exact moment, after any further refused calls, from which
  // a unit request succeeds.
  ghost predicate Tight(c: Config, l: Level) {
    && RetryAnswer(c, l).Some?
    && forall calls, t ::
         AllRefused(c, l, calls) && Ordered([RetryAfter(l.lastRefill)] + calls + [Consume(t, 1.0)]) ==>
           (Grants(c, Some(RunFrom(c, l, calls)), Consume(t, 1.0))
            <==> l.lastRefill + RetryAnswer(c, l).value <= t)
  }

  // Whatever is refused in between, the grant comes when it would have come.
  lemma GrantAfterRefusals(c: Config, l: Level, calls: seq<Call>, t: real)
    requires c.refillRate >= 0.0 && l.tokens <= c.maxTokens
    requires AllRefused(c, l, calls) && Ordered([RetryAfter(l.lastRefill)] + calls + [Consume(t, 1.0)])
    ensures l.lastRefill <= t
    ensures Grants(c, Some(RunFrom(c, l, calls)), Consume(t, 1.0)) <==> Grants(c, Some(l), Consume(t, 1.0))
  {
    var all := [RetryAfter(l.lastRefill)] + calls + [Consume(t, 1.0)];
    assert all[0] == RetryAfter(l.lastRefill) && all[|all| - 1] == Consume(t, 1.0);
    assert forall i | 0 <= i < |calls| :: calls[i] == all[i + 1];
    RefusalsAreInvisible(c, l, calls, t);
  }

  lemma AnswerNotNegative(c: Config, l: Level)
    requires c.refillRate >= 0.0 && RetryAnswer(c, l).Some?
    ensures RetryAnswer(c, l).value >= 0.0
  {
    if l.tokens < 1.0 {
      var answer := (1.0 - l.tokens) / c.refillRate;
      assert answer * c.refillRate == 1.0 - l.tokens;
    }
  }

  /** retry_after is tight exactly when the bucket can hold one token and, should
      it never refill, holds one already. A bucket that never refills and lacks a
      token divides by zero; one too small for a token gets a wrong answer. */
  lemma RetryAfterIsTight(c: Config, bucket: Option<Level>, now: real)
    requires c.refillRate >= 0.0
    ensures var l := Access(c, bucket, now);
            && l.lastRefill == now
            && (Tight(c, l) <==> 1.0 <= c.maxTokens && (c.refillRate == 0.0 ==> 1.0 <= l.tokens))
            && (RetryAnswer(c, l).None? <==> c.refillRate == 0.0 && l.tokens < 1.0)
  {
    var l := Access(c, bucket, now);
    UnitGrantTime(c, l, now);
    if 1.0 <= c.maxTokens && RetryAnswer(c, l).Some? {
      forall calls, t | AllRefused(c, l, calls) && Ordered([RetryAfter(l.lastRefill)] + calls + [Consume(t, 1.0)])
        ensures Grants(c, Some(RunFrom(c, l, calls)), Consume(t, 1.0))
           <==> l.lastRefill + RetryAnswer(c, l).value <= t
      {
        GrantAfterRefusals(c, l, calls, t);
        UnitGrantTime(c, l, t);
      }
    } else if RetryAnswer(c, l).Some? {
      TooSmallIsWrong(c, l);
    }
  }

  lemma TooSmallIsWrong(c: Config, l: Level)
    requires c.refillRate >= 0.0 && l.tokens <= c.maxTokens < 1.0 && RetryAnswer(c, l).Some?
    ensures !Tight(c, l)
  {
    var t := l.lastRefill + RetryAnswer(c, l).value;
    AnswerNotNegative(c, l);
    assert AllRefused(c, l, []);
    assert Ordered([RetryAfter(l.lastRefill)] + [] + [Consume(t, 1.0)]);
    assert !Grants(c, Some(RunFrom(c, l, [])), Consume(t, 1.0));
  }
}
