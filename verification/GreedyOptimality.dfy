/** Is the token bucket the best admission rule? It is compared, over whole runs,
    with every rule whose grants respect the published limit in every window. */
module GreedyOptimality {
  import opened Wrappers
  import opened BucketArithmetic

  // Requests for positive amounts, in the order of time.
  ghost predicate Requests(calls: seq<Call>) {
    Ordered(calls) && forall i | 0 <= i < |calls| :: calls[i].Consume? && calls[i].amount > 0.0
  }

  // The answers the bucket gives.
  function Answers(c: Config, calls: seq<Call>): (answers: seq<bool>)
    ensures |answers| == |calls|
  {
    seq(|calls|, k requires 0 <= k < |calls| => Grants(c, Run(c, calls[..k]), calls[k]))
  }

  // Grants among the first `to` answers, from number `from` on.
  function Count(answers: seq<bool>, from: nat, to: nat): nat
    requires to <= |answers|
  {
    if to <= from then 0 else Count(answers, from, to - 1) + (if answers[to - 1] then 1 else 0)
  }

  // The amounts a rule with these answers grants to them.
  function Granted(calls: seq<Call>, answers: seq<bool>, from: nat, to: nat): real
    requires to <= |calls| == |answers|
  {
    if to <= from then 0.0
    else
      Granted(calls, answers, from, to - 1)
      + (if answers[to - 1] && calls[to - 1].Consume? then calls[to - 1].amount else 0.0)
  }

  // Between any two granted requests, the grants fit the window's allowance.
  ghost predicate Fits(c: Config, calls: seq<Call>, answers: seq<bool>)
    requires |answers| == |calls|
  {
    forall i, j | 0 <= i <= j < |calls| && answers[i] && answers[j] ::
      Granted(calls, answers, i, j + 1) <= c.maxTokens + Accrued(c, calls[i].now, calls[j].now)
  }

  /* ----- Rules that a bucket could follow ----- */

  // The calls of a rule that only asks when it is going to grant.
  function Muted(calls: seq<Call>, answers: seq<bool>): (muted: seq<Call>)
    requires |answers| == |calls|
    ensures |muted| == |calls|
    ensures forall k | 0 <= k < |calls| ::
              muted[k] == if answers[k] then calls[k] else RetryAfter(calls[k].now)
  {
    seq(|calls|, k requires 0 <= k < |calls| => if answers[k] then calls[k] else RetryAfter(calls[k].now))
  }

  ghost predicate Affordable(c: Config, calls: seq<Call>, answers: seq<bool>)
    requires |answers| == |calls|
  {
    forall k | 0 <= k < |calls| && answers[k] :: Grants(c, Run(c, Muted(calls, answers)[..k]), calls[k])
  }

  lemma {:induction false} MutedIsGranted(c: Config, calls: seq<Call>, answers: seq<bool>, from: nat, to: nat)
    requires |answers| == |calls| && to <= |calls| && Affordable(c, calls, answers)
    ensures GrantedSince(c, Muted(calls, answers)[..to], from) == Granted(calls, answers, from, to)
  {
    if from < to {
      var muted := Muted(calls, answers);
      assert muted[..to][..to - 1] == muted[..to - 1];
      MutedIsGranted(c, calls, answers, from, to - 1);
    }
  }

  lemma MutedIsOrdered(calls: seq<Call>, answers: seq<bool>)
    requires |answers| == |calls| && Ordered(calls)
    ensures Ordered(Muted(calls, answers))
    ensures forall k | 0 <= k < |calls| :: Muted(calls, answers)[k].now == calls[k].now
  {
  }

  lemma AffordableWindow(c: Config, calls: seq<Call>, answers: seq<bool>, i: nat, j: nat)
    requires c.maxTokens >= 0.0 && c.refillRate >= 0.0 && Ordered(calls) && i <= j < |calls|
    requires |answers| == |calls| && Affordable(c, calls, answers)
    ensures Granted(calls, answers, i, j + 1) <= c.maxTokens + Accrued(c, calls[i].now, calls[j].now)
  {
    MutedIsOrdered(calls, answers);
    var muted, since, until := Muted(calls, answers), calls[i].now, calls[j].now;
    assert GrantedSince(c, muted[..j + 1], i) <= c.maxTokens + Accrued(c, since, until) by {
      assert muted[i].now == since && muted[j].now == until;
      WindowBound(c, muted, i, j);
    }
    assert Granted(calls, answers, i, j + 1) == GrantedSince(c, muted[..j + 1], i) by {
      MutedIsGranted(c, calls, answers, i, j + 1);
    }
  }

  // What a bucket could have granted fits every window.
  lemma AffordableFits(c: Config, calls: seq<Call>, answers: seq<bool>)
    requires c.maxTokens >= 0.0 && c.refillRate >= 0.0 && Ordered(calls)
    requires |answers| == |calls| && Affordable(c, calls, answers)
    ensures Fits(c, calls, answers)
  {
    forall i, j | 0 <= i <= j < |calls|
      ensures Granted(calls, answers, i, j + 1) <= c.maxTokens + Accrued(c, calls[i].now, calls[j].now)
    {
      AffordableWindow(c, calls, answers, i, j);
    }
  }

  lemma RefusalIsTouch(c: Config, bucket: Option<Level>, call: Call)
    requires !Grants(c, bucket, call)
    ensures After(c, bucket, call) == After(c, bucket, RetryAfter(call.now))
  {
  }

  // A refused request and a question about the wait leave the same bucket.
  lemma {:induction false} MutedRun(c: Config, calls: seq<Call>, k: nat)
    requires k <= |calls| && forall i | 0 <= i < |calls| :: calls[i].Consume?
    ensures Run(c, Muted(calls, Answers(c, calls))[..k]) == Run(c, calls[..k])
  {
    if k > 0 {
      var muted := Muted(calls, Answers(c, calls));
      assert muted[..k][..k - 1] == muted[..k - 1] && calls[..k][..k - 1] == calls[..k - 1];
      MutedRun(c, calls, k - 1);
      var bucket, call := Run(c, calls[..k - 1]), calls[k - 1];
      if !Grants(c, bucket, call) {
        RefusalIsTouch(c, bucket, call);
      }
      assert muted[..k][k - 1] == muted[k - 1] && calls[..k][k - 1] == call;
    }
  }

  /** The bucket's own answers respect the allowance in every window, whatever
      the amounts, so it is one of the rules it is compared with. */
  lemma GreedyFits(c: Config, calls: seq<Call>)
    requires c.maxTokens >= 0.0 && c.refillRate >= 0.0 && Requests(calls)
    ensures Fits(c, calls, Answers(c, calls))
  {
    var answers := Answers(c, calls);
    forall k | 0 <= k < |calls| && answers[k] ensures Grants(c, Run(c, Muted(calls, answers)[..k]), calls[k]) {
      MutedRun(c, calls, k);
    }
    AffordableFits(c, calls, answers);
  }

  /* ----- Requests of one size ----- */

  // The requests that fit a full bucket all ask for the same amount.
  ghost predicate OneSize(c: Config, calls: seq<Call>, size: real) {
    forall i | 0 <= i < |calls| && calls[i].Consume? && calls[i].amount <= c.maxTokens :: calls[i].amount == size
  }

  lemma {:induction false} CountSplits(answers: seq<bool>, mid: nat, to: nat)
    requires mid <= to <= |answers|
    ensures Count(answers, 0, to) == Count(answers, 0, mid) + Count(answers, mid, to)
  {
    if mid < to {
      CountSplits(answers, mid, to - 1);
    }
  }

  lemma {:induction false} AnswersAreGranted(c: Config, calls: seq<Call>, from: nat, to: nat)
    requires to <= |calls|
    ensures GrantedSince(c, calls[..to], from) == Granted(calls, Answers(c, calls), from, to)
  {
    if from < to {
      assert calls[..to][..to - 1] == calls[..to - 1];
      AnswersAreGranted(c, calls, from, to - 1);
    }
  }

  // n amounts of one size.
  function Times(size: real, n: nat): real {
    if n == 0 then 0.0 else Times(size, n - 1) + size
  }

  // When all grants have one size, amounts are counts.
  lemma {:induction false} SizeTimesCount(calls: seq<Call>, answers: seq<bool>, size: real, from: nat, to: nat)
    requires to <= |calls| == |answers|
    requires forall k | 0 <= k < |calls| && answers[k] :: calls[k].Consume? && calls[k].amount == size
    ensures Granted(calls, answers, from, to) == Times(size, Count(answers, from, to))
  {
    if from < to {
      SizeTimesCount(calls, answers, size, from, to - 1);
    }
  }

  // Neither the bucket nor a fitting rule grants more than a full bucket.
  lemma OversizeIsRefused(c: Config, calls: seq<Call>, rival: seq<bool>, k: nat)
    requires k < |calls| == |rival| && Requests(calls) && Fits(c, calls, rival)
    ensures rival[k] || Answers(c, calls)[k] ==> calls[k].amount <= c.maxTokens
  {
    if rival[k] {
      assert Granted(calls, rival, k, k + 1) <= c.maxTokens + Accrued(c, calls[k].now, calls[k].now);
      assert Granted(calls, rival, k, k + 1) == Granted(calls, rival, k, k) + calls[k].amount;
    }
  }

  // A fitting rule that grants request k has room in every earlier window.
  lemma {:induction false} FittingRuleHasRoom(c: Config, calls: seq<Call>, rival: seq<bool>, i: nat, k: nat)
    requires |rival| == |calls| && i <= k < |calls| && rival[k]
    requires c.refillRate >= 0.0 && Ordered(calls) && Fits(c, calls, rival)
    ensures Granted(calls, rival, i, k + 1) <= c.maxTokens + Accrued(c, calls[i].now, calls[k].now)
    decreases k - i
  {
    if !rival[i] {
      FittingRuleHasRoom(c, calls, rival, i + 1, k);
      GrantedSkips(calls, rival, i, k + 1);
      AccruedGrows(c, calls[i].now, calls[i + 1].now);
      AccruedAdds(c, calls[i].now, calls[i + 1].now, calls[k].now);
    }
  }

  lemma {:induction false} GrantedSkips(calls: seq<Call>, answers: seq<bool>, i: nat, to: nat)
    requires i < to <= |calls| == |answers| && !answers[i]
    ensures Granted(calls, answers, i, to) == Granted(calls, answers, i + 1, to)
  {
    if i + 1 < to {
      GrantedSkips(calls, answers, i, to - 1);
    }
  }

  lemma {:induction false} TimesGrows(size: real, m: nat, n: nat)
    requires size > 0.0 && m <= n
    ensures Times(size, m) <= Times(size, n)
  {
    if m < n {
      TimesGrows(size, m, n - 1);
    }
  }

  // Of two counts, the one that no longer leaves room for one more is larger.
  lemma FullIsMore(size: real, full: nat, open: nat, room: real)
    requires size > 0.0 && size + Times(size, open) <= room < size + Times(size, full)
    ensures open < full
  {
    if full <= open {
      TimesGrows(size, full, open);
    }
  }

  // The window that a refusal finds full, in grants of one size.
  lemma FullWindow(c: Config, calls: seq<Call>, size: real, k: nat) returns (i: nat)
    requires k < |calls| && calls[k] == Consume(calls[k].now, size) && size <= c.maxTokens
    requires !Answers(c, calls)[k]
    ensures i < k
    ensures size + Granted(calls, Answers(c, calls), i, k) > c.maxTokens + Accrued(c, calls[i].now, calls[k].now)
  {
    var before, now := calls[..k], calls[k].now;
    GrantedIffEveryWindowFits(c, before, now, size);
    i :| 0 <= i < k && size > Headroom(c, before, i, now);
    AnswersAreGranted(c, calls, i, k);
    assert before[i].now == calls[i].now;
  }

  // What a rule had granted in a window before it granted one request more.
  lemma WindowBefore(c: Config, calls: seq<Call>, size: real, rival: seq<bool>, i: nat, k: nat)
    requires i <= k < |calls| == |rival| && rival[k] && calls[k] == Consume(calls[k].now, size)
    requires c.refillRate >= 0.0 && Ordered(calls) && Fits(c, calls, rival)
    ensures size + Granted(calls, rival, i, k) <= c.maxTokens + Accrued(c, calls[i].now, calls[k].now)
  {
    FittingRuleHasRoom(c, calls, rival, i, k);
    assert Granted(calls, rival, i, k + 1) == Granted(calls, rival, i, k) + size;
  }

  lemma GrantsHaveSize(c: Config, calls: seq<Call>, size: real, rival: seq<bool>)
    requires |calls| == |rival| && Requests(calls) && OneSize(c, calls, size) && Fits(c, calls, rival)
    ensures forall m | 0 <= m < |calls| && (rival[m] || Answers(c, calls)[m]) ::
              calls[m] == Consume(calls[m].now, size) && size <= c.maxTokens
  {
    forall m | 0 <= m < |calls| && (rival[m] || Answers(c, calls)[m])
      ensures calls[m] == Consume(calls[m].now, size) && size <= c.maxTokens
    {
      OversizeIsRefused(c, calls, rival, m);
    }
  }

  // Where the rival grants and the bucket refuses, the rival is behind since
  // the start of some full window.
  lemma RefusalHasReason(c: Config, calls: seq<Call>, size: real, rival: seq<bool>, k: nat) returns (i: nat)
    requires k < |calls| == |rival| && Requests(calls) && OneSize(c, calls, size)
    requires c.refillRate >= 0.0 && Fits(c, calls, rival)
    requires rival[k] && !Answers(c, calls)[k]
    ensures i < k && Count(rival, i, k) < Count(Answers(c, calls), i, k)
  {
    var ours := Answers(c, calls);
    GrantsHaveSize(c, calls, size, rival);
    i := FullWindow(c, calls, size, k);
    WindowBefore(c, calls, size, rival, i, k);
    SizeTimesCount(calls, ours, size, i, k);
    SizeTimesCount(calls, rival, size, i, k);
    FullIsMore(size, Count(ours, i, k), Count(rival, i, k), c.maxTokens + Accrued(c, calls[i].now, calls[k].now));
  }

  /** Greedy optimality: when all requests that fit the bucket have one size, no
      rule that respects the allowance in every window has granted more of them
      than the bucket, at any moment. */
  lemma {:induction false} GreedyServesOneSize(c: Config, calls: seq<Call>, size: real, rival: seq<bool>, k: nat)
    requires k <= |calls| == |rival| && Requests(calls) && OneSize(c, calls, size)
    requires c.refillRate >= 0.0 && Fits(c, calls, rival)
    ensures Count(rival, 0, k) <= Count(Answers(c, calls), 0, k)
  {
    if k > 0 {
      GreedyServesOneSize(c, calls, size, rival, k - 1);
      var ours := Answers(c, calls);
      if rival[k - 1] && !ours[k - 1] {
        var i := RefusalHasReason(c, calls, size, rival, k - 1);
        GreedyServesOneSize(c, calls, size, rival, i);
        CountSplits(rival, i, k - 1);
        CountSplits(ours, i, k - 1);
      }
    }
  }

  function UnitCalls(times: seq<real>): (calls: seq<Call>)
    ensures |calls| == |times| && forall i | 0 <= i < |times| :: calls[i] == Consume(times[i], 1.0)
  {
    seq(|times|, i requires 0 <= i < |times| => Consume(times[i], 1.0))
  }

  /** In particular for unit requests, which are all the quota manager makes. */
  lemma GreedyIsOptimal(c: Config, times: seq<real>, rival: seq<bool>, k: nat)
    requires k <= |rival| == |times| && c.refillRate >= 0.0
    requires forall a, b | 0 <= a <= b < |times| :: times[a] <= times[b]
    requires Fits(c, UnitCalls(times), rival)
    ensures Count(rival, 0, k) <= Count(Answers(c, UnitCalls(times)), 0, k)
  {
    GreedyServesOneSize(c, UnitCalls(times), 1.0, rival, k);
  }

  /* ----- Requests of two sizes ----- */

  lemma RunStep(c: Config, calls: seq<Call>, call: Call)
    ensures Run(c, calls + [call]) == Some(After(c, Run(c, calls), call))
  {
    assert (calls + [call])[..|calls|] == calls;
  }

  function Burst(size: real, n: nat): (calls: seq<Call>)
    ensures |calls| == n && forall k | 0 <= k < n :: calls[k] == Consume(0.0, size)
  {
    seq(n, k requires 0 <= k < n => Consume(0.0, size))
  }

  // One more request at the same moment.
  lemma BurstStep(c: Config, bucket: Option<Level>, left: real, size: real)
    requires size > 0.0 && size <= left <= c.maxTokens
    requires bucket == Some(Level(left, 0.0)) || (bucket.None? && left == c.maxTokens)
    ensures Grants(c, bucket, Consume(0.0, size))
    ensures After(c, bucket, Consume(0.0, size)) == Level(left - size, 0.0)
  {
    assert Accrued(c, 0.0, 0.0) == 0.0;
  }

  lemma BurstGrows(size: real, n: nat)
    ensures Burst(size, n + 1) == Burst(size, n) + [Consume(0.0, size)]
    ensures forall k | 0 <= k <= n :: Burst(size, n + 1)[..k] == Burst(size, n)[..k]
  {
  }

  ghost predicate AllGranted(c: Config, size: real, n: nat) {
    forall k | 0 <= k < n :: Grants(c, Run(c, Burst(size, n)[..k]), Consume(0.0, size))
  }

  // A full bucket grants as many requests at once as it holds tokens for.
  lemma {:induction false} BurstRun(c: Config, size: real, n: nat)
    requires size > 0.0 && Times(size, n) <= c.maxTokens
    ensures n > 0 ==> Run(c, Burst(size, n)) == Some(Level(c.maxTokens - Times(size, n), 0.0))
    ensures AllGranted(c, size, n)
  {
    if n > 0 {
      var m := n - 1;
      BurstRun(c, size, m);
      TimesGrows(size, 0, m);
      var before, last := Burst(size, m), Consume(0.0, size);
      assert m == 0 ==> before == [];
      BurstStep(c, Run(c, before), c.maxTokens - Times(size, m), size);
      BurstGrows(size, m);
      RunStep(c, before, last);
      forall k | 0 <= k < n ensures Grants(c, Run(c, Burst(size, n)[..k]), last) {
        assert Burst(size, n)[..k] == before[..k];
        assert before[..m] == before;
      }
    }
  }

  // How many requests of one size a full bucket can grant at once.
  lemma {:induction false} Whole(total: real, size: real, bound: nat) returns (n: nat)
    requires 0.0 < size <= total < Times(size, bound)
    ensures n > 0 && Times(size, n) <= total < Times(size, n) + size
    decreases bound
  {
    if Times(size, bound - 1) <= total {
      n := bound - 1;
      assert n == 0 ==> Times(size, bound) == size;
    } else {
      n := Whole(total, size, bound - 1);
    }
  }

  lemma {:induction false} TimesIsProduct(size: real, n: nat)
    ensures Times(size, n) == size * n as real
  {
    if n > 0 {
      TimesIsProduct(size, n - 1);
      var x := (n - 1) as real;
      assert size * (x + 1.0) == size * x + size;
    }
  }

  lemma Enough(total: real, size: real) returns (bound: nat)
    requires 0.0 < size <= total
    ensures total < Times(size, bound)
  {
    var q := total / size;
    assert q * size == total;
    bound := q.Floor + 1;
    TimesIsProduct(size, bound);
    var x := bound as real;
    assert size * (x - q) > 0.0;
    assert size * x == size * q + size * (x - q);
  }

  // What a call meets at a bucket, and what it leaves.
  predicate Meets(c: Config, l: Level, call: Call, granted: bool, next: Level) {
    Grants(c, Some(l), call) == granted && After(c, Some(l), call) == next
  }

  // From level `big`: the bucket spends it on one big request and starves two
  // small ones ...
  lemma BigStarvesSmall(c: Config, l: Level, t: real, u: real, small: real, big: real) returns (last: Level)
    requires c.refillRate > 0.0 && 0.0 < small < big <= c.maxTokens
    requires Refill(c, l, t) == Level(big, t)
    requires Accrued(c, t, u) == if 2.0 * small > big then 2.0 * small - big else 0.0
    ensures Meets(c, l, Consume(t, big), true, Level(0.0, t))
    ensures Meets(c, Level(0.0, t), Consume(t, small), false, Level(0.0, t))
    ensures Meets(c, Level(0.0, t), Consume(u, small), false, last)
  {
    assert Accrued(c, t, t) == 0.0;
    last := After(c, Some(Level(0.0, t)), Consume(u, small));
  }

  // ... and skipping the big one would have served both.
  lemma SmallServedTwice(c: Config, l: Level, t: real, u: real, small: real, big: real) returns (last: Level)
    requires c.refillRate > 0.0 && 0.0 < small < big <= c.maxTokens
    requires Refill(c, l, t) == Level(big, t)
    requires Accrued(c, t, u) == if 2.0 * small > big then 2.0 * small - big else 0.0
    ensures Meets(c, l, RetryAfter(t), false, Level(big, t))
    ensures Meets(c, Level(big, t), Consume(t, small), true, Level(big - small, t))
    ensures Meets(c, Level(big - small, t), Consume(u, small), true, last)
  {
    assert Accrued(c, t, t) == 0.0;
    last := After(c, Some(Level(big - small, t)), Consume(u, small));
  }

  // The three requests at the end, and what goes before them.
  function Contest(head: seq<Call>, t: real, u: real, small: real, big: real): seq<Call> {
    head + [Consume(t, big), Consume(t, small), Consume(u, small)]
  }

  function Verdicts(n: nat, x: bool, y: bool, z: bool): (answers: seq<bool>)
    ensures |answers| == n + 3
  {
    seq(n, _ => true) + [x, y, z]
  }

  lemma VerdictCount(n: nat, x: bool, y: bool, z: bool)
    ensures Count(Verdicts(n, x, y, z), 0, n + 3)
         == n + (if x then 1 else 0) + (if y then 1 else 0) + (if z then 1 else 0)
  {
    var v := Verdicts(n, x, y, z);
    CountTrue(v, n);
    assert v[n] == x && v[n + 1] == y && v[n + 2] == z;
    assert Count(v, 0, n + 1) == n + (if x then 1 else 0);
    assert Count(v, 0, n + 2) == Count(v, 0, n + 1) + (if y then 1 else 0);
  }

  lemma {:induction false} CountTrue(answers: seq<bool>, k: nat)
    requires k <= |answers| && forall i | 0 <= i < k :: answers[i]
    ensures Count(answers, 0, k) == k
  {
    if k > 0 {
      CountTrue(answers, k - 1);
    }
  }

  lemma OneMore(c: Config, calls: seq<Call>, l: Level, call: Call, granted: bool, next: Level)
    requires Run(c, calls) == Some(l) && Meets(c, l, call, granted, next)
    ensures Run(c, calls + [call]) == Some(next)
    ensures Answers(c, calls + [call]) == Answers(c, calls) + [granted]
  {
    var all := calls + [call];
    forall k | 0 <= k <= |calls| ensures all[..k] == calls[..k] {
    }
    assert calls[..|calls|] == calls;
  }

  // The three answers at the end of a list of calls.
  lemma ContestAnswers(c: Config, head: seq<Call>, x: Call, y: Call, z: Call,
                       l: Level, m: Level, n: Level, o: Level, p: bool, q: bool, r: bool)
    requires Run(c, head) == Some(l)
    requires Meets(c, l, x, p, m) && Meets(c, m, y, q, n) && Meets(c, n, z, r, o)
    ensures Answers(c, head + [x, y, z]) == Answers(c, head) + [p, q, r]
  {
    var one := head + [x];
    var two := one + [y];
    OneMore(c, head, l, x, p, m);
    OneMore(c, one, m, y, q, n);
    OneMore(c, two, n, z, r, o);
    AppendThree(head, x, y, z);
    AppendThree(Answers(c, head), p, q, r);
  }

  lemma AppendThree<T>(s: seq<T>, x: T, y: T, z: T)
    ensures s + [x] + [y] + [z] == s + [x, y, z]
  {
  }

  // A burst of n big requests drains the bucket to l, which holds one big
  // request again at t; from t to u drips in what two small ones still lack.
  ghost predicate Drained(c: Config, n: nat, l: Level, t: real, u: real, small: real, big: real) {
    && Run(c, Burst(big, n)) == Some(l) && AllGranted(c, big, n)
    && Refill(c, l, t) == Level(big, t)
    && Accrued(c, t, u) == (if 2.0 * small > big then 2.0 * small - big else 0.0)
  }

  lemma SetUp(c: Config, small: real, big: real) returns (n: nat, l: Level, t: real, u: real)
    requires c.refillRate > 0.0 && 0.0 < small < big <= c.maxTokens
    ensures Drained(c, n, l, t, u, small, big) && 0.0 <= t <= u
  {
    var bound := Enough(c.maxTokens, big);
    n := Whole(c.maxTokens, big, bound);
    BurstRun(c, big, n);
    l := Level(c.maxTokens - Times(big, n), 0.0);
    t := Wait(c, 0.0, big - l.tokens);
    u := Wait(c, t, if 2.0 * small > big then 2.0 * small - big else 0.0);
  }

  lemma BurstAnswers(c: Config, size: real, n: nat)
    requires AllGranted(c, size, n)
    ensures Answers(c, Burst(size, n)) == seq(n, _ => true)
  {
  }

  lemma GreedyLoses(c: Config, n: nat, l: Level, t: real, u: real, small: real, big: real)
    requires c.refillRate > 0.0 && 0.0 < small < big <= c.maxTokens
    requires Drained(c, n, l, t, u, small, big)
    ensures Answers(c, Contest(Burst(big, n), t, u, small, big)) == Verdicts(n, true, false, false)
  {
    var last := BigStarvesSmall(c, l, t, u, small, big);
    BurstAnswers(c, big, n);
    ContestAnswers(c, Burst(big, n), Consume(t, big), Consume(t, small), Consume(u, small),
                   l, Level(0.0, t), Level(0.0, t), last, true, false, false);
  }

  lemma RivalServesBoth(c: Config, n: nat, l: Level, t: real, u: real, small: real, big: real)
    requires c.refillRate > 0.0 && 0.0 < small < big <= c.maxTokens
    requires Drained(c, n, l, t, u, small, big)
    ensures Affordable(c, Contest(Burst(big, n), t, u, small, big), Verdicts(n, false, true, true))
  {
    var calls, rival := Contest(Burst(big, n), t, u, small, big), Verdicts(n, false, true, true);
    var muted := Burst(big, n) + [RetryAfter(t), Consume(t, small), Consume(u, small)];
    var last := SmallServedTwice(c, l, t, u, small, big);
    BurstAnswers(c, big, n);
    ContestAnswers(c, Burst(big, n), RetryAfter(t), Consume(t, small), Consume(u, small),
                   l, Level(big, t), Level(big - small, t), last, false, true, true);
    assert Muted(calls, rival) == muted;
    forall k | 0 <= k < |calls| && rival[k] ensures Grants(c, Run(c, muted[..k]), calls[k]) {
      assert Answers(c, muted)[k] && muted[k] == calls[k];
    }
  }

  // Waiting until an amount has dripped in.
  lemma Wait(c: Config, from: real, amount: real) returns (to: real)
    requires c.refillRate > 0.0 && amount >= 0.0
    ensures from <= to && Accrued(c, from, to) == amount
  {
    var w := amount / c.refillRate;
    assert w * c.refillRate == amount;
    to := from + w;
  }

  lemma ContestIsOrdered(n: nat, t: real, u: real, small: real, big: real)
    requires 0.0 <= t <= u && 0.0 < small && 0.0 < big
    ensures Requests(Contest(Burst(big, n), t, u, small, big))
  {
    var calls := Contest(Burst(big, n), t, u, small, big);
    assert forall k | 0 <= k < n :: calls[k] == Consume(0.0, big);
  }

  /** With two sizes that fit, the bucket can be beaten: drained by big requests
      and refilled to exactly one of them, it grants that one and starves two
      small requests which a fitting rule serves instead. */
  lemma TwoSizesBeatGreedy(c: Config, small: real, big: real) returns (calls: seq<Call>, rival: seq<bool>)
    requires c.refillRate > 0.0 && 0.0 < small < big <= c.maxTokens
    ensures Requests(calls) && |rival| == |calls| && Fits(c, calls, rival)
    ensures forall i | 0 <= i < |calls| :: calls[i].amount == small || calls[i].amount == big
    ensures Count(rival, 0, |calls|) > Count(Answers(c, calls), 0, |calls|)
  {
    var n, l, t, u := SetUp(c, small, big);
    calls, rival := Contest(Burst(big, n), t, u, small, big), Verdicts(n, false, true, true);
    GreedyLoses(c, n, l, t, u, small, big);
    RivalServesBoth(c, n, l, t, u, small, big);
    ContestIsOrdered(n, t, u, small, big);
    AffordableFits(c, calls, rival);
    VerdictCount(n, false, true, true);
    VerdictCount(n, true, false, false);
  }

  /* ----- The exact condition ----- */

  ghost predicate AmountsIn(calls: seq<Call>, sizes: iset<real>) {
    forall i | 0 <= i < |calls| :: calls[i].Consume? && calls[i].amount in sizes
  }

  // No fitting rule ever beats the bucket on requests with amounts from a set.
  ghost predicate OptimalFor(c: Config, sizes: iset<real>) {
    forall calls: seq<Call>, rival: seq<bool>, k: nat |
      Requests(calls) && AmountsIn(calls, sizes) && k <= |calls| == |rival| && Fits(c, calls, rival) ::
        Count(rival, 0, k) <= Count(Answers(c, calls), 0, k)
  }

  // At most one amount of the set fits a full bucket.
  ghost predicate OneFits(c: Config, sizes: iset<real>) {
    forall a, b | a in sizes && b in sizes && a <= c.maxTokens && b <= c.maxTokens :: a == b
  }

  lemma OneFitsIsOneSize(c: Config, sizes: iset<real>, calls: seq<Call>) returns (size: real)
    requires OneFits(c, sizes) && AmountsIn(calls, sizes)
    ensures OneSize(c, calls, size)
  {
    if k :| 0 <= k < |calls| && calls[k].amount <= c.maxTokens {
      size := calls[k].amount;
    } else {
      size := 0.0;
    }
  }

  /** The bucket is optimal for a set of positive amounts exactly when at most one
      of them fits a full bucket. */
  lemma OptimalIffOneFits(c: Config, sizes: iset<real>)
    requires c.refillRate > 0.0 && forall x | x in sizes :: x > 0.0
    ensures OptimalFor(c, sizes) <==> OneFits(c, sizes)
  {
    if OneFits(c, sizes) {
      forall calls: seq<Call>, rival: seq<bool>, k: nat |
        Requests(calls) && AmountsIn(calls, sizes) && k <= |calls| == |rival| && Fits(c, calls, rival)
        ensures Count(rival, 0, k) <= Count(Answers(c, calls), 0, k)
      {
        var size := OneFitsIsOneSize(c, sizes, calls);
        GreedyServesOneSize(c, calls, size, rival, k);
      }
    } else {
      var a, b :| a in sizes && b in sizes && a <= c.maxTokens && b <= c.maxTokens && a != b;
      var calls, rival := TwoSizesBeatGreedy(c, if a < b then a else b, if a < b then b else a);
      assert AmountsIn(calls, sizes);
      assert !OptimalFor(c, sizes);
    }
  }
}
