/**
 What the limiters promise in rates and bursts, without theoretical arrival times: a call is refused exactly when
 letting it through would put more calls into some window than the burst and the rate allow.
 */
module LimiterRates {
  import opened Common
  import opened Limiters

  ghost predicate Rising(times: seq<Time>) {
    forall i, j :: 0 <= i < j < |times| ==> times[i] <= times[j]
  }

  /** How many of the decisions from `i` up to `j` let the call through. */
  function Count(passed: seq<bool>, i: nat, j: nat): (n: nat)
    requires j <= |passed|
    ensures n <= if i <= j then j - i else 0
    decreases j
  {
    if j <= i then 0 else Count(passed, i, j - 1) + if passed[j - 1] then 1 else 0
  }

  lemma {:induction false} CountPrefix(passed: seq<bool>, more: seq<bool>, i: nat, j: nat)
    requires j <= |passed|
    ensures Count(passed + more, i, j) == Count(passed, i, j)
    decreases j
  {
    if i < j {
      CountPrefix(passed, more, i, j - 1);
    }
  }

  function Elapsed(times: seq<Time>, i: nat, j: nat): int
    requires i < |times| && j < |times|
  {
    times[j] as int - times[i] as int
  }

  function Gap(times: seq<Time>, k: nat): int
    requires k + 1 < |times|
  {
    Elapsed(times, k, k + 1)
  }

  /** With call `j` the window that opened at call `i` would hold more than its burst and `rate` per second. */
  predicate Overrun(rate: nat, burst: nat, second: nat, times: seq<Time>, passed: seq<bool>, i: nat, j: nat)
    requires i < j < |times| && j <= |passed|
  {
    passed[i] && (Count(passed, i, j) + 1) * second > burst * second + Elapsed(times, i, j) * rate
  }

  ghost predicate Exhausted(rate: nat, burst: nat, second: nat, times: seq<Time>, passed: seq<bool>, j: nat)
    requires j < |times| && j <= |passed|
  {
    exists i :: 0 <= i < j && Overrun(rate, burst, second, times, passed, i, j)
  }

  /** A limiter of `rate` per second with this burst lets through exactly the calls that overrun no window. */
  ghost predicate Fair(rate: nat, burst: nat, second: nat, times: seq<Time>, passed: seq<bool>) {
    && |passed| == |times|
    && forall j :: 0 <= j < |times| ==> (passed[j] <==> !Exhausted(rate, burst, second, times, passed, j))
  }

  // ---- one limiter ----

  function Tat(q: Quota, times: seq<Time>): Time {
    if times == [] then 0 else Charge(q, Tat(q, times[..|times| - 1]), times[|times| - 1])
  }

  function Decide(q: Quota, times: seq<Time>): (passed: seq<bool>)
    ensures |passed| == |times|
  {
    if times == [] then []
    else
      var n := |times| - 1;
      Decide(q, times[..n]) + [Admits(q, Tat(q, times[..n]), times[n])]
  }

  /** The arrival time a window has paid for. */
  function Paid(q: Quota, times: seq<Time>, passed: seq<bool>, i: nat, j: nat): int
    requires i < |times| && j <= |passed|
  {
    times[i] + Count(passed, i, j) * q.period
  }

  /** The arrival time is never behind what any window has paid for. */
  lemma {:induction false} TatCovers(q: Quota, times: seq<Time>, i: nat)
    requires i < |times| && Decide(q, times)[i]
    ensures Paid(q, times, Decide(q, times), i, |times|) <= Tat(q, times)
  {
    var n := |times| - 1;
    var passed := Decide(q, times[..n]);
    CountPrefix(passed, [Decide(q, times)[n]], i, n);
    if i < n {
      TatCovers(q, times[..n], i);
      MulStep(q.period, Count(passed, i, n) + 1);
    } else {
      assert Count(Decide(q, times), n, n + 1) == 1;
    }
  }

  /** And it is exactly what some window has paid for, unless nothing was let through. */
  lemma {:induction false} TatIsPaid(q: Quota, times: seq<Time>) returns (i: nat)
    requires Rising(times) && Tat(q, times) > 0 && q.Valid()
    ensures i < |times| && Decide(q, times)[i] && Paid(q, times, Decide(q, times), i, |times|) == Tat(q, times)
  {
    var n := |times| - 1;
    var before, passed := Tat(q, times[..n]), Decide(q, times[..n]);
    var admitted := Admits(q, before, times[n]);
    if admitted && before <= times[n] {
      i := n;
      CountPrefix(passed, [admitted], n, n);
      assert Count(Decide(q, times), n, n + 1) == 1;
    } else {
      i := TatIsPaid(q, times[..n]);
      CountPrefix(passed, [admitted], i, n);
      MulStep(q.period, Count(passed, i, n) + 1);
    }
  }

  lemma MulLess(a: int, b: int, rate: nat)
    requires rate > 0
    ensures a * rate < b * rate <==> a < b
  {
    if a < b {
      MulMonotone(a + 1, b, rate);
      assert (a + 1) * rate == a * rate + rate;
    } else {
      MulMonotone(b, a, rate);
    }
  }

  lemma Regroup(a: nat, period: nat, rate: nat)
    ensures a * (rate * period) == a * period * rate
  {
  }

  /** A window overruns exactly when what it has paid for runs ahead of the burst. */
  lemma OverrunInTicks(
    q: Quota, rate: nat, times: seq<Time>, passed: seq<bool>, i: nat, j: nat)
    requires rate > 0 && i < j < |times| && j <= |passed|
    ensures Overrun(rate, q.burst, rate * q.period, times, passed, i, j) <==>
            passed[i] && Paid(q, times, passed, i, j) + q.period > times[j] + q.burst * q.period
  {
    var count, elapsed := Count(passed, i, j) + 1, Elapsed(times, i, j);
    MulLess(q.burst * q.period + elapsed, count * q.period, rate);
    Regroup(count, q.period, rate);
    Regroup(q.burst, q.period, rate);
    assert (q.burst * q.period + elapsed) * rate == q.burst * q.period * rate + elapsed * rate;
    MulStep(q.period, count);
  }

  lemma DecidePrefix(q: Quota, times: seq<Time>, j: nat)
    requires j <= |times|
    ensures Decide(q, times)[..j] == Decide(q, times[..j])
    ensures j < |times| ==> Decide(q, times)[j] == Admits(q, Tat(q, times[..j]), times[j])
  {
    if j == |times| {
      assert times[..j] == times;
    } else {
      var n := |times| - 1;
      DecidePrefix(q, times[..n], j);
      assert times[..n][..j] == times[..j];
    }
  }

  lemma PaidEarly(q: Quota, times: seq<Time>, i: nat, j: nat)
    requires i < j < |times|
    ensures Decide(q, times)[i] == Decide(q, times[..j])[i]
    ensures Paid(q, times, Decide(q, times), i, j) == Paid(q, times[..j], Decide(q, times[..j]), i, j)
  {
    var passed := Decide(q, times);
    DecidePrefix(q, times, j);
    CountPrefix(passed[..j], passed[j..], i, j);
    assert passed[..j] + passed[j..] == passed;
  }

  /** A call that is let through overruns no window. */
  lemma PassedFits(q: Quota, rate: nat, times: seq<Time>, i: nat, j: nat)
    requires q.Valid() && rate > 0 && i < j < |times| && Decide(q, times)[j]
    ensures !Overrun(rate, q.burst, rate * q.period, times, Decide(q, times), i, j)
  {
    OverrunInTicks(q, rate, times, Decide(q, times), i, j);
    DecidePrefix(q, times, j);
    if Decide(q, times)[i] {
      PaidEarly(q, times, i, j);
      TatCovers(q, times[..j], i);
    }
  }

  /** A call that is refused would overrun a window. */
  lemma RefusedOverruns(q: Quota, rate: nat, times: seq<Time>, j: nat) returns (i: nat)
    requires q.Valid() && rate > 0 && Rising(times) && j < |times| && !Decide(q, times)[j]
    ensures i < j && Overrun(rate, q.burst, rate * q.period, times, Decide(q, times), i, j)
  {
    DecidePrefix(q, times, j);
    MulMonotone(1, q.burst, q.period);
    i := TatIsPaid(q, times[..j]);
    PaidEarly(q, times, i, j);
    OverrunInTicks(q, rate, times, Decide(q, times), i, j);
  }

  /** The exact meaning of a limiter: one cell per period is `rate` per second, with its burst, in every window. */
  lemma LimiterIsFair(q: Quota, rate: nat, times: seq<Time>)
    requires q.Valid() && rate > 0 && Rising(times)
    ensures Fair(rate, q.burst, rate * q.period, times, Decide(q, times))
  {
    forall j | 0 <= j < |times|
      ensures Decide(q, times)[j] <==> !Exhausted(rate, q.burst, rate * q.period, times, Decide(q, times), j)
    {
      if Decide(q, times)[j] {
        forall i: nat | i < j ensures !Overrun(rate, q.burst, rate * q.period, times, Decide(q, times), i, j) {
          PassedFits(q, rate, times, i, j);
        }
      } else {
        var i := RefusedOverruns(q, rate, times, j);
      }
    }
  }

  /** Fairness leaves no choice: it determines every decision. */
  lemma {:induction false} FairIsUnique(
    rate: nat, burst: nat, second: nat, times: seq<Time>, a: seq<bool>, b: seq<bool>, j: nat)
    requires Fair(rate, burst, second, times, a) && Fair(rate, burst, second, times, b) && j <= |times|
    ensures a[..j] == b[..j]
  {
    if j > 0 {
      FairIsUnique(rate, burst, second, times, a, b, j - 1);
      ExhaustedAlike(rate, burst, second, times, a, b, j - 1);
      ExhaustedAlike(rate, burst, second, times, b, a, j - 1);
      assert a[..j] == a[..j - 1] + [a[j - 1]] && b[..j] == b[..j - 1] + [b[j - 1]];
    }
  }

  lemma ExhaustedAlike(rate: nat, burst: nat, second: nat, times: seq<Time>, a: seq<bool>, b: seq<bool>, j: nat)
    requires |a| == |b| == |times| && j < |times| && a[..j] == b[..j]
    ensures Exhausted(rate, burst, second, times, a, j) ==> Exhausted(rate, burst, second, times, b, j)
  {
    if Exhausted(rate, burst, second, times, a, j) {
      var i :| 0 <= i < j && Overrun(rate, burst, second, times, a, i, j);
      CountPrefix(a[..j], a[j..], i, j);
      CountPrefix(b[..j], b[j..], i, j);
      assert a == a[..j] + a[j..] && b == b[..j] + b[j..];
      assert b[..j][i] == a[..j][i];
      assert Overrun(rate, burst, second, times, b, i, j);
    }
  }

  /** A burst from rest is let through whole, however close together its calls are. */
  lemma BurstPasses(rate: nat, burst: nat, second: nat, times: seq<Time>, passed: seq<bool>, j: nat)
    requires Fair(rate, burst, second, times, passed) && Rising(times) && j < |times| && j < burst
    ensures passed[j]
  {
    forall i: nat | i < j ensures !Overrun(rate, burst, second, times, passed, i, j) {
      MulMonotone(Count(passed, i, j) + 1, burst, second);
      MulMonotone(0, Elapsed(times, i, j), rate);
    }
  }

  /** Calls spaced at the configured rate are never refused. */
  lemma SpacedCallsPass(rate: nat, burst: nat, second: nat, times: seq<Time>, passed: seq<bool>, j: nat)
    requires Fair(rate, burst, second, times, passed) && burst > 0 && j < |times|
    requires forall k :: 0 <= k < j ==> Gap(times, k) * rate >= second
    ensures passed[j]
  {
    forall i: nat | i < j ensures !Overrun(rate, burst, second, times, passed, i, j) {
      SpacedWindow(rate, second, times, i, j);
      MulMonotone(Count(passed, i, j), j - i, second);
      MulMonotone(1, burst, second);
      assert (Count(passed, i, j) + 1) * second == Count(passed, i, j) * second + second;
    }
  }

  lemma {:induction false} SpacedWindow(rate: nat, second: nat, times: seq<Time>, i: nat, j: nat)
    requires i <= j < |times|
    requires forall k :: i <= k < j ==> Gap(times, k) * rate >= second
    ensures Elapsed(times, i, j) * rate >= (j - i) * second
  {
    if i < j {
      SpacedWindow(rate, second, times, i, j - 1);
      var early, late := Elapsed(times, i, j - 1), Gap(times, j - 1);
      assert Elapsed(times, i, j) * rate == (early + late) * rate == early * rate + late * rate;
      MulStep(second, j - i);
    }
  }

  // ---- the relay's two levels of limits ----

  /** Ticks in a second. */
  function Second(limits: ResolveLimits): nat {
    limits.globalRate * limits.sourceRate
  }

  function Times(calls: seq<Call>): (times: seq<Time>)
    ensures |times| == |calls|
    ensures forall i :: 0 <= i < |calls| ==> times[i] == calls[i].now
  {
    seq(|calls|, i requires 0 <= i < |calls| => calls[i].now)
  }

  /** When calls of this source passed the global limiter. */
  function Reaching(limits: ResolveLimits, calls: seq<Call>, source: Source): seq<Time> {
    if calls == [] then []
    else
      var n := |calls| - 1;
      var before, passed := Reaching(limits, calls[..n], source), Decide(limits.Global(), Times(calls))[n];
      if passed && calls[n].source == Some(source) then before + [calls[n].now] else before
  }

  lemma {:induction false} ReferenceArrivals(limits: ResolveLimits, calls: seq<Call>, source: Source)
    ensures Reference(limits, calls).global == Tat(limits.Global(), Times(calls))
    ensures IdealArrival(Reference(limits, calls).ideal, source) ==
            Tat(limits.Sources().quota, Reaching(limits, calls, source))
  {
    if calls != [] {
      var n := |calls| - 1;
      ReferenceArrivals(limits, calls[..n], source);
      assert Times(calls)[..n] == Times(calls[..n]);
      var before := Reaching(limits, calls[..n], source);
      assert (before + [calls[n].now])[..|before|] == before;
    }
  }

  lemma {:induction false} ReachingRises(limits: ResolveLimits, calls: seq<Call>, source: Source)
    requires InOrder(calls)
    ensures var times := Reaching(limits, calls, source);
            Rising(times) && forall i :: 0 <= i < |times| ==> times[i] <= calls[|calls| - 1].now
  {
    if calls != [] {
      ReachingRises(limits, calls[..|calls| - 1], source);
    }
  }

  lemma {:induction false} DecisionsPrefix(limits: ResolveLimits, calls: seq<Call>, j: nat)
    requires j < |calls|
    ensures |Reference(limits, calls).decisions| == |calls|
    ensures |Reference(limits, calls[..j + 1]).decisions| == j + 1
    ensures Reference(limits, calls).decisions[j] == Reference(limits, calls[..j + 1]).decisions[j]
  {
    var n := |calls| - 1;
    if n > 0 {
      DecisionsPrefix(limits, calls[..n], if j < n then j else 0);
    }
    if j < n {
      assert calls[..n][..j + 1] == calls[..j + 1];
    } else {
      assert calls[..j + 1] == calls;
    }
  }

  /** What the last call is answered, in terms of the two limiters it meets. */
  lemma LastDecision(limits: ResolveLimits, calls: seq<Call>)
    requires calls != []
    ensures var n, decisions := |calls| - 1, Reference(limits, calls).decisions;
            && |decisions| == |calls|
            && (calls[n].source.None? ==> !decisions[n])
            && (calls[n].source.Some? ==>
                  decisions[n] == (Decide(limits.Global(), Times(calls))[n] && Asked(limits, calls, n)))
  {
    var n := |calls| - 1;
    DecisionsPrefix(limits, calls, n);
    assert Times(calls)[..n] == Times(calls[..n]);
    if calls[n].source.Some? {
      ReferenceArrivals(limits, calls[..n], calls[n].source.value);
      var before := Reaching(limits, calls[..n], calls[n].source.value);
      assert (before + [calls[n].now])[..|before|] == before;
    }
  }

  /** When the calls of call `j`'s source reached its limiter, call `j` included. */
  function Visits(limits: ResolveLimits, calls: seq<Call>, j: nat): (times: seq<Time>)
    requires j < |calls| && calls[j].source.Some?
    ensures times != []
  {
    Reaching(limits, calls[..j], calls[j].source.value) + [calls[j].now]
  }

  /** Whether the limiter of its source lets call `j` through. */
  predicate Asked(limits: ResolveLimits, calls: seq<Call>, j: nat)
    requires j < |calls| && calls[j].source.Some?
  {
    var times := Visits(limits, calls, j);
    Decide(limits.Sources().quota, times)[|times| - 1]
  }

  lemma GlobalIsFair(limits: ResolveLimits, calls: seq<Call>)
    requires limits.Accepted() && InOrder(calls)
    ensures Fair(limits.globalRate, limits.globalBurst, Second(limits), Times(calls),
                 Decide(limits.Global(), Times(calls)))
  {
    LimiterIsFair(limits.Global(), limits.globalRate, Times(calls));
  }

  lemma SourceIsFair(limits: ResolveLimits, calls: seq<Call>, j: nat)
    requires limits.Accepted() && InOrder(calls) && j < |calls| && calls[j].source.Some?
    ensures var times := Visits(limits, calls, j);
            Fair(limits.sourceRate, limits.sourceBurst, Second(limits), times, Decide(limits.Sources().quota, times))
  {
    ReachingRises(limits, calls[..j], calls[j].source.value);
    LimiterIsFair(limits.Sources().quota, limits.sourceRate, Visits(limits, calls, j));
  }

  lemma EachDecision(limits: ResolveLimits, calls: seq<Call>, j: nat)
    requires j < |calls|
    ensures var decisions := Reference(limits, calls).decisions;
            && |decisions| == |calls|
            && (calls[j].source.None? ==> !decisions[j])
            && (calls[j].source.Some? ==>
                  decisions[j] == (Decide(limits.Global(), Times(calls))[j] && Asked(limits, calls, j)))
  {
    DecisionsPrefix(limits, calls, j);
    LastDecision(limits, calls[..j + 1]);
    DecidePrefix(limits.Global(), Times(calls), j + 1);
    assert Times(calls)[..j + 1] == Times(calls[..j + 1]) && calls[..j + 1][..j] == calls[..j];
  }

  /**
   The decisions of the relay are those of two fair limiters in a row: the global one over all calls, and the one of
   the call's own source over the calls of that source that passed the first.
   */
  lemma DecisionsFollowTheRates(limits: ResolveLimits, calls: seq<Call>, j: nat)
    returns (passed: seq<bool>, served: seq<bool>)
    requires limits.Accepted() && InOrder(calls) && j < |calls|
    ensures |Reference(limits, calls).decisions| == |calls|
    ensures Fair(limits.globalRate, limits.globalBurst, Second(limits), Times(calls), passed)
    ensures calls[j].source.None? ==> !Reference(limits, calls).decisions[j]
    ensures calls[j].source.Some? ==>
              && Fair(limits.sourceRate, limits.sourceBurst, Second(limits), Visits(limits, calls, j), served)
              && Reference(limits, calls).decisions[j] == (passed[j] && served[|served| - 1])
  {
    GlobalIsFair(limits, calls);
    EachDecision(limits, calls, j);
    passed, served := Decide(limits.Global(), Times(calls)), [];
    if calls[j].source.Some? {
      SourceIsFair(limits, calls, j);
      served := Decide(limits.Sources().quota, Visits(limits, calls, j));
    }
  }
}
