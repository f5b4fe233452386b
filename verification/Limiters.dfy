/**
 Non-waiting admission control: one global limiter in front of a bounded, idle-evicting
 table of per-source limiters. A limiter is an exact GCRA; time counts in ticks fine enough
 for every period to be whole.
 */
module Limiters {
  import opened Common

  /** One cell per `period`, with bursts of at most `burst` cells. */
  datatype Quota = Quota(period: nat, burst: nat) {
    predicate Valid() { period > 0 && burst > 0 }
  }

  function Max(a: int, b: int): int {
    if a < b then b else a
  }

  /** Whether a limiter with theoretical arrival time `tat` admits one cell at `now`. */
  predicate Admits(q: Quota, tat: Time, now: Time) {
    Max(tat, now) + q.period <= now + q.burst * q.period
  }

  function Charge(q: Quota, tat: Time, now: Time): Time {
    if Admits(q, tat, now) then Max(tat, now) + q.period else tat
  }

  datatype Entry = Entry(tat: Time, lastSeen: Time)
  type Table = map<Source, Entry>

  datatype Policy = Policy(quota: Quota, capacity: nat, idle: Time)
  datatype Request = Request(source: Source, now: Time)

  function Retained(t: Table, idle: Time, now: Time): Table {
    map s | s in t && now - t[s].lastSeen < idle :: t[s]
  }

  predicate Full(p: Policy, t: Table, r: Request) {
    var kept := Retained(t, p.idle, r.now);
    r.source !in kept && |kept| == p.capacity
  }

  function Arrival(t: Table, s: Source): Time {
    if s in t then t[s].tat else 0
  }

  predicate TableAdmits(p: Policy, t: Table, r: Request) {
    !Full(p, t, r) && Admits(p.quota, Arrival(Retained(t, p.idle, r.now), r.source), r.now)
  }

  function TableAfter(p: Policy, t: Table, r: Request): Table {
    var kept := Retained(t, p.idle, r.now);
    if Full(p, t, r) then kept
    else kept[r.source := Entry(Charge(p.quota, Arrival(kept, r.source), r.now), r.now)]
  }

  /** The reference: a limiter per source, kept for ever. */
  type Ideal = map<Source, Time>

  function IdealArrival(d: Ideal, s: Source): Time {
    if s in d then d[s] else 0
  }

  predicate IdealAdmits(q: Quota, d: Ideal, r: Request) {
    Admits(q, IdealArrival(d, r.source), r.now)
  }

  function IdealAfter(q: Quota, d: Ideal, r: Request): Ideal {
    d[r.source := Charge(q, IdealArrival(d, r.source), r.now)]
  }

  // ---- the bound ----

  lemma RetainedIsSmaller(t: Table, idle: Time, now: Time)
    ensures |Retained(t, idle, now)| <= |t|
  {
    SubsetSize(Retained(t, idle, now).Keys, t.Keys);
  }

  /** The equality guard bounds the table, and below the bound it is the at-least guard of the enterprise table. */
  lemma TableStaysBounded(p: Policy, t: Table, r: Request)
    requires |t| <= p.capacity
    ensures |TableAfter(p, t, r)| <= p.capacity
    ensures Full(p, t, r) <==> r.source !in Retained(t, p.idle, r.now) && |Retained(t, p.idle, r.now)| >= p.capacity
  {
    var kept := Retained(t, p.idle, r.now);
    RetainedIsSmaller(t, p.idle, r.now);
    if !Full(p, t, r) {
      assert TableAfter(p, t, r).Keys == kept.Keys + {r.source};
    }
  }

  // ---- one table against the reference ----

  datatype Pair = Pair(table: Table, ideal: Ideal, agreed: bool)

  /** Serves the requests on both sides; a full table refuses without charging anybody. */
  function Joint(p: Policy, requests: seq<Request>): Pair {
    if requests == [] then Pair(map[], map[], true)
    else
      var n := |requests| - 1;
      JointStep(p, Joint(p, requests[..n]), requests[n])
  }

  function JointStep(p: Policy, before: Pair, r: Request): Pair {
    if Full(p, before.table, r) then before.(table := TableAfter(p, before.table, r))
    else Pair(TableAfter(p, before.table, r), IdealAfter(p.quota, before.ideal, r),
              before.agreed && TableAdmits(p, before.table, r) == IdealAdmits(p.quota, before.ideal, r))
  }

  /** Over every run, ordered or not, the table never exceeds its capacity. */
  lemma {:induction false} TableNeverExceedsCapacity(p: Policy, requests: seq<Request>)
    ensures |Joint(p, requests).table| <= p.capacity
  {
    if requests != [] {
      var n := |requests| - 1;
      TableNeverExceedsCapacity(p, requests[..n]);
      TableStaysBounded(p, Joint(p, requests[..n]).table, requests[n]);
    }
  }

  ghost predicate Ordered(requests: seq<Request>) {
    forall i, j :: 0 <= i < j < |requests| ==> requests[i].now <= requests[j].now
  }

  /** Every source looks the same on both sides from `now` on, and forgotten debt is spent in time. */
  ghost predicate Matched(p: Policy, t: Table, d: Ideal, now: Time) {
    && (forall s :: Max(Arrival(t, s), now) == Max(IdealArrival(d, s), now))
    && (forall s :: s in t ==> t[s].lastSeen <= now && t[s].tat <= t[s].lastSeen + p.quota.burst * p.quota.period)
  }

  /** Eviction after a full refill time is invisible. */
  lemma RetainedMatched(p: Policy, t: Table, d: Ideal, now: Time, later: Time)
    requires Matched(p, t, d, now) && now <= later && p.quota.burst * p.quota.period <= p.idle
    ensures Matched(p, Retained(t, p.idle, later), d, later)
  {
    var kept := Retained(t, p.idle, later);
    forall s ensures Max(Arrival(kept, s), later) == Max(IdealArrival(d, s), later) {
      assert Max(Arrival(t, s), now) == Max(IdealArrival(d, s), now);
    }
  }

  lemma ChargeMatched(p: Policy, t: Table, d: Ideal, r: Request)
    requires p.quota.Valid() && Matched(p, t, d, r.now)
    ensures Admits(p.quota, Arrival(t, r.source), r.now) == Admits(p.quota, IdealArrival(d, r.source), r.now)
    ensures Matched(p, t[r.source := Entry(Charge(p.quota, Arrival(t, r.source), r.now), r.now)],
                    d[r.source := Charge(p.quota, IdealArrival(d, r.source), r.now)], r.now)
  {
    assert Max(Arrival(t, r.source), r.now) == Max(IdealArrival(d, r.source), r.now);
    var t' := t[r.source := Entry(Charge(p.quota, Arrival(t, r.source), r.now), r.now)];
    var d' := d[r.source := Charge(p.quota, IdealArrival(d, r.source), r.now)];
    forall s ensures Max(Arrival(t', s), r.now) == Max(IdealArrival(d', s), r.now) {
      assert Max(Arrival(t, s), r.now) == Max(IdealArrival(d, s), r.now);
    }
  }

  lemma {:induction false} JointMatched(p: Policy, requests: seq<Request>, now: Time)
    requires p.quota.Valid() && p.quota.burst * p.quota.period <= p.idle
    requires Ordered(requests) && (requests != [] ==> requests[|requests| - 1].now <= now)
    ensures Joint(p, requests).agreed && Matched(p, Joint(p, requests).table, Joint(p, requests).ideal, now)
  {
    if requests != [] {
      var n := |requests| - 1;
      var r := requests[n];
      JointMatched(p, requests[..n], r.now);
      var before := Joint(p, requests[..n]);
      RetainedMatched(p, before.table, before.ideal, r.now, r.now);
      ChargeMatched(p, Retained(before.table, p.idle, r.now), before.ideal, r);
      var after := Joint(p, requests);
      forall s ensures Max(Arrival(after.table, s), now) == Max(IdealArrival(after.ideal, s), now) {
        assert Max(Arrival(after.table, s), r.now) == Max(IdealArrival(after.ideal, s), r.now);
      }
    }
  }

  // ---- the refill condition is exact ----

  function Repeat(count: nat, now: Time): seq<Request> {
    seq(count, _ => Request(0, now))
  }

  lemma RepeatNext(prefix: seq<Request>, count: nat, now: Time)
    requires count > 0
    ensures var all := prefix + Repeat(count, now);
            all[..|all| - 1] == prefix + Repeat(count - 1, now) && all[|all| - 1] == Request(0, now)
  {
  }

  lemma JointNext(p: Policy, prefix: seq<Request>, count: nat, now: Time)
    requires count > 0
    ensures Joint(p, prefix + Repeat(count, now)) ==
            JointStep(p, Joint(p, prefix + Repeat(count - 1, now)), Request(0, now))
  {
    RepeatNext(prefix, count, now);
  }

  lemma MulStep(period: nat, k: nat)
    requires k > 0
    ensures k * period == (k - 1) * period + period
  {
  }

  lemma MulMonotone(a: int, b: int, period: nat)
    requires a <= b
    ensures a * period <= b * period
  {
  }

  /** One request of the only source: `tat` is what the table still knows, `debt` what the reference knows. */
  lemma OneSource(p: Policy, before: Pair, now: Time, tat: Time, debt: Time)
    requires p.capacity > 0 && before.table.Keys <= {0} && before.ideal.Keys <= {0}
    requires tat == Arrival(Retained(before.table, p.idle, now), 0) && debt == IdealArrival(before.ideal, 0)
    ensures JointStep(p, before, Request(0, now)) ==
            Pair(map[0 := Entry(Charge(p.quota, tat, now), now)], map[0 := Charge(p.quota, debt, now)],
                 before.agreed && Admits(p.quota, tat, now) == Admits(p.quota, debt, now))
  {
    var kept := Retained(before.table, p.idle, now);
    if 0 !in kept {
      assert kept == map[];
    }
  }

  /** What `k` admitted requests cost. */
  function Debt(period: nat, k: nat): nat {
    if k == 0 then 0 else Debt(period, k - 1) + period
  }

  lemma {:induction false} DebtIsProduct(period: nat, k: nat)
    ensures Debt(period, k) == k * period
  {
    if k > 0 {
      DebtIsProduct(period, k - 1);
      MulStep(period, k);
    }
  }

  lemma DebtBound(period: nat, k: nat, burst: nat)
    requires k <= burst
    ensures Debt(period, k) <= burst * period
  {
    DebtIsProduct(period, k);
    MulMonotone(k, burst, period);
  }

  /** Both sides after one source has made `k` admitted requests at time zero. */
  ghost function Spent(period: nat, k: nat): Pair {
    if k == 0 then Pair(map[], map[], true)
    else Pair(map[0 := Entry(Debt(period, k), 0)], map[0 := Debt(period, k)], true)
  }

  lemma SpendOne(p: Policy, k: nat)
    requires p.capacity > 0 && p.idle > 0 && k > 0 && Debt(p.quota.period, k) <= p.quota.burst * p.quota.period
    ensures JointStep(p, Spent(p.quota.period, k - 1), Request(0, 0)) == Spent(p.quota.period, k)
  {
    var spent := Debt(p.quota.period, k - 1);
    OneSource(p, Spent(p.quota.period, k - 1), 0, spent, spent);
  }

  /** A source spends its whole burst at time zero. */
  lemma {:induction false} SpendBurst(p: Policy, k: nat)
    requires p.quota.Valid() && p.capacity > 0 && p.idle > 0 && k <= p.quota.burst
    ensures Joint(p, [] + Repeat(k, 0)) == Spent(p.quota.period, k)
  {
    if k > 0 {
      SpendBurst(p, k - 1);
      JointNext(p, [], k, 0);
      DebtBound(p.quota.period, k, p.quota.burst);
      SpendOne(p, k);
    }
  }

  /** After an eviction that came too early the table has forgotten the debt the reference still holds. */
  ghost predicate Forgot(p: Policy, j: Pair, k: nat) {
    && j.agreed && j.table.Keys <= {0} && j.ideal.Keys <= {0}
    && Max(Arrival(Retained(j.table, p.idle, p.idle), 0), p.idle) == p.idle + Debt(p.quota.period, k)
    && IdealArrival(j.ideal, 0) == Debt(p.quota.period, p.quota.burst) + Debt(p.quota.period, k)
  }

  lemma SpentIsForgotten(p: Policy, k: nat)
    requires p.idle > 0 && k == p.quota.burst
    ensures Forgot(p, Spent(p.quota.period, k), 0)
  {
    assert Retained(Spent(p.quota.period, k).table, p.idle, p.idle) == map[];
  }

  lemma ForgetsBurst(p: Policy)
    requires p.quota.Valid() && p.capacity > 0 && p.idle > 0
    ensures Forgot(p, Joint(p, Repeat(p.quota.burst, 0) + Repeat(0, p.idle)), 0)
  {
    SpendBurst(p, p.quota.burst);
    SpentIsForgotten(p, p.quota.burst);
    assert Repeat(p.quota.burst, 0) + Repeat(0, p.idle) == [] + Repeat(p.quota.burst, 0);
  }

  /** One more request after the eviction, with `total` the reference's whole burst. */
  lemma ForgottenStep(p: Policy, before: Pair, k: nat)
    requires p.capacity > 0 && p.idle > 0 && k > 0 && Forgot(p, before, k - 1)
    requires Debt(p.quota.period, p.quota.burst) == p.quota.burst * p.quota.period
    ensures var after := JointStep(p, before, Request(0, p.idle));
            if Debt(p.quota.period, k) <= p.idle < p.quota.burst * p.quota.period then Forgot(p, after, k)
            else p.idle < Debt(p.quota.period, k) <= p.quota.burst * p.quota.period ==> !after.agreed
  {
    OneSource(p, before, p.idle, Arrival(Retained(before.table, p.idle, p.idle), 0), IdealArrival(before.ideal, 0));
  }

  lemma {:induction false} SpendAgain(p: Policy, k: nat)
    requires p.quota.Valid() && p.capacity > 0 && 0 < p.idle < p.quota.burst * p.quota.period
    requires Debt(p.quota.period, k) <= p.idle
    ensures Forgot(p, Joint(p, Repeat(p.quota.burst, 0) + Repeat(k, p.idle)), k)
  {
    if k == 0 {
      ForgetsBurst(p);
    } else {
      SpendAgain(p, k - 1);
      JointNext(p, Repeat(p.quota.burst, 0), k, p.idle);
      DebtIsProduct(p.quota.period, p.quota.burst);
      ForgottenStep(p, Joint(p, Repeat(p.quota.burst, 0) + Repeat(k - 1, p.idle)), k);
    }
  }

  /** The run on which a table whose idle time is too short admits a request the reference refuses. */
  ghost function Witness(p: Policy): (requests: seq<Request>)
    requires p.quota.Valid()
    ensures Ordered(requests)
  {
    Repeat(p.quota.burst, 0) + Repeat(p.idle / p.quota.period + 1, p.idle)
  }

  lemma DivBounds(a: nat, period: nat, burst: nat)
    requires period > 0 && a < burst * period
    ensures Debt(period, a / period) <= a < Debt(period, a / period + 1) <= burst * period
  {
    DebtIsProduct(period, a / period);
    DebtIsProduct(period, a / period + 1);
    if a / period >= burst {
      MulMonotone(burst, a / period, period);
    }
    MulMonotone(a / period + 1, burst, period);
  }

  lemma EarlyEvictionDiverges(p: Policy)
    requires p.quota.Valid() && p.capacity > 0 && 0 < p.idle < p.quota.burst * p.quota.period
    ensures !Joint(p, Witness(p)).agreed
  {
    var k := p.idle / p.quota.period + 1;
    DivBounds(p.idle, p.quota.period, p.quota.burst);
    SpendAgain(p, k - 1);
    JointNext(p, Repeat(p.quota.burst, 0), k, p.idle);
    DebtIsProduct(p.quota.period, p.quota.burst);
    ForgottenStep(p, Joint(p, Repeat(p.quota.burst, 0) + Repeat(k - 1, p.idle)), k);
  }

  /**
   The idle-evicting table decides like the unbounded reference on every ordered run, full-table
   refusals aside, exactly when its idle time covers the refill of a whole burst.
   */
  lemma EvictionIsInvisible(p: Policy)
    requires p.quota.Valid() && p.capacity > 0 && p.idle > 0
    ensures (forall requests :: Ordered(requests) ==> Joint(p, requests).agreed) <==>
            p.quota.burst * p.quota.period <= p.idle
  {
    if p.quota.burst * p.quota.period <= p.idle {
      forall requests: seq<Request> | Ordered(requests) ensures Joint(p, requests).agreed {
        JointMatched(p, requests, if requests == [] then 0 else requests[|requests| - 1].now);
      }
    } else {
      EarlyEvictionDiverges(p);
    }
  }

  // ---- the global limiter keeps the table from ever filling up ----

  /** A validated resolve policy; rates are per second. */
  datatype ResolveLimits = ResolveLimits(
    globalRate: nat, globalBurst: nat, sourceRate: nat, sourceBurst: nat, capacity: nat, idleSeconds: nat)
  {
    /** What the constructor of the policy checks. */
    predicate Accepted() {
      && globalRate > 0 && globalBurst > 0 && sourceRate > 0 && sourceBurst > 0 && capacity > 0 && idleSeconds > 0
      && sourceRate <= globalRate && sourceBurst <= globalBurst
      && globalRate * idleSeconds + globalBurst <= capacity
    }

    // One second is `globalRate * sourceRate` ticks.
    function Global(): Quota { Quota(sourceRate, globalBurst) }
    function Sources(): Policy {
      Policy(Quota(globalRate, sourceBurst), capacity, idleSeconds * (globalRate * sourceRate))
    }
  }

  /** The enterprise start limits: one per second with a burst of four, ten minutes idle, 1024 sources. */
  const ENTERPRISE: ResolveLimits := ResolveLimits(1, 4, 1, 4, 1024, 600)

  /** A call reaches the source table only after the global limiter, and only with a source. */
  datatype Call = Call(source: Option<Source>, now: Time)

  datatype Served = Served(global: Time, table: Table, ideal: Ideal, agreed: bool, everFull: bool)

  function Serve(limits: ResolveLimits, calls: seq<Call>): Served {
    if calls == [] then Served(0, map[], map[], true, false)
    else
      var n := |calls| - 1;
      ServeStep(limits, Serve(limits, calls[..n]), calls[n])
  }

  function ServeStep(limits: ResolveLimits, s: Served, c: Call): Served {
    if !Admits(limits.Global(), s.global, c.now) then s
    else
      var charged := s.(global := Charge(limits.Global(), s.global, c.now));
      if c.source.None? then charged
      else
        var r, p := Request(c.source.value, c.now), limits.Sources();
        charged.(
          table := TableAfter(p, s.table, r),
          ideal := IdealAfter(p.quota, s.ideal, r),
          agreed := s.agreed && TableAdmits(p, s.table, r) == IdealAdmits(p.quota, s.ideal, r),
          everFull := s.everFull || Full(p, s.table, r))
  }

  ghost predicate InOrder(calls: seq<Call>) {
    forall i, j :: 0 <= i < j < |calls| ==> calls[i].now <= calls[j].now
  }

  /** The sources seen at or after `a`. */
  function Recent(t: Table, a: int): set<Source> {
    set s | s in t && t[s].lastSeen >= a
  }

  /** Every recently seen source has paid for one cell of the global limiter. */
  ghost predicate Paced(q: Quota, g: Time, t: Table, now: Time) {
    && g <= now + q.burst * q.period
    && (forall s :: s in t ==> t[s].lastSeen <= now)
    && (forall a :: Recent(t, a) != {} ==> a + |Recent(t, a)| * q.period <= g)
  }

  lemma RecentShrinks(t: Table, u: Table, a: int)
    requires forall s :: s in u ==> s in t && u[s] == t[s]
    ensures |Recent(u, a)| <= |Recent(t, a)|
  {
    assert Recent(t, a) == Recent(u, a) + (Recent(t, a) - Recent(u, a));
  }

  lemma RetainedPaced(q: Quota, g: Time, t: Table, idle: Time, now: Time)
    requires Paced(q, g, t, now)
    ensures Paced(q, g, Retained(t, idle, now), now)
  {
    var kept := Retained(t, idle, now);
    forall a | Recent(kept, a) != {} ensures a + |Recent(kept, a)| * q.period <= g {
      RecentShrinks(t, kept, a);
      assert Recent(kept, a) <= Recent(t, a);
      MulMonotone(|Recent(kept, a)|, |Recent(t, a)|, q.period);
    }
  }

  lemma TouchRecent(t: Table, s: Source, e: Entry, a: int)
    ensures |Recent(t[s := e], a)| <= |Recent(t, a)| + 1
  {
    var before, after := Recent(t, a), Recent(t[s := e], a);
    assert after <= before + {s};
    assert before + {s} == after + (before + {s} - after);
  }

  lemma TouchPaced(q: Quota, g: Time, t: Table, s: Source, e: Entry, now: Time)
    requires Paced(q, g, t, now) && Admits(q, g, now) && e.lastSeen == now
    ensures Paced(q, Charge(q, g, now), t[s := e], now)
  {
    var u := t[s := e];
    forall a | Recent(u, a) != {} ensures a + |Recent(u, a)| * q.period <= Charge(q, g, now) {
      TouchRecent(t, s, e, a);
      var bound := |Recent(t, a)| + 1;
      MulMonotone(|Recent(u, a)|, bound, q.period);
      MulStep(q.period, bound);
      var x :| x in Recent(u, a);
      assert a <= now;
    }
  }

  lemma MulCancel(a: int, b: int, period: nat)
    requires a * period < b * period
    ensures a < b
  {
    if b <= a {
      MulMonotone(b, a, period);
    }
  }

  /** A table of sources younger than `idle` cannot outgrow what the global limiter lets through. */
  lemma PacedIsSmall(q: Quota, g: Time, t: Table, idle: Time, now: Time, capacity: nat)
    requires q.Valid() && Paced(q, g, t, now) && Admits(q, g, now)
    requires forall s :: s in t ==> now - t[s].lastSeen < idle
    requires q.burst <= capacity && idle <= (capacity - q.burst) * q.period
    ensures |t| < capacity
  {
    if t.Keys != {} {
      var a := now - idle + 1;
      assert Recent(t, a) == t.Keys;
      assert (capacity - q.burst) * q.period == capacity * q.period - q.burst * q.period;
      MulCancel(|t|, capacity, q.period);
    }
  }

  lemma WindowFits(limits: ResolveLimits)
    requires limits.Accepted()
    ensures limits.Sources().idle <= (limits.capacity - limits.globalBurst) * limits.sourceRate
    ensures limits.sourceBurst <= limits.sourceRate * limits.idleSeconds ==>
              limits.Sources().quota.burst * limits.Sources().quota.period <= limits.Sources().idle
  {
    var window := limits.globalRate * limits.idleSeconds;
    MulMonotone(window, limits.capacity - limits.globalBurst, limits.sourceRate);
    assert limits.Sources().idle == window * limits.sourceRate;
    assert limits.Sources().idle == limits.sourceRate * limits.idleSeconds * limits.globalRate;
    if limits.sourceBurst <= limits.sourceRate * limits.idleSeconds {
      MulMonotone(limits.sourceBurst, limits.sourceRate * limits.idleSeconds, limits.globalRate);
    }
  }

  ghost predicate ServedInv(limits: ResolveLimits, s: Served, now: Time) {
    && !s.everFull
    && Paced(limits.Global(), s.global, s.table, now)
    && (limits.sourceBurst <= limits.sourceRate * limits.idleSeconds ==>
          s.agreed && Matched(limits.Sources(), s.table, s.ideal, now))
  }

  lemma ServedLater(limits: ResolveLimits, s: Served, now: Time, later: Time)
    requires ServedInv(limits, s, now) && now <= later
    ensures ServedInv(limits, s, later)
  {
    if limits.sourceBurst <= limits.sourceRate * limits.idleSeconds {
      forall x ensures Max(Arrival(s.table, x), later) == Max(IdealArrival(s.ideal, x), later) {
        assert Max(Arrival(s.table, x), now) == Max(IdealArrival(s.ideal, x), now);
      }
    }
  }

  lemma ServeStepKeepsInv(limits: ResolveLimits, s: Served, c: Call)
    requires limits.Accepted() && ServedInv(limits, s, c.now)
    ensures ServedInv(limits, ServeStep(limits, s, c), c.now)
  {
    var g, p := limits.Global(), limits.Sources();
    if Admits(g, s.global, c.now) && c.source.Some? {
      var r := Request(c.source.value, c.now);
      var kept := Retained(s.table, p.idle, c.now);
      WindowFits(limits);
      RetainedPaced(g, s.global, s.table, p.idle, c.now);
      PacedIsSmall(g, s.global, kept, p.idle, c.now, limits.capacity);
      TouchPaced(g, s.global, kept, r.source, Entry(Charge(p.quota, Arrival(kept, r.source), r.now), r.now), c.now);
      if limits.sourceBurst <= limits.sourceRate * limits.idleSeconds {
        RetainedMatched(p, s.table, s.ideal, c.now, c.now);
        ChargeMatched(p, kept, s.ideal, r);
      }
    }
  }

  lemma {:induction false} ServeKeepsInv(limits: ResolveLimits, calls: seq<Call>, now: Time)
    requires limits.Accepted() && InOrder(calls) && (calls != [] ==> calls[|calls| - 1].now <= now)
    ensures ServedInv(limits, Serve(limits, calls), now)
  {
    if calls != [] {
      var n := |calls| - 1;
      ServeKeepsInv(limits, calls[..n], calls[n].now);
      ServeStepKeepsInv(limits, Serve(limits, calls[..n]), calls[n]);
      ServedLater(limits, Serve(limits, calls), calls[n].now, now);
    }
  }

  /**
   Under every accepted policy no call ever meets a full source table, and if the idle time covers
   the refill of a source burst every decision is that of a relay that never forgets a source.
   */
  lemma AcceptedPolicyNeverFills(limits: ResolveLimits, calls: seq<Call>)
    requires limits.Accepted() && InOrder(calls)
    ensures !Serve(limits, calls).everFull
    ensures limits.sourceBurst <= limits.sourceRate * limits.idleSeconds ==> Serve(limits, calls).agreed
  {
    ServeKeepsInv(limits, calls, if calls == [] then 0 else calls[|calls| - 1].now);
  }

  /** The enterprise constants satisfy both conditions, so enterprise starts are limited ideally. */
  lemma EnterpriseLimitsAreIdeal(calls: seq<Call>)
    requires InOrder(calls)
    ensures !Serve(ENTERPRISE, calls).everFull && Serve(ENTERPRISE, calls).agreed
  {
    AcceptedPolicyNeverFills(ENTERPRISE, calls);
  }

  // ---- the relay's limiter object ----

  /** The global limiter and the source table, updated in place by every check. */
  class ResolveLimiters {
    const limits: ResolveLimits
    var global: Time
    var sources: Table

    ghost predicate Valid()
      reads this
    {
      |sources| <= limits.capacity
    }

    constructor (limits: ResolveLimits)
      ensures Valid() && this.limits == limits && global == 0 && sources == map[]
    {
      this.limits := limits;
      global, sources := 0, map[];
    }

    method Prune(now: Time)
      requires Valid()
      modifies this`sources
      ensures Valid() && sources == Retained(old(sources), limits.Sources().idle, now)
    {
      RetainedIsSmaller(sources, limits.Sources().idle, now);
      sources := map s | s in sources && now - sources[s].lastSeen < limits.Sources().idle :: sources[s];
    }

    method CheckGlobal(now: Time) returns (allowed: bool)
      modifies this`global
      ensures allowed == Admits(limits.Global(), old(global), now)
      ensures global == Charge(limits.Global(), old(global), now)
    {
      var q := limits.Global();
      allowed := Max(global, now) + q.period <= now + q.burst * q.period;
      if allowed {
        global := Max(global, now) + q.period;
      }
    }

    method CheckSource(source: Source, now: Time) returns (allowed: bool)
      requires Valid()
      modifies this`sources
      ensures Valid()
      ensures allowed == TableAdmits(limits.Sources(), old(sources), Request(source, now))
      ensures sources == TableAfter(limits.Sources(), old(sources), Request(source, now))
    {
      TableStaysBounded(limits.Sources(), sources, Request(source, now));
      Prune(now);
      var q := limits.Sources().quota;
      if source in sources {
        var limiter := sources[source].tat;
        allowed := Admits(q, limiter, now);
        sources := sources[source := Entry(Charge(q, limiter, now), now)];
        return;
      }
      if |sources| == limits.capacity {
        return false;
      }
      allowed := Admits(q, 0, now);
      sources := sources[source := Entry(Charge(q, 0, now), now)];
    }

    /** Checks global first, then the bounded source table. */
    method Check(source: Option<Source>, now: Time) returns (allowed: bool)
      requires Valid()
      modifies this
      ensures Valid()
      ensures global == Charge(limits.Global(), old(global), now)
      ensures var reached := Admits(limits.Global(), old(global), now) && source.Some?;
              if reached
              then sources == TableAfter(limits.Sources(), old(sources), Request(source.value, now))
                   && allowed == TableAdmits(limits.Sources(), old(sources), Request(source.value, now))
              else sources == old(sources) && !allowed
    {
      var passed := CheckGlobal(now);
      if !passed || source.None? {
        return false;
      }
      allowed := CheckSource(source.value, now);
    }
  }

  datatype Verdicts = Verdicts(global: Time, ideal: Ideal, decisions: seq<bool>)

  /** The decisions of a relay with the same quotas that never forgets a source. */
  function Reference(limits: ResolveLimits, calls: seq<Call>): Verdicts {
    if calls == [] then Verdicts(0, map[], [])
    else
      var n := |calls| - 1;
      var v, c, q := Reference(limits, calls[..n]), calls[n], limits.Sources().quota;
      var passed := Admits(limits.Global(), v.global, c.now);
      var global := Charge(limits.Global(), v.global, c.now);
      if !passed || c.source.None? then Verdicts(global, v.ideal, v.decisions + [false])
      else
        var r := Request(c.source.value, c.now);
        Verdicts(global, IdealAfter(q, v.ideal, r), v.decisions + [IdealAdmits(q, v.ideal, r)])
  }

  /** One more call, on the bounded relay and on the reference, which still agree. */
  lemma ServeNext(limits: ResolveLimits, calls: seq<Call>, i: nat)
    requires limits.Accepted() && InOrder(calls) && i < |calls|
    requires limits.sourceBurst <= limits.sourceRate * limits.idleSeconds
    requires Serve(limits, calls[..i]).ideal == Reference(limits, calls[..i]).ideal
    requires Serve(limits, calls[..i]).global == Reference(limits, calls[..i]).global
    ensures var s, t, c := Serve(limits, calls[..i]), Serve(limits, calls[..i + 1]), calls[i];
            var v, w := Reference(limits, calls[..i]), Reference(limits, calls[..i + 1]);
            var reached := Admits(limits.Global(), s.global, c.now) && c.source.Some?;
            && t == ServeStep(limits, s, c) && t.ideal == w.ideal && t.global == w.global
            && w.decisions == v.decisions + [reached &&
                 TableAdmits(limits.Sources(), s.table, Request(if c.source.Some? then c.source.value else 0, c.now))]
  {
    ServeKeepsInv(limits, calls[..i], calls[i].now);
    ServeKeepsInv(limits, calls[..i + 1], calls[i].now);
    assert calls[..i + 1][..i] == calls[..i];
  }

  /** The bounded limiter object answers every ordered sequence of calls like the unbounded reference. */
  method CheckAll(limits: ResolveLimits, calls: seq<Call>) returns (decisions: seq<bool>)
    requires limits.Accepted() && InOrder(calls)
    requires limits.sourceBurst <= limits.sourceRate * limits.idleSeconds
    ensures decisions == Reference(limits, calls).decisions
  {
    var limiters := new ResolveLimiters(limits);
    decisions := [];
    for i := 0 to |calls|
      invariant fresh(limiters) && limiters.limits == limits && limiters.Valid()
      invariant var s, v := Serve(limits, calls[..i]), Reference(limits, calls[..i]);
                && limiters.global == s.global == v.global && limiters.sources == s.table
                && s.ideal == v.ideal && decisions == v.decisions
    {
      var allowed := limiters.Check(calls[i].source, calls[i].now);
      ServeNext(limits, calls, i);
      decisions := decisions + [allowed];
    }
    assert calls[..|calls|] == calls;
  }
}
