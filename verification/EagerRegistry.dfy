/**
 The reference rendezvous registry: one map, and a clock that drops a mapping the
 instant its owner has been unavailable for the whole grace period. No operation
 prunes, counts or indexes anything.
 */
module EagerRegistry {
  import opened Common

  const SUSPEND_GRACE: Time := 120 * SECOND

  datatype MappingState = Active | Suspended(since: Time)
  datatype Mapping = Mapping(owner: Peer, source: Source, state: MappingState)

  datatype Limits = Limits(capacity: nat, perSource: nat)

  datatype Registry = Registry(
    mappings: map<Locator, Mapping>,
    reservations: set<Peer>,
    connections: set<Peer>,
    now: Time)

  datatype Event =
    | Advance(elapsed: Time)
    | SetReservation(peer: Peer, up: bool)
    | SetConnection(peer: Peer, up: bool)
    | Allocate(owner: Peer, source: Source, random: Option<Locator>)
    | Reclaim(owner: Peer, source: Source, locator: Locator)
    | Release(owner: Peer, locator: Locator)
    | Resolve(locator: Locator)

  datatype Response =
    | Nothing
    | ReservationRequired
    | Acquired(locator: Locator)
    | Conflict
    | Capacity
    | RandomFailed
    | Released
    | Resolved(peer: Peer)
    | Retry
    | Unavailable

  const EMPTY: Registry := Registry(map[], {}, {}, 0)

  predicate Expired(m: Mapping, now: Time) {
    m.state.Suspended? && now - m.state.since >= SUSPEND_GRACE
  }

  /** The mappings still inside their grace period. */
  function Live(m: map<Locator, Mapping>, now: Time): map<Locator, Mapping> {
    map l | l in m && !Expired(m[l], now) :: m[l]
  }

  predicate Available(s: Registry, p: Peer) {
    p in s.reservations && p in s.connections
  }

  ghost predicate Holds(m: map<Locator, Mapping>, p: Peer) {
    exists l :: l in m && m[l].owner == p
  }

  /** The locator held by `p`; owners hold at most one. */
  ghost function LocatorOf(m: map<Locator, Mapping>, p: Peer): (l: Locator)
    requires Holds(m, p)
    ensures l in m && m[l].owner == p
  {
    var l :| l in m && m[l].owner == p;
    l
  }

  function OfSource(m: map<Locator, Mapping>, source: Source): set<Locator> {
    set l | l in m && m[l].source == source
  }

  predicate HasCapacity(limits: Limits, m: map<Locator, Mapping>, source: Source) {
    |m| < limits.capacity && |OfSource(m, source)| < limits.perSource
  }

  /** How far `l` lies after `start` in ring order. */
  function RingDistance(start: Locator, l: Locator): nat {
    if start <= l then l - start else l + LOCATOR_SPACE - start
  }

  /** `l` is unused and no unused locator comes earlier in ring order from `start`. */
  ghost predicate FirstFree(m: map<Locator, Mapping>, start: Locator, l: Locator) {
    && l !in m
    && forall other: Locator :: other !in m ==> RingDistance(start, l) <= RingDistance(start, other)
  }

  /** Applies the Active invariant to the mapping of one peer. */
  function Refreshed(state: MappingState, available: bool, now: Time): MappingState {
    if available then Active else if state.Active? then Suspended(now) else state
  }

  function RefreshAll(m: map<Locator, Mapping>, p: Peer, available: bool, now: Time): map<Locator, Mapping> {
    map l | l in m :: if m[l].owner == p then m[l].(state := Refreshed(m[l].state, available, now)) else m[l]
  }

  function Refresh(s: Registry, p: Peer): Registry {
    s.(mappings := RefreshAll(s.mappings, p, Available(s, p), s.now))
  }

  function Member(members: set<Peer>, p: Peer, up: bool): set<Peer> {
    if up then members + {p} else members - {p}
  }

  function Insert(s: Registry, l: Locator, owner: Peer, source: Source): Registry {
    s.(mappings := s.mappings[l := Mapping(owner, source, Active)])
  }

  function Advanced(s: Registry, elapsed: Time): Registry {
    s.(now := s.now + elapsed, mappings := Live(s.mappings, s.now + elapsed))
  }

  /** Whether the reference registry can answer `event` with `r` and move from `s` to `t`. */
  ghost predicate Step(limits: Limits, s: Registry, event: Event, t: Registry, r: Response) {
    match event
    case Advance(elapsed) =>
      r == Nothing && t == Advanced(s, elapsed)
    case SetReservation(p, up) =>
      r == Nothing && t == Refresh(s.(reservations := Member(s.reservations, p, up)), p)
    case SetConnection(p, up) =>
      r == Nothing && t == Refresh(s.(connections := Member(s.connections, p, up)), p)
    case Allocate(owner, source, random) =>
      if !Available(s, owner) then t == s && r == ReservationRequired
      else if Holds(s.mappings, owner) then t == s && r == Acquired(LocatorOf(s.mappings, owner))
      else if !HasCapacity(limits, s.mappings, source) then t == s && r == Capacity
      else if random.None? then t == s && r == RandomFailed
      else
        && r.Acquired?
        && FirstFree(s.mappings, random.value, r.locator)
        && t == Insert(s, r.locator, owner, source)
    case Reclaim(owner, source, l) =>
      if !Available(s, owner) then t == s && r == ReservationRequired
      else if Holds(s.mappings, owner) then
        t == s && r == if LocatorOf(s.mappings, owner) == l then Acquired(l) else Conflict
      else if l in s.mappings then t == s && r == Conflict
      else if !HasCapacity(limits, s.mappings, source) then t == s && r == Capacity
      else t == Insert(s, l, owner, source) && r == Acquired(l)
    case Release(owner, l) =>
      && r == Released
      && t == if l in s.mappings && s.mappings[l].owner == owner
              then s.(mappings := s.mappings - {l}) else s
    case Resolve(l) =>
      && t == s
      && r == if l !in s.mappings then Unavailable
              else if s.mappings[l].state.Active? then Resolved(s.mappings[l].owner)
              else Retry
  }

  /** A whole history: the states visited and the answers given from the empty registry on. */
  ghost predicate Run(limits: Limits, events: seq<Event>, states: seq<Registry>, responses: seq<Response>) {
    && |states| == |events| + 1
    && |responses| == |events|
    && states[0] == EMPTY
    && forall i {:trigger events[i]} :: 0 <= i < |events| ==>
         Step(limits, states[i], events[i], states[i + 1], responses[i])
  }

  lemma ExtendRun(limits: Limits, events: seq<Event>, states: seq<Registry>, responses: seq<Response>,
                  event: Event, t: Registry, r: Response)
    requires Run(limits, events, states, responses) && Step(limits, states[|events|], event, t, r)
    ensures Run(limits, events + [event], states + [t], responses + [r])
  {
    var es, ss, rs := events + [event], states + [t], responses + [r];
    forall i | 0 <= i < |es| ensures Step(limits, ss[i], es[i], ss[i + 1], rs[i]) {
      if i < |events| {
        assert es[i] == events[i];
      }
    }
  }

  /** What every state of every history satisfies. */
  ghost predicate Inv(limits: Limits, s: Registry) {
    && (forall l, k :: l in s.mappings && k in s.mappings && s.mappings[l].owner == s.mappings[k].owner ==> l == k)
    && (forall l :: l in s.mappings ==> !Expired(s.mappings[l], s.now))
    && (forall l :: l in s.mappings ==> (s.mappings[l].state.Active? <==> Available(s, s.mappings[l].owner)))
    && Quotas(limits, s.mappings)
  }

  /** The total and the per-source registration quotas. */
  ghost predicate Quotas(limits: Limits, m: map<Locator, Mapping>) {
    && |m| <= limits.capacity
    && forall x :: |OfSource(m, x)| <= limits.perSource
  }

  lemma SubmapCounts(m: map<Locator, Mapping>, n: map<Locator, Mapping>)
    requires forall l :: l in n ==> l in m && n[l].source == m[l].source
    ensures |n| <= |m|
    ensures forall x :: |OfSource(n, x)| <= |OfSource(m, x)|
  {
    SubsetSize(n.Keys, m.Keys);
    forall x ensures |OfSource(n, x)| <= |OfSource(m, x)| {
      SubsetSize(OfSource(n, x), OfSource(m, x));
    }
  }

  lemma InsertCount(m: map<Locator, Mapping>, l: Locator, x: Mapping, s: Source)
    requires l !in m
    ensures |OfSource(m[l := x], s)| == |OfSource(m, s)| + if s == x.source then 1 else 0
  {
    var before, after := OfSource(m, s), OfSource(m[l := x], s);
    if s == x.source {
      assert after == before + {l};
    } else {
      assert after == before;
    }
  }

  lemma DropKeepsInv(limits: Limits, s: Registry, t: Registry)
    requires Inv(limits, s)
    requires t.reservations == s.reservations && t.connections == s.connections
    requires forall l :: l in t.mappings ==>
               l in s.mappings && t.mappings[l] == s.mappings[l] && !Expired(t.mappings[l], t.now)
    ensures Inv(limits, t)
  {
    SubmapCounts(s.mappings, t.mappings);
  }

  /** Changing the signals of `p` alone and refreshing `p` restores the Active invariant. */
  lemma RefreshKeepsInv(limits: Limits, s: Registry, u: Registry, p: Peer)
    requires Inv(limits, s) && u.mappings == s.mappings && u.now == s.now
    requires forall q :: q != p ==> (Available(u, q) <==> Available(s, q))
    ensures Inv(limits, Refresh(u, p))
  {
    var t := Refresh(u, p);
    SubmapCounts(s.mappings, t.mappings);
    forall l | l in t.mappings
      ensures !Expired(t.mappings[l], t.now)
      ensures t.mappings[l].state.Active? <==> Available(t, t.mappings[l].owner)
    {
      assert !Expired(s.mappings[l], s.now);
    }
  }

  lemma InsertKeepsQuotas(limits: Limits, m: map<Locator, Mapping>, l: Locator, x: Mapping)
    requires Quotas(limits, m) && l !in m && HasCapacity(limits, m, x.source)
    ensures Quotas(limits, m[l := x])
  {
    var n := m[l := x];
    assert n.Keys == m.Keys + {l};
    forall s ensures |OfSource(n, s)| <= limits.perSource {
      InsertCount(m, l, x, s);
      assert |OfSource(m, s)| <= limits.perSource;
    }
  }

  lemma InsertKeepsInv(limits: Limits, s: Registry, l: Locator, owner: Peer, source: Source)
    requires Inv(limits, s) && l !in s.mappings
    requires Available(s, owner) && !Holds(s.mappings, owner) && HasCapacity(limits, s.mappings, source)
    ensures Inv(limits, Insert(s, l, owner, source))
  {
    InsertKeepsQuotas(limits, s.mappings, l, Mapping(owner, source, Active));
  }

  lemma StepKeepsInv(limits: Limits, s: Registry, event: Event, t: Registry, r: Response)
    requires Inv(limits, s) && Step(limits, s, event, t, r)
    ensures Inv(limits, t)
  {
    match event
    case Advance(_) => DropKeepsInv(limits, s, t);
    case SetReservation(p, up) => RefreshKeepsInv(limits, s, s.(reservations := Member(s.reservations, p, up)), p);
    case SetConnection(p, up) => RefreshKeepsInv(limits, s, s.(connections := Member(s.connections, p, up)), p);
    case Allocate(owner, source, _) => if t != s { InsertKeepsInv(limits, s, r.locator, owner, source); }
    case Reclaim(owner, source, l) => if t != s { InsertKeepsInv(limits, s, l, owner, source); }
    case Release(_, _) => DropKeepsInv(limits, s, t);
    case Resolve(_) =>
  }

  lemma {:induction false} RunKeepsInv(limits: Limits, events: seq<Event>, states: seq<Registry>,
                                       responses: seq<Response>, i: nat)
    requires Run(limits, events, states, responses) && i <= |events|
    ensures Inv(limits, states[i])
  {
    if i == 0 {
      assert forall x :: OfSource(EMPTY.mappings, x) == {};
    } else {
      RunKeepsInv(limits, events, states, responses, i - 1);
      StepKeepsInv(limits, states[i - 1], events[i - 1], states[i], responses[i - 1]);
    }
  }

  /** The reference registry is deterministic: a history fixes every answer. */
  lemma {:induction false} RunIsUnique(limits: Limits, events: seq<Event>,
                                       s1: seq<Registry>, r1: seq<Response>, s2: seq<Registry>, r2: seq<Response>)
    requires Run(limits, events, s1, r1) && Run(limits, events, s2, r2)
    ensures s1 == s2 && r1 == r2
  {
    if events != [] {
      var n := |events| - 1;
      RunIsUnique(limits, events[..n], s1[..n + 1], r1[..n], s2[..n + 1], r2[..n]);
      RunKeepsInv(limits, events, s1, r1, n);
      StepIsUnique(limits, s1[n], events[n], s1[n + 1], r1[n], s2[n + 1], r2[n]);
      assert s1 == s1[..n + 1] + [s1[n + 1]] && s2 == s2[..n + 1] + [s2[n + 1]];
      assert r1 == r1[..n] + [r1[n]] && r2 == r2[..n] + [r2[n]];
    }
  }

  lemma StepIsUnique(limits: Limits, s: Registry, event: Event, t1: Registry, r1: Response, t2: Registry, r2: Response)
    requires Step(limits, s, event, t1, r1) && Step(limits, s, event, t2, r2)
    ensures t1 == t2 && r1 == r2
  {
    if event.Allocate? && r1.Acquired? && r2.Acquired? && t1 != s {
      assert RingDistance(event.random.value, r1.locator) == RingDistance(event.random.value, r2.locator);
    }
  }

  ghost predicate Resolves(s: Registry, l: Locator, p: Peer) {
    l in s.mappings && s.mappings[l] == Mapping(p, s.mappings[l].source, Active)
  }

  /** `p` was unavailable in every state of `[a, b]`. */
  ghost predicate DownThroughout(states: seq<Registry>, p: Peer, a: nat, b: nat) {
    && a <= b < |states|
    && forall k :: a <= k <= b ==> !Available(states[k], p)
  }

  /** `p` gave `l` up, or was unavailable for a whole grace period, between states `i` and `j`. */
  ghost predicate LostLocator(events: seq<Event>, states: seq<Registry>, l: Locator, p: Peer, i: nat, j: nat)
    requires |states| == |events| + 1
  {
    || (exists k :: i <= k < j && k < |events| && events[k] == Release(p, l))
    || (exists a, b {:trigger DownThroughout(states, p, a, b)} :: i <= a <= b <= j
          && DownThroughout(states, p, a, b) && states[b].now - states[a].now >= 120 * SECOND)
  }

  /** `p` still holds `l`; if suspended, it has been down ever since state `a`, where the grace began. */
  ghost predicate StillHeld(states: seq<Registry>, l: Locator, p: Peer, i: nat, j: nat, a: nat)
    requires j < |states|
  {
    && l in states[j].mappings
    && states[j].mappings[l].owner == p
    && (states[j].mappings[l].state.Suspended? ==>
          i <= a <= j && DownThroughout(states, p, a, j) && states[a].now == states[j].mappings[l].state.since)
  }

  /** Nobody but its owner or the grace period takes a mapping away, and a running grace never restarts. */
  lemma HeldStep(limits: Limits, s: Registry, event: Event, t: Registry, r: Response, l: Locator)
    requires Inv(limits, s) && Step(limits, s, event, t, r) && l in s.mappings
    ensures l !in t.mappings ==>
              || event == Release(s.mappings[l].owner, l)
              || (event.Advance? && t == s.(now := t.now, mappings := t.mappings) && Expired(s.mappings[l], t.now))
    ensures l in t.mappings ==>
              && t.mappings[l].owner == s.mappings[l].owner
              && (t.mappings[l].state.Suspended? ==>
                    if s.mappings[l].state.Suspended? then t.mappings[l].state == s.mappings[l].state
                    else t.mappings[l].state.since == t.now)
  {
  }

  /** One step of the exclusivity argument. */
  lemma TrackStep(limits: Limits, events: seq<Event>, states: seq<Registry>, responses: seq<Response>,
                  l: Locator, p: Peer, i: nat, j: nat, a: nat) returns (a': nat)
    requires Run(limits, events, states, responses) && i <= j < |events|
    requires StillHeld(states, l, p, i, j, a)
    ensures LostLocator(events, states, l, p, i, j + 1) || StillHeld(states, l, p, i, j + 1, a')
  {
    var s, t := states[j], states[j + 1];
    RunKeepsInv(limits, events, states, responses, j);
    RunKeepsInv(limits, events, states, responses, j + 1);
    HeldStep(limits, s, events[j], t, responses[j], l);
    a' := if s.mappings[l].state.Suspended? then a else j + 1;
    if l in t.mappings && t.mappings[l].state.Suspended? {
      assert DownThroughout(states, p, a', j + 1);
    } else if l !in t.mappings && events[j].Advance? {
      assert DownThroughout(states, p, a', j + 1);
    }
  }

  lemma {:induction false} Track(limits: Limits, events: seq<Event>, states: seq<Registry>, responses: seq<Response>,
                                 l: Locator, p: Peer, i: nat, j: nat) returns (a: nat)
    requires Run(limits, events, states, responses) && i <= j <= |events|
    requires Resolves(states[i], l, p)
    ensures LostLocator(events, states, l, p, i, j) || StillHeld(states, l, p, i, j, a)
    decreases j
  {
    a := i;
    if i < j {
      a := Track(limits, events, states, responses, l, p, i, j - 1);
      if StillHeld(states, l, p, i, j - 1, a) {
        a := TrackStep(limits, events, states, responses, l, p, i, j - 1, a);
      }
    }
  }

  /**
   Locator exclusivity over time: a locator moves from one peer to another only after the
   first released it or stayed unavailable for at least the whole grace period.
   */
  lemma LocatorExclusivity(limits: Limits, events: seq<Event>, states: seq<Registry>, responses: seq<Response>,
                           l: Locator, p: Peer, q: Peer, i: nat, j: nat)
    requires Run(limits, events, states, responses) && i < j <= |events|
    requires Resolves(states[i], l, p) && Resolves(states[j], l, q) && p != q
    ensures LostLocator(events, states, l, p, i, j)
  {
    var a := Track(limits, events, states, responses, l, p, i, j);
  }

  /** Mappings appear only as Active mappings of an available owner. */
  lemma NewMappings(limits: Limits, s: Registry, event: Event, t: Registry, r: Response, l: Locator)
    requires Step(limits, s, event, t, r) && l in t.mappings && l !in s.mappings
    ensures t.mappings[l].state.Active? && Available(t, t.mappings[l].owner) && t.now == s.now
  {
  }

  /** The grace of a mapping whose owner has been down since state `a` began no later than there. */
  lemma {:induction false} DownSince(limits: Limits, events: seq<Event>, states: seq<Registry>,
                                     responses: seq<Response>,
                                     l: Locator, a: nat, b: nat)
    requires Run(limits, events, states, responses) && a <= b <= |events|
    requires l in states[b].mappings && DownThroughout(states, states[b].mappings[l].owner, a, b)
    ensures states[b].mappings[l].state.Suspended? && states[b].mappings[l].state.since <= states[a].now
    decreases b
  {
    RunKeepsInv(limits, events, states, responses, b);
    if b > 0 {
      var s, t := states[b - 1], states[b];
      assert Step(limits, s, events[b - 1], t, responses[b - 1]);
      RunKeepsInv(limits, events, states, responses, b - 1);
      if l !in s.mappings {
        NewMappings(limits, s, events[b - 1], t, responses[b - 1], l);
      } else {
        HeldStep(limits, s, events[b - 1], t, responses[b - 1], l);
        if s.mappings[l].state.Suspended? {
          DownSince(limits, events, states, responses, l, if a < b then a else b - 1, b - 1);
          TimeGoesOn(limits, events, states, responses, b - 1);
        }
      }
    }
  }

  lemma TimeGoesOn(limits: Limits, events: seq<Event>, states: seq<Registry>, responses: seq<Response>, i: nat)
    requires Run(limits, events, states, responses) && i < |events|
    ensures states[i].now <= states[i + 1].now
  {
    assert Step(limits, states[i], events[i], states[i + 1], responses[i]);
  }

  /** A grace period runs out on time: whichever signal was lost first, a second loss never restarts it. */
  lemma GraceNeverRestarts(limits: Limits, events: seq<Event>, states: seq<Registry>, responses: seq<Response>,
                           p: Peer, a: nat, b: nat)
    requires Run(limits, events, states, responses) && a <= b <= |events|
    requires DownThroughout(states, p, a, b) && states[b].now - states[a].now >= 120 * SECOND
    ensures !Holds(states[b].mappings, p)
  {
    RunKeepsInv(limits, events, states, responses, b);
    if Holds(states[b].mappings, p) {
      DownSince(limits, events, states, responses, LocatorOf(states[b].mappings, p), a, b);
    }
  }

  /** A peer that stays available and does not release keeps resolving to itself. */
  lemma AvailableKeepsLocator(limits: Limits, events: seq<Event>, states: seq<Registry>, responses: seq<Response>,
                              l: Locator, p: Peer, i: nat, j: nat)
    requires Run(limits, events, states, responses) && i <= j <= |events|
    requires Resolves(states[i], l, p)
    requires Available(states[j], p) && !LostLocator(events, states, l, p, i, j)
    ensures Resolves(states[j], l, p)
  {
    var a := Track(limits, events, states, responses, l, p, i, j);
    RunKeepsInv(limits, events, states, responses, j);
  }

  /**
   Allocation is idempotent over time: whatever happens in between, an available owner that did
   not lose its locator gets the same one back.
   */
  lemma AllocateIsIdempotent(limits: Limits, events: seq<Event>, states: seq<Registry>, responses: seq<Response>,
                             p: Peer, l: Locator, i: nat, j: nat)
    requires Run(limits, events, states, responses) && i < j < |events|
    requires events[i].Allocate? && events[i].owner == p && responses[i] == Acquired(l)
    requires events[j].Allocate? && events[j].owner == p && Available(states[j], p)
    requires !LostLocator(events, states, l, p, i + 1, j)
    ensures responses[j] == Acquired(l)
  {
    assert Step(limits, states[i], events[i], states[i + 1], responses[i]);
    RunKeepsInv(limits, events, states, responses, i + 1);
    AvailableKeepsLocator(limits, events, states, responses, l, p, i + 1, j);
    RunKeepsInv(limits, events, states, responses, j);
    assert Step(limits, states[j], events[j], states[j + 1], responses[j]);
  }
}
