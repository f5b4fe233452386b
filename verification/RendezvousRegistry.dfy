/**
 The relay's process-local rendezvous registry: three indexes over one set of mappings,
 two availability signals, and expiry that runs only when an operation prunes.
 Every operation is proved against `EagerRegistry`, at one clock reading per call.
 */
module RendezvousRegistry {
  import opened Common
  import opened EagerRegistry

  /** The largest configurable registration capacity, and the size of the pruning buffer. */
  const CAPACITY_MAX: nat := 320

  /** The owner index is the exact inverse of the locator index. */
  ghost predicate Inverse(owners: map<Peer, Locator>, m: map<Locator, Mapping>) {
    && (forall l :: l in m ==> m[l].owner in owners && owners[m[l].owner] == l)
    && (forall p :: p in owners ==> owners[p] in m && m[owners[p]].owner == p)
  }

  /** The per-source index is exactly the per-source mapping count, with no zero entry. */
  ghost predicate CountsMatch(counts: map<Source, nat>, m: map<Locator, Mapping>) {
    forall s :: if s in counts then 0 < counts[s] == |OfSource(m, s)| else OfSource(m, s) == {}
  }

  /** Mappings are Active exactly when their owner has both signals, except for owners in `stale`. */
  ghost predicate ActiveMatches(m: map<Locator, Mapping>, available: set<Peer>, stale: set<Peer>) {
    forall l :: l in m && m[l].owner !in stale ==> (m[l].state.Active? <==> m[l].owner in available)
  }

  function Count(counts: map<Source, nat>, s: Source): nat {
    if s in counts then counts[s] else 0
  }

  class Registry {
    const limits: Limits
    var byLocator: map<Locator, Mapping>
    var byOwner: map<Peer, Locator>
    var bySource: map<Source, nat>
    var reservations: set<Peer>
    var connections: set<Peer>

    /** The three indexes describe the same mappings, within both quotas. */
    ghost predicate Indexed()
      reads this
    {
      && limits.capacity <= CAPACITY_MAX
      && Inverse(byOwner, byLocator)
      && CountsMatch(bySource, byLocator)
      && Quotas(limits, byLocator)
    }

    ghost predicate Valid()
      reads this
    {
      Indexed() && ActiveMatches(byLocator, reservations * connections, {})
    }

    /** What the reference registry would hold at `now`. */
    ghost function View(now: Time): EagerRegistry.Registry
      reads this
    {
      EagerRegistry.Registry(Live(byLocator, now), reservations, connections, now)
    }

    predicate IsAvailable(p: Peer)
      reads this
    {
      p in reservations && p in connections
    }

    predicate HasRoom(source: Source)
      reads this
    {
      && |byLocator| < limits.capacity
      && Count(bySource, source) < limits.perSource
    }

    constructor (limits: Limits)
      requires limits.capacity <= CAPACITY_MAX
      ensures Valid() && this.limits == limits
      ensures View(0) == EagerRegistry.EMPTY
    {
      this.limits := limits;
      byLocator, byOwner, bySource := map[], map[], map[];
      reservations, connections := {}, {};
      new;
      assert forall s :: OfSource(byLocator, s) == {};
      assert Live(byLocator, 0) == map[];
    }

    method Insert(l: Locator, owner: Peer, source: Source)
      requires Indexed() && l !in byLocator && owner !in byOwner && HasRoom(source)
      modifies this`byLocator, this`byOwner, this`bySource
      ensures Indexed()
      ensures byLocator == old(byLocator)[l := Mapping(owner, source, Active)]
    {
      var mapping := Mapping(owner, source, Active);
      InsertKeepsQuotas(limits, byLocator, l, mapping);
      InsertKeepsCounts(bySource, byLocator, l, mapping);
      byLocator := byLocator[l := mapping];
      byOwner := byOwner[owner := l];
      bySource := bySource[source := Count(bySource, source) + 1];
    }

    /** Drops one mapping from all three indexes; the count never underflows. */
    method Remove(l: Locator)
      requires Indexed()
      modifies this`byLocator, this`byOwner, this`bySource
      ensures Indexed()
      ensures byLocator == old(byLocator) - {l}
    {
      if l !in byLocator {
        return;
      }
      var mapping := byLocator[l];
      RemoveKeepsIndexes(limits, byOwner, bySource, byLocator, l);
      byLocator := byLocator - {l};
      byOwner := byOwner - {mapping.owner};
      var count := bySource[mapping.source] - 1;
      if count == 0 {
        bySource := bySource - {mapping.source};
      } else {
        bySource := bySource[mapping.source := count];
      }
    }

    /** The scan of `Prune`: the expired locators, in a fixed-size buffer that cannot overflow. */
    method CollectExpired(now: Time) returns (expired: array<Option<Locator>>, len: nat, ghost order: seq<Locator>)
      requires Indexed()
      ensures fresh(expired) && len == |order| <= expired.Length == CAPACITY_MAX
      ensures forall i :: 0 <= i < len ==> expired[i] == Some(order[i])
      ensures forall l :: l in order <==> l in byLocator && Expired(byLocator[l], now)
      ensures forall i, j :: 0 <= i < j < len ==> order[i] != order[j]
    {
      expired := new Option<Locator>[CAPACITY_MAX](_ => None);
      len := 0;
      var pending := byLocator.Keys;
      order := [];
      assert |pending| == |byLocator| <= CAPACITY_MAX;
      while pending != {}
        invariant pending <= byLocator.Keys
        invariant len == |order| && len + |pending| <= CAPACITY_MAX == expired.Length
        invariant forall i :: 0 <= i < len ==> expired[i] == Some(order[i])
        invariant forall l :: l in order <==> l in byLocator && l !in pending && Expired(byLocator[l], now)
        invariant forall i, j :: 0 <= i < j < len ==> order[i] != order[j]
        decreases pending
      {
        var l :| l in pending;
        pending := pending - {l};
        if Expired(byLocator[l], now) {
          expired[len] := Some(l);
          len := len + 1;
          order := order + [l];
        }
      }
    }

    /** The second half of `Prune`: drops everything the scan collected. */
    method RemoveCollected(expired: array<Option<Locator>>, len: nat, ghost order: seq<Locator>)
      requires Indexed() && len == |order| <= expired.Length
      requires forall i :: 0 <= i < len ==> expired[i] == Some(order[i])
      modifies this`byLocator, this`byOwner, this`bySource
      ensures Indexed()
      ensures byLocator == old(byLocator) - Elements(order)
    {
      var i := 0;
      while i < len
        invariant 0 <= i <= len
        invariant Indexed()
        invariant byLocator == old(byLocator) - Elements(order[..i])
      {
        RemoveNext(old(byLocator), order, i);
        Remove(expired[i].value);
        i := i + 1;
      }
      assert order[..len] == order;
    }

    method Prune(now: Time)
      requires Indexed()
      modifies this`byLocator, this`byOwner, this`bySource
      ensures Indexed()
      ensures byLocator == Live(old(byLocator), now)
    {
      var expired, len, order := CollectExpired(now);
      RemoveCollected(expired, len, order);
    }

    /** When a signal change takes effect: a suspension at the second clock reading, a revival at the first. */
    function EffectiveAt(peer: Peer, now: Time, later: Time): Time
      reads this
    {
      if IsAvailable(peer) then now else later
    }

    /** Restores the Active invariant of one peer; prunes by one reading of the clock and suspends by the next. */
    method Refresh(peer: Peer, now: Time, later: Time)
      requires Indexed() && now <= later
      requires ActiveMatches(byLocator, reservations * connections, {peer})
      modifies this`byLocator, this`byOwner, this`bySource
      ensures Valid()
      ensures var at := EffectiveAt(peer, now, later); View(at) == EagerRegistry.Refresh(old(View(at)), peer)
    {
      ghost var before := byLocator;
      Prune(now);
      ghost var live := byLocator;
      if peer in byOwner {
        var locator := byOwner[peer];
        var mapping := byLocator[locator];
        byLocator := byLocator[locator := mapping.(state := Refreshed(mapping.state, IsAvailable(peer), later))];
        RestateKeepsIndexes(limits, byOwner, bySource, live, locator, byLocator[locator].state);
      }
      RefreshedLive(before, live, byLocator, byOwner, peer, reservations * connections, now, later);
    }

    method SetReservation(peer: Peer, available: bool, now: Time, later: Time)
      requires Valid() && now <= later
      modifies this
      ensures Valid()
      ensures var at := EffectiveAt(peer, now, later);
              Step(limits, old(View(at)), Event.SetReservation(peer, available), View(at), Nothing)
    {
      reservations := Member(reservations, peer, available);
      Refresh(peer, now, later);
    }

    method SetConnection(peer: Peer, available: bool, now: Time, later: Time)
      requires Valid() && now <= later
      modifies this
      ensures Valid()
      ensures var at := EffectiveAt(peer, now, later);
              Step(limits, old(View(at)), Event.SetConnection(peer, available), View(at), Nothing)
    {
      connections := Member(connections, peer, available);
      Refresh(peer, now, later);
    }

    /** The ring scan: it visits at most one locator more than there are mappings. */
    method Probe(start: Locator) returns (candidate: Locator)
      requires Indexed()
      ensures FirstFree(byLocator, start, candidate)
      ensures RingDistance(start, candidate) <= |byLocator|
    {
      candidate := start;
      ghost var steps := 0;
      while candidate in byLocator
        invariant steps <= |byLocator| && candidate == RingAt(start, steps)
        invariant forall j :: 0 <= j < steps ==> RingAt(start, j) in byLocator
        decreases |byLocator| - steps
      {
        candidate := WrappingNext(candidate);
        steps := steps + 1;
        RingPigeonhole(byLocator.Keys, start, steps);
      }
      forall other: Locator | other !in byLocator ensures RingDistance(start, candidate) <= RingDistance(start, other) {
        assert other == RingAt(start, RingDistance(start, other));
      }
    }

    method Allocate(owner: Peer, source: Source, random: Option<Locator>, now: Time) returns (r: Response)
      requires Valid()
      modifies this`byLocator, this`byOwner, this`bySource
      ensures Valid()
      ensures Step(limits, old(View(now)), Event.Allocate(owner, source, random), View(now), r)
    {
      Prune(now);
      PrunedIsLive(old(byLocator), now);
      OwnerIndex(byOwner, byLocator, owner);
      if !IsAvailable(owner) {
        return ReservationRequired;
      }
      if owner in byOwner {
        return Acquired(byOwner[owner]);
      }
      RoomIsCapacity(limits, bySource, byLocator, source);
      if !HasRoom(source) {
        return Capacity;
      }
      if random.None? {
        return RandomFailed;
      }
      var candidate := Probe(random.value);
      InsertIsLive(byLocator, candidate, Mapping(owner, source, Active), now);
      Insert(candidate, owner, source);
      return Acquired(candidate);
    }

    method Reclaim(owner: Peer, source: Source, locator: Locator, now: Time) returns (r: Response)
      requires Valid()
      modifies this`byLocator, this`byOwner, this`bySource
      ensures Valid()
      ensures Step(limits, old(View(now)), Event.Reclaim(owner, source, locator), View(now), r)
    {
      Prune(now);
      PrunedIsLive(old(byLocator), now);
      OwnerIndex(byOwner, byLocator, owner);
      if !IsAvailable(owner) {
        return ReservationRequired;
      }
      if owner in byOwner {
        return if byOwner[owner] == locator then Acquired(locator) else Conflict;
      }
      if locator in byLocator {
        return Conflict;
      }
      RoomIsCapacity(limits, bySource, byLocator, source);
      if !HasRoom(source) {
        return Capacity;
      }
      InsertIsLive(byLocator, locator, Mapping(owner, source, Active), now);
      Insert(locator, owner, source);
      return Acquired(locator);
    }

    method Release(owner: Peer, locator: Locator, now: Time) returns (r: Response)
      requires Valid()
      modifies this`byLocator, this`byOwner, this`bySource
      ensures Valid()
      ensures Step(limits, old(View(now)), Event.Release(owner, locator), View(now), r)
    {
      Prune(now);
      PrunedIsLive(old(byLocator), now);
      OwnerIndex(byOwner, byLocator, owner);
      RemoveIsLive(byLocator, locator, now);
      if owner in byOwner && byOwner[owner] == locator {
        Remove(locator);
      }
      return Released;
    }

    method Resolve(locator: Locator, now: Time) returns (r: Response)
      requires Valid()
      modifies this`byLocator, this`byOwner, this`bySource
      ensures Valid()
      ensures Step(limits, old(View(now)), Event.Resolve(locator), View(now), r)
    {
      Prune(now);
      PrunedIsLive(old(byLocator), now);
      if locator !in byLocator {
        return Unavailable;
      }
      match byLocator[locator].state
      case Active => return Resolved(byLocator[locator].owner);
      case Suspended(_) => return Retry;
    }
  }

  /** Lazy pruning catches up with any clock advance. */
  lemma AdvanceLive(m: map<Locator, Mapping>, now: Time, later: Time)
    requires now <= later
    ensures Live(Live(m, now), later) == Live(m, later)
  {
  }

  /** Waiting is an advance of the reference registry. */
  lemma WaitingAdvances(m: map<Locator, Mapping>, s: EagerRegistry.Registry, t: EagerRegistry.Registry, elapsed: Time)
    requires t.now == s.now + elapsed && t.reservations == s.reservations && t.connections == s.connections
    requires s.mappings == Live(m, s.now) && t.mappings == Live(m, t.now)
    ensures t == Advanced(s, elapsed)
  {
    AdvanceLive(m, s.now, t.now);
  }

  /** Operations that read the clock twice. */
  predicate IsSignal(event: Event) {
    event.SetReservation? || event.SetConnection?
  }

  /** Dispatches one operation, whose clock readings may lie `lag` apart; it takes effect at one of them. */
  method Apply(registry: Registry, event: Event, now: Time, lag: Time)
    returns (at: Time, later: Time, r: Response)
    requires registry.Valid() && !event.Advance?
    modifies registry
    ensures registry.Valid()
    ensures now <= at <= later == now + if IsSignal(event) then lag else 0
    ensures Step(registry.limits, old(registry.View(at)), event, registry.View(at), r)
  {
    at, later, r := now, now, Nothing;
    match event
    case SetReservation(peer, up) =>
      later := now + lag;
      registry.SetReservation(peer, up, now, later);
      at := registry.EffectiveAt(peer, now, later);
    case SetConnection(peer, up) =>
      later := now + lag;
      registry.SetConnection(peer, up, now, later);
      at := registry.EffectiveAt(peer, now, later);
    case Allocate(owner, source, random) => r := registry.Allocate(owner, source, random, now);
    case Reclaim(owner, source, locator) => r := registry.Reclaim(owner, source, locator, now);
    case Release(owner, locator) => r := registry.Release(owner, locator, now);
    case Resolve(locator) => r := registry.Resolve(locator, now);
  }

  /** One operation of the lazy registry, with the clock advances before and after the instant it takes effect. */
  datatype Served = Served(event: Event, before: Time, after: Time, response: Response)

  function EventsOf(served: seq<Served>): seq<Event> {
    if served == [] then []
    else
      var last := served[|served| - 1];
      EventsOf(served[..|served| - 1]) + [Advance(last.before), last.event, Advance(last.after)]
  }

  function ResponsesOf(served: seq<Served>): seq<Response> {
    if served == [] then []
    else ResponsesOf(served[..|served| - 1]) + [Nothing, served[|served| - 1].response, Nothing]
  }

  /** The reference registry, given the operations with these advances, answers as recorded and ends in `s`. */
  ghost predicate Explains(
    limits: Limits, served: seq<Served>, states: seq<EagerRegistry.Registry>, s: EagerRegistry.Registry)
  {
    Run(limits, EventsOf(served), states, ResponsesOf(served)) && states[|states| - 1] == s
  }

  lemma ExplainNext(limits: Limits, served: seq<Served>, states: seq<EagerRegistry.Registry>, s: EagerRegistry.Registry,
                    next: Served, u: EagerRegistry.Registry, v: EagerRegistry.Registry, w: EagerRegistry.Registry)
    requires Explains(limits, served, states, s)
    requires u == Advanced(s, next.before) && Step(limits, u, next.event, v, next.response)
    requires w == Advanced(v, next.after)
    ensures Explains(limits, served + [next], states + [u, v, w], w)
  {
    var events, responses := EventsOf(served), ResponsesOf(served);
    ExtendRun(limits, events, states, responses, Advance(next.before), u, Nothing);
    ExtendRun(limits, events + [Advance(next.before)], states + [u], responses + [Nothing],
              next.event, v, next.response);
    ExtendRun(limits, events + [Advance(next.before)] + [next.event], states + [u] + [v],
              responses + [Nothing] + [next.response], Advance(next.after), w, Nothing);
    assert (served + [next])[..|served|] == served;
    assert EventsOf(served + [next]) ==
           events + [Advance(next.before)] + [next.event] + [Advance(next.after)];
    assert ResponsesOf(served + [next]) == responses + [Nothing] + [next.response] + [Nothing];
    assert states + [u, v, w] == states + [u] + [v] + [w];
  }

  /** What happens to the registry and its clock: operations, each with the gap between its readings, and time. */
  datatype Happening = Happening(event: Event, pause: Time, lag: Time)

  /** One record is of one happening: the same operation, with all its time and no other, and its answer. */
  ghost predicate RecordOf(h: Happening, s: Served, r: Response) {
    && s.event == h.event && s.response == r && h.pause <= s.before
    && s.before + s.after == h.pause + if IsSignal(h.event) then h.lag else 0
  }

  ghost predicate Records(happenings: seq<Happening>, served: seq<Served>, responses: seq<Response>) {
    && |served| == |responses| == |happenings|
    && forall i :: 0 <= i < |happenings| ==> RecordOf(happenings[i], served[i], responses[i])
  }

  lemma RecordNext(happenings: seq<Happening>, i: nat, served: seq<Served>, responses: seq<Response>,
                   next: Served, r: Response)
    requires i < |happenings| && Records(happenings[..i], served, responses) && RecordOf(happenings[i], next, r)
    ensures Records(happenings[..i + 1], served + [next], responses + [r])
  {
  }

  /** One happening, as three steps of the reference registry. */
  method ServeOne(registry: Registry, h: Happening, now: Time)
    returns (later: Time, r: Response, next: Served,
             ghost u: EagerRegistry.Registry, ghost v: EagerRegistry.Registry)
    requires registry.Valid() && !h.event.Advance?
    modifies registry
    ensures registry.Valid() && RecordOf(h, next, r)
    ensures u == Advanced(old(registry.View(now)), next.before)
    ensures Step(registry.limits, u, h.event, v, r)
    ensures registry.View(later) == Advanced(v, next.after)
  {
    var at;
    at, later, r := Apply(registry, h.event, now + h.pause, h.lag);
    u, v := old(registry.View(at)), registry.View(at);
    var before: Time, after: Time := at - now, later - at;
    next := Served(h.event, before, after, r);
    WaitingAdvances(old(registry.byLocator), old(registry.View(now)), u, before);
    WaitingAdvances(registry.byLocator, v, registry.View(later), after);
  }

  /**
   Lazy pruning refines eager expiry: over every sequence of operations and clock advances, also between the
   two clock readings of one operation, the registry gives exactly the answers of the reference registry.
   */
  method Serve(limits: Limits, happenings: seq<Happening>)
    returns (responses: seq<Response>, served: seq<Served>, ghost states: seq<EagerRegistry.Registry>)
    requires limits.capacity <= CAPACITY_MAX
    requires forall i :: 0 <= i < |happenings| ==> !happenings[i].event.Advance?
    ensures Records(happenings, served, responses)
    ensures Run(limits, EventsOf(served), states, ResponsesOf(served))
  {
    var registry := new Registry(limits);
    var now: Time := 0;
    responses, served, states := [], [], [EagerRegistry.EMPTY];
    for i := 0 to |happenings|
      invariant registry.Valid() && registry.limits == limits && fresh(registry)
      invariant Records(happenings[..i], served, responses)
      invariant Explains(limits, served, states, registry.View(now))
    {
      ghost var s := registry.View(now);
      var r, next;
      ghost var u, v;
      now, r, next, u, v := ServeOne(registry, happenings[i], now);
      ExplainNext(limits, served, states, s, next, u, v, registry.View(now));
      RecordNext(happenings, i, served, responses, next, r);
      responses, served, states := responses + [r], served + [next], states + [u, v, registry.View(now)];
    }
    assert happenings[..|happenings|] == happenings;
  }

  /** The locator `steps` places after `start` in the ring. */
  function RingAt(start: Locator, steps: nat): Locator
    requires steps < LOCATOR_SPACE
  {
    if start + steps < LOCATOR_SPACE then start + steps else start + steps - LOCATOR_SPACE
  }

  ghost function RingPrefix(start: Locator, steps: nat): set<Locator>
    requires steps <= LOCATOR_SPACE
  {
    set j | 0 <= j < steps :: RingAt(start, j)
  }

  lemma {:induction false} RingPrefixSize(start: Locator, steps: nat)
    requires steps <= LOCATOR_SPACE
    ensures |RingPrefix(start, steps)| == steps
  {
    if steps > 0 {
      RingPrefixSize(start, steps - 1);
      assert RingPrefix(start, steps) == RingPrefix(start, steps - 1) + {RingAt(start, steps - 1)};
    } else {
      assert RingPrefix(start, 0) == {};
    }
  }

  /** Distinct occupied ring positions cannot outnumber the occupied locators. */
  lemma RingPigeonhole(used: set<Locator>, start: Locator, steps: nat)
    requires steps < LOCATOR_SPACE
    requires forall j :: 0 <= j < steps ==> RingAt(start, j) in used
    ensures steps <= |used|
  {
    RingPrefixSize(start, steps);
    SubsetSize(RingPrefix(start, steps), used);
  }

  lemma PrunedIsLive(m: map<Locator, Mapping>, now: Time)
    ensures Live(Live(m, now), now) == Live(m, now)
  {
  }

  lemma InsertIsLive(m: map<Locator, Mapping>, l: Locator, x: Mapping, now: Time)
    requires Live(m, now) == m && x.state.Active?
    ensures Live(m[l := x], now) == m[l := x]
  {
  }

  lemma RemoveIsLive(m: map<Locator, Mapping>, l: Locator, now: Time)
    requires Live(m, now) == m
    ensures Live(m - {l}, now) == m - {l}
  {
  }

  /** The owner index answers exactly the reference lookup. */
  lemma OwnerIndex(owners: map<Peer, Locator>, m: map<Locator, Mapping>, p: Peer)
    requires Inverse(owners, m)
    ensures p in owners <==> Holds(m, p)
    ensures p in owners ==> LocatorOf(m, p) == owners[p]
  {
    if p in owners {
      assert owners[p] in m && m[owners[p]].owner == p;
    }
  }

  /** The counters answer exactly the reference quota test. */
  lemma RoomIsCapacity(limits: Limits, counts: map<Source, nat>, m: map<Locator, Mapping>, source: Source)
    requires CountsMatch(counts, m)
    ensures HasCapacity(limits, m, source) <==> |m| < limits.capacity && Count(counts, source) < limits.perSource
  {
    assert if source in counts then 0 < counts[source] == |OfSource(m, source)| else OfSource(m, source) == {};
  }

  lemma RestateKeepsIndexes(limits: Limits, owners: map<Peer, Locator>, counts: map<Source, nat>, m: map<Locator,
                            Mapping>,
                            l: Locator, state: MappingState)
    requires Inverse(owners, m) && CountsMatch(counts, m) && Quotas(limits, m) && l in m
    ensures var n := m[l := m[l].(state := state)]; Inverse(owners, n) && CountsMatch(counts, n) && Quotas(limits, n)
  {
    var n := m[l := m[l].(state := state)];
    assert n.Keys == m.Keys;
    assert forall s :: OfSource(n, s) == OfSource(m, s);
  }

  /** Refreshing through the owner index is refreshing every mapping of the peer, at the reading that counts. */
  lemma RefreshedLive(before: map<Locator, Mapping>, m: map<Locator, Mapping>, n: map<Locator, Mapping>,
                      owners: map<Peer, Locator>, p: Peer, available: set<Peer>, now: Time, later: Time)
    requires Inverse(owners, m) && m == Live(before, now) && ActiveMatches(m, available, {p}) && now <= later
    requires n == if p in owners
                  then m[owners[p] := m[owners[p]].(state := Refreshed(m[owners[p]].state, p in available, later))]
                  else m
    ensures ActiveMatches(n, available, {})
    ensures var at := if p in available then now else later;
            Live(n, at) == RefreshAll(Live(before, at), p, p in available, at)
  {
  }

  ghost function Elements(s: seq<Locator>): set<Locator> {
    set x | x in s
  }

  lemma RemoveNext(m: map<Locator, Mapping>, order: seq<Locator>, i: nat)
    requires i < |order|
    ensures m - Elements(order[..i + 1]) == (m - Elements(order[..i])) - {order[i]}
  {
    assert order[..i + 1] == order[..i] + [order[i]];
  }

  lemma InsertKeepsCounts(counts: map<Source, nat>, m: map<Locator, Mapping>, l: Locator, x: Mapping)
    requires CountsMatch(counts, m) && l !in m
    ensures CountsMatch(counts[x.source := Count(counts, x.source) + 1], m[l := x])
  {
    var counts', n := counts[x.source := Count(counts, x.source) + 1], m[l := x];
    forall s ensures if s in counts' then 0 < counts'[s] == |OfSource(n, s)| else OfSource(n, s) == {} {
      InsertCount(m, l, x, s);
      assert if s in counts then 0 < counts[s] == |OfSource(m, s)| else OfSource(m, s) == {};
    }
  }

  lemma RemoveKeepsIndexes(limits: Limits, owners: map<Peer, Locator>, counts: map<Source, nat>, m: map<Locator,
                           Mapping>, l: Locator)
    requires Inverse(owners, m) && CountsMatch(counts, m) && Quotas(limits, m) && l in m
    ensures Inverse(owners - {m[l].owner}, m - {l})
    ensures m[l].source in counts && counts[m[l].source] > 0
    ensures CountsMatch(if counts[m[l].source] == 1 then counts - {m[l].source}
                        else counts[m[l].source := counts[m[l].source] - 1], m - {l})
    ensures Quotas(limits, m - {l})
  {
    RemoveKeepsCounts(counts, m, l);
    SubmapCounts(m, m - {l});
  }

  /** The count of a mapped source is positive, and decrementing it keeps the index exact. */
  lemma RemoveKeepsCounts(counts: map<Source, nat>, m: map<Locator, Mapping>, l: Locator)
    requires CountsMatch(counts, m) && l in m
    ensures m[l].source in counts && counts[m[l].source] > 0
    ensures CountsMatch(if counts[m[l].source] == 1 then counts - {m[l].source}
                        else counts[m[l].source := counts[m[l].source] - 1], m - {l})
  {
    var x := m[l].source;
    assert l in OfSource(m, x);
    assert x in counts;
    var counts', n := if counts[x] == 1 then counts - {x} else counts[x := counts[x] - 1], m - {l};
    assert n[l := m[l]] == m;
    forall s ensures if s in counts' then 0 < counts'[s] == |OfSource(n, s)| else OfSource(n, s) == {} {
      InsertCount(n, l, m[l], s);
      assert if s in counts then 0 < counts[s] == |OfSource(m, s)| else OfSource(m, s) == {};
    }
  }
}
