/** The relay event loop as an object: each turn moves it as the loop's step relation says. */
module RelayLoop {
  import opened Common
  import opened EagerRegistry
  import opened LoopModel
  import opened LoopTheorems
  import Limiters
  import RR = RendezvousRegistry

  class Relay {
    const registry: RR.Registry
    const limiters: Limiters.ResolveLimiters
    var connections: Book
    var registryActive: set<Peer>
    var rejectedPeers: set<Peer>
    /** The loop gave up: the system random source failed. */
    var stopped: bool
    /** The exchange tasks, queued calls and close requests around the loop. */
    var around: Surroundings

    ghost predicate Valid()
      reads this, registry
    {
      registry.Valid() && registryActive == around.tasks.Keys
    }

    ghost function View(now: Time): Loop
      reads this, registry
    {
      Loop(connections, rejectedPeers, around, registry.View(now), stopped)
    }

    constructor (limits: Limits, resolve: Limiters.ResolveLimits)
      requires limits.capacity <= RR.CAPACITY_MAX
      ensures Valid() && fresh(registry) && fresh(limiters) && limiters.Valid()
      ensures registry.limits == limits && View(0) == EMPTY_LOOP
    {
      registry := new RR.Registry(limits);
      limiters := new Limiters.ResolveLimiters(resolve);
      connections, registryActive, rejectedPeers, stopped := Book(map[], map[]), {}, {}, false;
      around := NOTHING_AROUND;
    }

    method Unique(peer: Peer) returns (id: Option<ConnectionId>)
      ensures id.None? ==> forall c :: !connections.IsUnique(peer, c)
      ensures id.Some? ==> connections.IsUnique(peer, id.value)
    {
      var roster := connections.Roster(peer);
      if |roster| != 1 {
        return None;
      }
      var c :| c in roster;
      assert roster == {c} by {
        assert |roster - {c}| == 0;
      }
      id := if c in connections.endpoints then Some(c) else None;
    }

    /** Tells the registry whether the peer is connected. */
    method FeedConnection(peer: Peer, now: Time)
      requires registry.Valid()
      modifies registry
      ensures registry.Valid()
      ensures registry.View(now) == Feed(old(registry.View(now)), peer, peer in connections.rosters)
    {
      registry.SetConnection(peer, peer in connections.rosters, now, now);
    }

    method ConnectionEstablished(peer: Peer, id: ConnectionId, source: Option<Source>, now: Time)
      requires Valid()
      modifies this, registry
      ensures Valid()
      ensures View(now) == AfterEstablished(old(View(now)), peer, id, source)
    {
      var book := connections.Establish(peer, id, source);
      var renewed := if id in connections.Roster(peer) then around else around.Forget(peer, id);
      connections := book;
      around := if peer in rejectedPeers || id !in book.Roster(peer) then renewed.Tell(peer, {id}) else renewed;
      FeedConnection(peer, now);
    }

    method ConnectionClosed(peer: Peer, id: ConnectionId, now: Time)
      requires Valid()
      modifies this, registry
      ensures Valid()
      ensures View(now) == AfterClosed(old(View(now)), peer, id)
    {
      Untrack(peer, id, now);
      DropMarker(peer, now);
    }

    /** Takes a closed connection out of the book and tells the registry. */
    method Untrack(peer: Peer, id: ConnectionId, now: Time)
      requires Valid()
      modifies `connections, `around, registry
      ensures Valid() && around == old(around).Forget(peer, id) && connections == old(connections).Close(peer, id)
      ensures registry.View(now) == Feed(old(registry.View(now)), peer, peer in connections.rosters)
    {
      connections := connections.Close(peer, id);
      around := around.Forget(peer, id);
      FeedConnection(peer, now);
    }

    /** Forgets the rejection of a peer that is neither active nor connected. */
    method DropMarker(peer: Peer, ghost now: Time)
      requires registryActive == around.tasks.Keys
      modifies `rejectedPeers, `around
      ensures around.tasks == old(around).tasks && View(now) == Unmark(old(View(now)), peer)
    {
      if peer !in registryActive && peer !in connections.rosters {
        rejectedPeers := rejectedPeers - {peer};
        around := around.(lost := around.lost - {peer});
      }
    }

    method ReservationChanged(peer: Peer, accepted: bool, now: Time)
      requires Valid()
      modifies this, registry
      ensures Valid()
      ensures View(now) == AfterReservation(old(View(now)), peer, accepted)
    {
      registry.SetReservation(peer, accepted, now, now);
    }

    method SwarmTurn(e: SwarmEvent, now: Time)
      requires Valid()
      modifies this, registry
      ensures Valid() && View(now) == AfterSwarm(old(View(now)), e)
    {
      match e
      case Established(p, id, source) => ConnectionEstablished(p, id, source, now);
      case Closed(p, id) => ConnectionClosed(p, id, now);
      case Reservation(p, accepted) => ReservationChanged(p, accepted, now);
    }

    /** Whether the loop starts an exchange for the peer's incoming registry stream. */
    method RegistryIncoming(peer: Peer, permit: bool, ghost s: Loop) returns (admitted: Option<ConnectionId>)
      requires Valid() && s.book == connections && s.rejected == rejectedPeers && s.around == around
      modifies `registryActive, `around
      ensures Valid()
      ensures if admitted.Some? then Admissible(s, peer, permit, admitted.value)
              else forall c: ConnectionId :: !Admissible(s, peer, permit, c)
      ensures around == if admitted.None? then s.around else SetTask(s, peer, Reading(admitted.value)).around
    {
      if !permit {
        return None;
      }
      admitted := Unique(peer);
      if peer in registryActive || peer in rejectedPeers || admitted.None? {
        return None;
      }
      registryActive := registryActive + {peer};
      around := around.(tasks := around.tasks[peer := Reading(admitted.value)]);
    }

    /** Decides a call; it reaches the registry only on the still unique connection it was admitted on. */
    method HandleRegistryCall(call: Call, random: Option<Locator>, now: Time)
      returns (response: Response, rejected: Option<ConnectionId>)
      requires registry.Valid()
      modifies registry`byLocator, registry`byOwner, registry`bySource
      ensures registry.Valid()
      ensures rejected == if response.Capacity? then Some(call.admitted) else None
      ensures !connections.IsUnique(call.peer, call.admitted) ==> unchanged(registry)
      ensures Decided(registry.limits, connections, call, random, old(registry.View(now)), registry.View(now), response)
    {
      var unique := Unique(call.peer);
      if unique != Some(call.admitted) {
        return Retry, None;
      }
      if call.request.ReleaseRequest? {
        response := registry.Release(call.peer, call.request.locator, now);
        return response, None;
      }
      var source := connections.endpoints[call.admitted];
      if source.None? {
        return Retry, None;
      }
      if call.request.AllocateRequest? {
        response := registry.Allocate(call.peer, source.value, random, now);
      } else {
        response := registry.Reclaim(call.peer, source.value, call.request.locator, now);
      }
      rejected := if response.Capacity? then Some(call.admitted) else None;
    }

    /** The loop's turn for a call whose task still waits: the decision is delivered. */
    method ServeWaitingCall(peer: Peer, random: Option<Locator>, now: Time) returns (response: Response)
      requires Valid() && peer in around.tasks && around.tasks[peer].Queued?
      modifies this, registry
      ensures Valid()
      ensures var call, before := old(around).tasks[peer].call, old(registry.View(now));
              && Decided(registry.limits, connections, call, random, before, registry.View(now), response)
              && View(now) == AfterWaiting(old(View(now)), peer, call, registry.View(now), response)
    {
      var call := around.tasks[peer].call;
      var rejected;
      response, rejected := HandleRegistryCall(call, random, now);
      if response.RandomFailed? {
        RefusalKeepsRegistry(registry.limits, connections, call, random, old(registry.View(now)), registry.View(now));
        stopped := true;
        return;
      }
      rejectedPeers := rejectedPeers + if rejected.Some? then {peer} else {};
      around := around.(tasks := around.tasks[peer := Delivered(rejected)]);
    }

    /** The loop's turn for a call whose task has ended: a rejection closes the peer at once. */
    method ServeLateCall(call: Call, random: Option<Locator>, now: Time) returns (response: Response)
      requires Valid()
      modifies this, registry
      ensures Valid()
      ensures Decided(registry.limits, connections, call, random, old(registry.View(now)), registry.View(now), response)
      ensures View(now) == AfterLate(old(View(now)), call, registry.View(now), response)
    {
      var rejected;
      response, rejected := HandleRegistryCall(call, random, now);
      if response.RandomFailed? {
        RefusalKeepsRegistry(registry.limits, connections, call, random, old(registry.View(now)), registry.View(now));
        stopped := true;
        return;
      }
      var unqueued := around.(late := around.late - multiset{call});
      if rejected.Some? {
        rejectedPeers := rejectedPeers + {call.peer};
        around := unqueued.Tell(call.peer, connections.Roster(call.peer));
      } else {
        around := unqueued;
      }
    }

    /** The loop learns that an exchange is over. */
    method RegistryDone(peer: Peer, ghost now: Time)
      requires Valid() && peer in around.tasks && around.tasks[peer].Ended?
      modifies `registryActive, `rejectedPeers, `around
      ensures Valid() && View(now) == AfterDone(old(View(now)), peer)
    {
      var rejected := around.tasks[peer].rejected;
      registryActive := registryActive - {peer};
      var ended := around.(tasks := around.tasks - {peer});
      around := if rejected.Some? then ended.Tell(peer, connections.Roster(peer)) else ended;
      DropMarker(peer, now);
    }

    /** Resolution of a locator for a plain or an enterprise lookup. */
    method ResolveTarget(locator: Locator, now: Time) returns (r: Response)
      requires Valid()
      modifies registry`byLocator, registry`byOwner, registry`bySource
      ensures Valid() && View(now) == old(View(now))
      ensures Step(registry.limits, View(now).registry, Resolve(locator), View(now).registry, r)
    {
      r := registry.Resolve(locator, now);
    }

    /** The quota source of a caller with one tracked connection. */
    ghost function CallerSource(peer: Peer): Option<Source>
      reads this
    {
      if id :| connections.IsUnique(peer, id) then connections.endpoints[id] else None
    }

    /** A plain lookup: the global quota, a well-formed request, a unique sourced caller, the source quota. */
    method HandleResolveCall(peer: Peer, locator: Option<Locator>, now: Time) returns (r: Option<Response>)
      requires Valid() && limiters.Valid()
      modifies limiters, registry`byLocator, registry`byOwner, registry`bySource
      ensures Valid() && limiters.Valid() && View(now) == old(View(now))
      ensures var quotas, source, view := limiters.limits, CallerSource(peer), View(now).registry;
              if !Limiters.Admits(quotas.Global(), old(limiters.global), now) then r == Some(Retry)
              else if locator.None? then r == None
              else if source.None? then r == Some(Retry)
              else
                var request := Limiters.Request(source.value, now);
                if !Limiters.TableAdmits(quotas.Sources(), old(limiters.sources), request) then r == Some(Retry)
                else r.Some? && Step(registry.limits, view, Resolve(locator.value), view, r.value)
    {
      var passed := limiters.CheckGlobal(now);
      if !passed {
        return Some(Retry);
      }
      if locator.None? {
        return None;
      }
      var unique := Unique(peer);
      if unique.None? || connections.endpoints[unique.value].None? {
        return Some(Retry);
      }
      passed := limiters.CheckSource(connections.endpoints[unique.value].value, now);
      if !passed {
        return Some(Retry);
      }
      var response := ResolveTarget(locator.value, now);
      r := Some(response);
    }

    /** A turn that serves a queued call. */
    method CallTurn(e: LoopEvent, now: Time) returns (r: Response)
      requires Valid() && !stopped && (e.Waiting? || e.Late?)
      modifies this, registry
      ensures Valid() && LoopStep(registry.limits, old(View(now)), e, View(now), r)
    {
      ghost var before := View(now);
      r := Nothing;
      if e.Waiting? {
        if e.peer in around.tasks && around.tasks[e.peer].Queued? {
          r := ServeWaitingCall(e.peer, e.random, now);
          WaitingIsStep(registry.limits, before, e.peer, e.random, registry.View(now), r);
        }
      } else if e.call in around.late {
        r := ServeLateCall(e.call, e.random, now);
        LateIsStep(registry.limits, before, e.call, e.random, registry.View(now), r);
      }
    }

    /** What an exchange does on its own. */
    method MoveTask(move: TaskEvent, ghost now: Time)
      requires Valid() && TaskEnabled(move, around.tasks)
      modifies `around
      ensures Valid() && View(now) == AfterTask(old(View(now)), move)
    {
      around := AfterTask(Loop(connections, rejectedPeers, around, EagerRegistry.EMPTY, stopped), move).around;
    }

    /** A turn that starts, moves or ends an exchange. */
    method TaskTurn(e: LoopEvent, ghost now: Time)
      requires Valid() && !stopped && (e.Incoming? || e.TaskMove? || e.Done?)
      modifies `registryActive, `rejectedPeers, `around
      ensures Valid() && LoopStep(registry.limits, old(View(now)), e, View(now), Nothing)
    {
      match e
      case Incoming(p, permit) =>
        ghost var before := View(now);
        var admitted := RegistryIncoming(p, permit, before);
        IncomingIsStep(registry.limits, before, p, permit, admitted);
      case TaskMove(move) =>
        if TaskEnabled(move, around.tasks) { MoveTask(move, now); }
      case Done(p) =>
        if p in around.tasks && around.tasks[p].Ended? { RegistryDone(p, now); }
    }

    /** One turn of the loop or its surroundings; an event that cannot happen now is skipped. */
    method Turn(e: LoopEvent, now: Time) returns (later: Time, r: Response)
      requires Valid() && limiters.Valid() && !stopped
      modifies this, registry, limiters
      ensures Valid() && limiters.Valid()
      ensures LoopStep(registry.limits, old(View(now)), e, View(later), r)
    {
      later, r := now, Nothing;
      if e.Swarm? {
        SwarmTurn(e.event, now);
      } else if e.Waiting? || e.Late? {
        r := CallTurn(e, now);
      } else if e.Lookup? {
        var _ := HandleResolveCall(e.peer, e.locator, now);
      } else if e.Tick? {
        later := now + e.elapsed;
        RR.AdvanceLive(registry.byLocator, now, later);
        assert View(later) == View(now).(registry := registry.View(later));
      } else {
        TaskTurn(e, now);
      }
    }
  }

  /** A failing random source has not touched the registry. */
  lemma RefusalKeepsRegistry(limits: Limits, book: Book, call: Call, random: Option<Locator>,
                             s: EagerRegistry.Registry, t: EagerRegistry.Registry)
    requires Decided(limits, book, call, random, s, t, RandomFailed)
    ensures t == s
  {
  }

  lemma ExtendRun(limits: Limits, events: seq<LoopEvent>, k: nat, states: seq<Loop>, responses: seq<Response>,
                  t: Loop, r: Response)
    requires k < |events| && LoopRun(limits, events[..k], states, responses)
    requires LoopStep(limits, states[k], events[k], t, r)
    ensures LoopRun(limits, events[..k + 1], states + [t], responses + [r])
  {
    ExtendHistory(limits, History(events[..k], states, responses), events[k], t, r);
    TakeNext(events, k);
  }

  /** The object runs the loop: every sequence of events, until one stops it, is a run of the step relation. */
  method Drive(limits: Limits, resolve: Limiters.ResolveLimits, events: seq<LoopEvent>)
    returns (relay: Relay, handled: nat, ghost states: seq<Loop>, responses: seq<Response>, now: Time)
    requires limits.capacity <= RR.CAPACITY_MAX
    ensures handled <= |events| && (handled < |events| ==> relay.stopped)
    ensures LoopRun(limits, events[..handled], states, responses) && relay.View(now) == states[handled]
  {
    relay := new Relay(limits, resolve);
    now, handled, states, responses := 0, 0, [EMPTY_LOOP], [];
    while handled < |events| && !relay.stopped
      invariant handled <= |events|
      invariant fresh(relay) && fresh(relay.registry) && fresh(relay.limiters)
      invariant relay.Valid() && relay.limiters.Valid() && relay.registry.limits == limits
      invariant LoopRun(limits, events[..handled], states, responses) && relay.View(now) == states[handled]
    {
      var r;
      now, r := relay.Turn(events[handled], now);
      ExtendRun(limits, events, handled, states, responses, relay.View(now), r);
      states, responses := states + [relay.View(now)], responses + [r];
      handled := handled + 1;
    }
  }
}
