/** What the relay event loop guarantees over every run. */
module LoopTheorems {
  import opened Common
  import opened EagerRegistry
  import opened LoopModel

  // ---- the registry believes what the swarm said ----

  /** The swarm events among the events of a run. */
  function SwarmEvents(events: seq<LoopEvent>): seq<SwarmEvent> {
    if events == [] then []
    else
      var last := events[|events| - 1];
      SwarmEvents(events[..|events| - 1]) + if last.Swarm? then [last.event] else []
  }

  /** The book a history of swarm events leaves. */
  ghost function BookAfter(history: seq<SwarmEvent>): Book {
    if history == [] then Book(map[], map[]) else BookAfter(history[..|history| - 1]).After(history[|history| - 1])
  }

  /** Whether the last reservation event of `p` was an acceptance. */
  ghost predicate LastAccepted(history: seq<SwarmEvent>, p: Peer) {
    if history == [] then false
    else
      var last := history[|history| - 1];
      if last.Reservation? && last.peer == p then last.accepted else LastAccepted(history[..|history| - 1], p)
  }

  /** The registry's two signal sets are exactly what the history of swarm events says. */
  ghost predicate Signals(history: seq<SwarmEvent>, s: Loop) {
    && s.book == BookAfter(history)
    && s.book.Bounded()
    && s.registry.connections == s.book.rosters.Keys
    && forall p :: p in s.registry.reservations <==> LastAccepted(history, p)
  }

  lemma EstablishKeepsBounds(book: Book, p: Peer, id: ConnectionId, source: Option<Source>)
    requires book.Bounded()
    ensures book.Establish(p, id, source).Bounded()
    ensures book.Establish(p, id, source).rosters.Keys == book.rosters.Keys + {p}
  {
    assert id !in book.Roster(p) ==> |book.Roster(p) + {id}| == |book.Roster(p)| + 1;
  }

  lemma CloseKeepsBounds(book: Book, p: Peer, id: ConnectionId)
    requires book.Bounded()
    ensures book.Close(p, id).Bounded()
  {
    SubsetSize(book.Roster(p) - {id}, book.Roster(p));
  }

  lemma HistoryStep(history: seq<SwarmEvent>, e: SwarmEvent)
    ensures BookAfter(history + [e]) == BookAfter(history).After(e)
    ensures forall p :: LastAccepted(history + [e], p) ==
                          if e.Reservation? && e.peer == p then e.accepted else LastAccepted(history, p)
  {
    assert (history + [e])[..|history|] == history;
  }

  lemma SwarmKeepsSignals(history: seq<SwarmEvent>, s: Loop, e: SwarmEvent)
    requires Signals(history, s)
    ensures Signals(history + [e], AfterSwarm(s, e))
  {
    HistoryStep(history, e);
    match e
    case Established(p, id, source) => EstablishKeepsBounds(s.book, p, id, source);
    case Closed(p, id) => CloseKeepsBounds(s.book, p, id);
    case Reservation(_, _) =>
  }

  /** Registry calls and the clock leave both signal sets alone. */
  lemma CallsLeaveSignals(limits: Limits, book: Book, call: Call, random: Option<Locator>,
                          s: EagerRegistry.Registry, t: EagerRegistry.Registry, r: Response)
    requires Decided(limits, book, call, random, s, t, r)
    ensures t.connections == s.connections && t.reservations == s.reservations
  {
  }

  lemma OthersLeaveSignals(limits: Limits, s: Loop, e: LoopEvent, t: Loop, r: Response)
    requires LoopStep(limits, s, e, t, r) && !e.Swarm?
    ensures t.book == s.book
    ensures t.registry.connections == s.registry.connections && t.registry.reservations == s.registry.reservations
  {
    if e.Waiting? && e.peer in s.around.tasks && s.around.tasks[e.peer].Queued? {
      var call := s.around.tasks[e.peer].call;
      var registry :| Decided(limits, s.book, call, e.random, s.registry, registry, r)
                      && t == AfterWaiting(s, e.peer, call, registry, r);
      CallsLeaveSignals(limits, s.book, call, e.random, s.registry, registry, r);
    } else if e.Late? && e.call in s.around.late {
      var registry :| Decided(limits, s.book, e.call, e.random, s.registry, registry, r)
                      && t == AfterLate(s, e.call, registry, r);
      CallsLeaveSignals(limits, s.book, e.call, e.random, s.registry, registry, r);
    }
  }

  /** Over every run the registry's signals are those of the swarm events so far. */
  lemma {:induction false} RegistryFollowsSwarm(
    limits: Limits, events: seq<LoopEvent>, states: seq<Loop>, responses: seq<Response>, k: nat)
    requires LoopRun(limits, events, states, responses) && k <= |events|
    ensures Signals(SwarmEvents(events[..k]), states[k])
  {
    if k > 0 {
      var e, history := events[k - 1], SwarmEvents(events[..k - 1]);
      RegistryFollowsSwarm(limits, events, states, responses, k - 1);
      assert events[..k][..k - 1] == events[..k - 1];
      if e.Swarm? {
        SwarmKeepsSignals(history, states[k - 1], e.event);
      } else {
        assert SwarmEvents(events[..k]) == history;
        OthersLeaveSignals(limits, states[k - 1], e, states[k], responses[k - 1]);
      }
    }
  }

  // ---- the registry stays a registry ----

  lemma SwarmKeepsRegistry(limits: Limits, s: Loop, e: SwarmEvent)
    requires Inv(limits, s.registry)
    ensures Inv(limits, AfterSwarm(s, e).registry)
  {
    var t := AfterSwarm(s, e).registry;
    match e
    case Established(p, id, source) =>
      var up := p in s.book.Establish(p, id, source).rosters;
      StepKeepsInv(limits, s.registry, SetConnection(p, up), t, Nothing);
    case Closed(p, id) =>
      var up := p in s.book.Close(p, id).rosters;
      StepKeepsInv(limits, s.registry, SetConnection(p, up), t, Nothing);
    case Reservation(p, accepted) =>
      StepKeepsInv(limits, s.registry, SetReservation(p, accepted), t, Nothing);
  }

  lemma CallsKeepRegistry(limits: Limits, book: Book, call: Call, random: Option<Locator>,
                          s: EagerRegistry.Registry, t: EagerRegistry.Registry, r: Response)
    requires Inv(limits, s) && Decided(limits, book, call, random, s, t, r)
    ensures Inv(limits, t)
  {
    if book.IsUnique(call.peer, call.admitted) {
      var source := book.endpoints[call.admitted];
      match call.request
      case ReleaseRequest(l) => StepKeepsInv(limits, s, Release(call.peer, l), t, r);
      case AllocateRequest =>
        if source.Some? { StepKeepsInv(limits, s, Allocate(call.peer, source.value, random), t, r); }
      case ReclaimRequest(l) =>
        if source.Some? { StepKeepsInv(limits, s, Reclaim(call.peer, source.value, l), t, r); }
    }
  }

  lemma LoopKeepsRegistry(limits: Limits, s: Loop, e: LoopEvent, t: Loop, r: Response)
    requires Inv(limits, s.registry) && LoopStep(limits, s, e, t, r)
    ensures Inv(limits, t.registry)
  {
    if e.Swarm? {
      SwarmKeepsRegistry(limits, s, e.event);
    } else if e.Waiting? && e.peer in s.around.tasks && s.around.tasks[e.peer].Queued? {
      var call := s.around.tasks[e.peer].call;
      var registry :| Decided(limits, s.book, call, e.random, s.registry, registry, r)
                      && t == AfterWaiting(s, e.peer, call, registry, r);
      CallsKeepRegistry(limits, s.book, call, e.random, s.registry, registry, r);
    } else if e.Late? && e.call in s.around.late {
      var registry :| Decided(limits, s.book, e.call, e.random, s.registry, registry, r)
                      && t == AfterLate(s, e.call, registry, r);
      CallsKeepRegistry(limits, s.book, e.call, e.random, s.registry, registry, r);
    } else if e.Tick? {
      var registry :| Step(limits, s.registry, Advance(e.elapsed), registry, Nothing) && t == s.(registry := registry);
      StepKeepsInv(limits, s.registry, Advance(e.elapsed), registry, Nothing);
    }
  }

  lemma {:induction false} RegistryStaysValid(
    limits: Limits, events: seq<LoopEvent>, states: seq<Loop>, responses: seq<Response>, k: nat)
    requires LoopRun(limits, events, states, responses) && k <= |events|
    ensures Inv(limits, states[k].registry)
  {
    if k == 0 {
      assert forall x :: OfSource(EagerRegistry.EMPTY.mappings, x) == {};
    } else {
      RegistryStaysValid(limits, events, states, responses, k - 1);
      var e := events[k - 1];
      LoopKeepsRegistry(limits, states[k - 1], e, states[k], responses[k - 1]);
    }
  }

  /**
   Resolution, read back to the swarm events: a lookup answers `p` exactly when `p` holds the locator,
   has a tracked connection, and its last reservation event was an acceptance.
   */
  lemma ResolvesExactlyAvailableHolders(
    limits: Limits, events: seq<LoopEvent>, states: seq<Loop>, responses: seq<Response>, k: nat,
    l: Locator, r: Response, p: Peer)
    requires LoopRun(limits, events, states, responses) && k <= |events|
    requires Step(limits, states[k].registry, Resolve(l), states[k].registry, r)
    ensures r == Resolved(p) <==>
            && l in states[k].registry.mappings && states[k].registry.mappings[l].owner == p
            && BookAfter(SwarmEvents(events[..k])).Roster(p) != {}
            && LastAccepted(SwarmEvents(events[..k]), p)
  {
    RegistryFollowsSwarm(limits, events, states, responses, k);
    RegistryStaysValid(limits, events, states, responses, k);
  }

  // ---- rejected peers ----

  /** A task that will make the loop close its peer's connections when it is done. */
  predicate Doomed(t: Task) {
    (t.Delivered? || t.Ended?) && t.rejected.Some?
  }

  predicate IsDoomed(s: Loop, p: Peer) {
    p in s.around.tasks && Doomed(s.around.tasks[p])
  }

  function LostOf(s: Loop, p: Peer): set<ConnectionId> {
    if p in s.around.lost then {s.around.lost[p]} else {}
  }

  /**
   The marker of a rejected peer: it cannot leak; a doomed exchange accounts for the only connection
   still open; and without one exactly the lost connection is open.
   */
  ghost predicate MarkerOk(s: Loop, p: Peer) {
    && (p in s.around.tasks || p in s.book.rosters)
    && if IsDoomed(s, p)
       then p !in s.around.lost && s.Open(p) <= {s.around.tasks[p].rejected.value}
       else s.Open(p) == LostOf(s, p)
  }

  /** Peers without a marker have lost nothing and hold no rejection, and calls carry their peer. */
  ghost predicate UnmarkedOk(s: Loop, p: Peer) {
    && (p !in s.rejected ==> p !in s.around.lost && !IsDoomed(s, p))
    && (p in s.around.lost && p in s.around.tasks ==> s.around.tasks[p].Ended?)
    && (p in s.around.tasks && s.around.tasks[p].Queued? ==> s.around.tasks[p].call.peer == p)
  }

  ghost predicate PeerOk(s: Loop, p: Peer) {
    UnmarkedOk(s, p) && (p in s.rejected ==> MarkerOk(s, p))
  }

  ghost predicate Markers(s: Loop) {
    forall p :: PeerOk(s, p)
  }

  /** What one peer's bookkeeping consists of. */
  ghost predicate SamePeer(s: Loop, t: Loop, p: Peer) {
    && (p in s.rejected <==> p in t.rejected)
    && s.book.Roster(p) == t.book.Roster(p) && (p in s.book.rosters <==> p in t.book.rosters)
    && s.around.Told(p) == t.around.Told(p)
    && (p in s.around.tasks <==> p in t.around.tasks)
    && (p in s.around.tasks ==> s.around.tasks[p] == t.around.tasks[p])
    && (p in s.around.lost <==> p in t.around.lost) && (p in s.around.lost ==> s.around.lost[p] == t.around.lost[p])
  }

  lemma SamePeerStaysOk(s: Loop, t: Loop, p: Peer)
    requires PeerOk(s, p) && SamePeer(s, t, p)
    ensures PeerOk(t, p)
  {
  }

  lemma EstablishedKeepsTasks(s: Loop, p: Peer, id: ConnectionId, source: Option<Source>)
    ensures var t := AfterEstablished(s, p, id, source);
            && t.around.tasks == s.around.tasks && t.rejected == s.rejected
            && (p in s.book.rosters ==> p in t.book.rosters)
            && (p in t.around.lost ==> p in s.around.lost)
  {
  }

  lemma EstablishedOpen(s: Loop, p: Peer, id: ConnectionId, source: Option<Source>)
    requires p in s.rejected
    ensures var t := AfterEstablished(s, p, id, source);
            t.Open(p) == s.Open(p) - {id} && LostOf(t, p) == LostOf(s, p) - {id}
  {
    var t := AfterEstablished(s, p, id, source);
    assert t.around.Told(p) == s.around.Told(p) + {id};
    assert t.book.Roster(p) - {id} == s.book.Roster(p) - {id};
  }

  lemma EstablishedKeepsPeer(s: Loop, p: Peer, id: ConnectionId, source: Option<Source>)
    requires PeerOk(s, p)
    ensures PeerOk(AfterEstablished(s, p, id, source), p)
  {
    EstablishedKeepsTasks(s, p, id, source);
    if p in s.rejected {
      EstablishedOpen(s, p, id, source);
    }
  }

  lemma ClosedKeepsPeer(s: Loop, p: Peer, id: ConnectionId)
    requires PeerOk(s, p)
    ensures PeerOk(AfterClosed(s, p, id), p)
  {
    var t := AfterClosed(s, p, id);
    assert t.book.Roster(p) == s.book.Roster(p) - {id};
    assert t.Open(p) == s.Open(p) - {id};
  }

  /** The peer a turn is about. */
  function PeerOf(e: LoopEvent): Option<Peer> {
    match e
    case Swarm(event) => Some(event.peer)
    case Incoming(p, _) => Some(p)
    case TaskMove(move) => Some(move.peer)
    case Waiting(p, _) => Some(p)
    case Late(call, _) => Some(call.peer)
    case Done(p) => Some(p)
    case Lookup(_, _) => None
    case Tick(_) => None
  }

  /** What serving a call leaves: the registry's answer decides the rest. */
  ghost predicate ServedAs(limits: Limits, s: Loop, e: LoopEvent, t: Loop, r: Response) {
    || t == s
    || (&& e.Waiting? && e.peer in s.around.tasks && s.around.tasks[e.peer].Queued?
        && t == AfterWaiting(s, e.peer, s.around.tasks[e.peer].call, t.registry, r)
        && (r.Capacity? ==> s.book.IsUnique(s.around.tasks[e.peer].call.peer, s.around.tasks[e.peer].call.admitted)))
    || (&& e.Late? && e.call in s.around.late && t == AfterLate(s, e.call, t.registry, r)
        && (r.Capacity? ==> s.book.IsUnique(e.call.peer, e.call.admitted)))
  }

  lemma CallIsServed(limits: Limits, s: Loop, e: LoopEvent, t: Loop, r: Response)
    requires LoopStep(limits, s, e, t, r) && (e.Waiting? || e.Late?)
    ensures ServedAs(limits, s, e, t, r)
  {
  }

  lemma WaitingKeepsPeer(s: Loop, p: Peer, call: Call, registry: EagerRegistry.Registry, r: Response)
    requires PeerOk(s, p) && p in s.around.tasks && s.around.tasks[p] == Queued(call)
    requires r.Capacity? ==> s.book.IsUnique(p, call.admitted)
    ensures PeerOk(AfterWaiting(s, p, call, registry, r), p)
  {
    assert AfterWaiting(s, p, call, registry, r).Open(p) == s.Open(p);
  }

  lemma LateKeepsPeer(s: Loop, call: Call, registry: EagerRegistry.Registry, r: Response)
    requires PeerOk(s, call.peer)
    requires r.Capacity? ==> s.book.IsUnique(call.peer, call.admitted)
    ensures PeerOk(AfterLate(s, call, registry, r), call.peer)
  {
    var t, p := AfterLate(s, call, registry, r), call.peer;
    if r.Capacity? {
      assert t.Open(p) == {};
    }
  }

  lemma DoneKeepsPeer(s: Loop, p: Peer)
    requires PeerOk(s, p) && p in s.around.tasks && s.around.tasks[p].Ended?
    ensures PeerOk(AfterDone(s, p), p)
  {
    var t := AfterDone(s, p);
    assert t.Open(p) == if s.around.tasks[p].rejected.Some? then {} else s.Open(p);
  }

  lemma TaskKeepsPeer(s: Loop, e: TaskEvent)
    requires PeerOk(s, e.peer) && TaskEnabled(e, s.around.tasks)
    ensures PeerOk(AfterTask(s, e), e.peer)
  {
    assert AfterTask(s, e).Open(e.peer) == s.Open(e.peer);
  }

  lemma IncomingKeepsPeer(s: Loop, p: Peer, id: ConnectionId)
    requires PeerOk(s, p) && Admissible(s, p, true, id)
    ensures PeerOk(SetTask(s, p, Reading(id)), p)
  {
  }

  lemma OwnPeerStaysOk(limits: Limits, s: Loop, e: LoopEvent, t: Loop, r: Response, p: Peer)
    requires PeerOk(s, p) && LoopStep(limits, s, e, t, r) && PeerOf(e) == Some(p)
    ensures PeerOk(t, p)
  {
    match e
    case Swarm(Established(_, id, source)) => EstablishedKeepsPeer(s, p, id, source);
    case Swarm(Closed(_, id)) => ClosedKeepsPeer(s, p, id);
    case Swarm(Reservation(_, _)) => SamePeerStaysOk(s, t, p);
    case Incoming(_, permit) =>
      if id :| Admissible(s, p, permit, id) { IncomingKeepsPeer(s, p, id); }
    case TaskMove(move) =>
      if TaskEnabled(move, s.around.tasks) { TaskKeepsPeer(s, move); }
    case Waiting(_, _) =>
      CallIsServed(limits, s, e, t, r);
      if t != s { WaitingKeepsPeer(s, p, s.around.tasks[p].call, t.registry, r); }
    case Late(call, _) =>
      CallIsServed(limits, s, e, t, r);
      if t != s { LateKeepsPeer(s, call, t.registry, r); }
    case Done(_) =>
      if p in s.around.tasks && s.around.tasks[p].Ended? { DoneKeepsPeer(s, p); }
  }

  lemma EstablishedLeavesOthers(s: Loop, p: Peer, id: ConnectionId, source: Option<Source>, q: Peer)
    requires p != q
    ensures SamePeer(s, AfterEstablished(s, p, id, source), q)
  {
  }

  lemma ClosedLeavesOthers(s: Loop, p: Peer, id: ConnectionId, q: Peer)
    requires p != q
    ensures SamePeer(s, AfterClosed(s, p, id), q)
  {
  }

  lemma CallsLeaveOthers(limits: Limits, s: Loop, e: LoopEvent, t: Loop, r: Response, q: Peer)
    requires ServedAs(limits, s, e, t, r) && PeerOf(e) != Some(q)
    ensures SamePeer(s, t, q)
  {
  }

  lemma TasksLeaveOthers(s: Loop, e: TaskEvent, q: Peer)
    requires TaskEnabled(e, s.around.tasks) && e.peer != q
    ensures SamePeer(s, AfterTask(s, e), q)
  {
  }

  lemma DoneLeavesOthers(s: Loop, p: Peer, q: Peer)
    requires p in s.around.tasks && s.around.tasks[p].Ended? && p != q
    ensures SamePeer(s, AfterDone(s, p), q)
  {
  }

  /** A turn changes the bookkeeping of no other peer. */
  lemma OtherPeers(limits: Limits, s: Loop, e: LoopEvent, t: Loop, r: Response, q: Peer)
    requires LoopStep(limits, s, e, t, r) && PeerOf(e) != Some(q)
    ensures SamePeer(s, t, q)
  {
    match e
    case Swarm(Established(p, id, source)) => EstablishedLeavesOthers(s, p, id, source, q);
    case Swarm(Closed(p, id)) => ClosedLeavesOthers(s, p, id, q);
    case Swarm(Reservation(_, _)) =>
    case Incoming(_, _) =>
    case TaskMove(move) =>
      if TaskEnabled(move, s.around.tasks) { TasksLeaveOthers(s, move, q); }
    case Waiting(_, _) =>
      CallIsServed(limits, s, e, t, r);
      CallsLeaveOthers(limits, s, e, t, r, q);
    case Late(_, _) =>
      CallIsServed(limits, s, e, t, r);
      CallsLeaveOthers(limits, s, e, t, r, q);
    case Done(p) =>
      if p in s.around.tasks && s.around.tasks[p].Ended? { DoneLeavesOthers(s, p, q); }
    case Lookup(_, _) =>
    case Tick(_) =>
  }

  lemma {:induction false} RunKeepsPeer(
    limits: Limits, events: seq<LoopEvent>, states: seq<Loop>, responses: seq<Response>, k: nat, p: Peer)
    requires LoopRun(limits, events, states, responses) && k <= |events|
    ensures PeerOk(states[k], p)
  {
    if k > 0 {
      RunKeepsPeer(limits, events, states, responses, k - 1, p);
      var s, e, t, r := states[k - 1], events[k - 1], states[k], responses[k - 1];
      if PeerOf(e) == Some(p) {
        OwnPeerStaysOk(limits, s, e, t, r, p);
      } else {
        OtherPeers(limits, s, e, t, r, p);
        SamePeerStaysOk(s, t, p);
      }
    }
  }

  /**
   Over every run, including calls served after their task ended: a rejection marker never outlives both
   the exchange and the connections of its peer, and of an idle rejected peer exactly the connection
   whose rejection was lost is still open.
   */
  lemma RejectionIsExact(
    limits: Limits, events: seq<LoopEvent>, states: seq<Loop>, responses: seq<Response>, k: nat, p: Peer)
    requires LoopRun(limits, events, states, responses) && k <= |events| && p in states[k].rejected
    ensures !states[k].Idle(p) || BookAfter(SwarmEvents(events[..k])).Roster(p) != {}
    ensures states[k].Idle(p) ==> states[k].Open(p) == LostOf(states[k], p)
  {
    RunKeepsPeer(limits, events, states, responses, k, p);
    RegistryFollowsSwarm(limits, events, states, responses, k);
  }

  lemma LostStep(limits: Limits, s: Loop, e: LoopEvent, t: Loop, r: Response, p: Peer)
    requires LoopStep(limits, s, e, t, r) && p in t.around.lost
    ensures p in s.around.lost || e == TaskMove(Loses(p))
  {
    if PeerOf(e) != Some(p) {
      OtherPeers(limits, s, e, t, r, p);
    } else if e.Waiting? || e.Late? {
      CallIsServed(limits, s, e, t, r);
    }
  }

  /** A lost rejection was lost by an exchange that never read the decision it was given. */
  lemma {:induction false} LostIsCancelled(
    limits: Limits, events: seq<LoopEvent>, states: seq<Loop>, responses: seq<Response>, k: nat, p: Peer)
    requires LoopRun(limits, events, states, responses) && k <= |events|
    ensures p in states[k].around.lost ==> TaskMove(Loses(p)) in events[..k]
  {
    if k > 0 && p in states[k].around.lost {
      var e := events[k - 1];
      LostIsCancelled(limits, events, states, responses, k - 1, p);
      LostStep(limits, states[k - 1], e, states[k], responses[k - 1], p);
      TakeNext(events, k - 1);
    }
  }

  /**
   If every exchange of a peer reads the decision it is given, every tracked connection of that peer has
   been told to close whenever the peer is rejected and idle.
   */
  lemma ReadDecisionsClose(
    limits: Limits, events: seq<LoopEvent>, states: seq<Loop>, responses: seq<Response>, k: nat, p: Peer)
    requires LoopRun(limits, events, states, responses) && k <= |events|
    requires p in states[k].rejected && states[k].Idle(p) && TaskMove(Loses(p)) !in events[..k]
    ensures BookAfter(SwarmEvents(events[..k])).Roster(p) <= states[k].around.Told(p)
  {
    var s := states[k];
    RejectionIsExact(limits, events, states, responses, k, p);
    RegistryFollowsSwarm(limits, events, states, responses, k);
    LostIsCancelled(limits, events, states, responses, k, p);
    assert s.book.Roster(p) == s.Open(p) + (s.book.Roster(p) * s.around.Told(p));
  }

  // ---- the assumption is needed ----

  datatype History = History(events: seq<LoopEvent>, states: seq<Loop>, responses: seq<Response>)
  {
    ghost predicate IsRun(limits: Limits) {
      LoopRun(limits, events, states, responses)
    }

    function Last(): Loop
      requires states != []
    {
      states[|states| - 1]
    }

    function Then(e: LoopEvent, t: Loop, r: Response): History {
      History(events + [e], states + [t], responses + [r])
    }
  }

  lemma ExtendHistory(limits: Limits, h: History, e: LoopEvent, t: Loop, r: Response)
    requires h.IsRun(limits) && LoopStep(limits, h.Last(), e, t, r)
    ensures h.Then(e, t, r).IsRun(limits) && h.Then(e, t, r).Last() == t
  {
    var g := h.Then(e, t, r);
    forall i | 0 <= i < |g.events| ensures LoopStep(limits, g.states[i], g.events[i], g.states[i + 1], g.responses[i]) {
      if i < |h.events| {
        assert g.events[i] == h.events[i];
      }
    }
  }

  /** A reserved peer with one sourced connection that the registry has no room for. */
  ghost predicate TurnedAway(limits: Limits, s: Loop, p: Peer, id: ConnectionId) {
    && !s.stopped && s.Idle(p) && p !in s.rejected && id in s.Open(p) && s.book.IsUnique(p, id)
    && s.book.endpoints[id].Some? && Available(s.registry, p) && !Holds(s.registry.mappings, p)
    && !HasCapacity(limits, s.registry.mappings, s.book.endpoints[id].value)
  }

  function Asked(s: Loop, p: Peer, id: ConnectionId): Loop {
    SetTask(SetTask(s, p, Reading(id)), p, Queued(Call(p, id, AllocateRequest)))
  }

  /** An idle peer's exchange up to its queued request. */
  lemma Asks(limits: Limits, h: History, p: Peer, id: ConnectionId) returns (g: History)
    requires h.IsRun(limits) && !h.Last().stopped && Admissible(h.Last(), p, true, id)
    ensures g.IsRun(limits) && h.events <= g.events && g.Last() == Asked(h.Last(), p, id)
  {
    var s1 := SetTask(h.Last(), p, Reading(id));
    ExtendHistory(limits, h, Incoming(p, true), s1, Nothing);
    var h1 := h.Then(Incoming(p, true), s1, Nothing);
    ExtendHistory(limits, h1, TaskMove(Sends(p, AllocateRequest)), Asked(h.Last(), p, id), Nothing);
    g := h1.Then(TaskMove(Sends(p, AllocateRequest)), Asked(h.Last(), p, id), Nothing);
  }

  /** Its exchange up to the delivered rejection. */
  lemma IsTurnedAway(limits: Limits, h: History, p: Peer, id: ConnectionId) returns (g: History)
    requires h.IsRun(limits) && TurnedAway(limits, h.Last(), p, id)
    ensures g.IsRun(limits) && h.events <= g.events
    ensures var t := g.Last();
            && !t.stopped && p in t.around.tasks && t.around.tasks[p] == Delivered(Some(id))
            && p in t.rejected && t.Open(p) == {id} && p in t.book.rosters
  {
    var s, call := h.Last(), Call(p, id, AllocateRequest);
    g := Asks(limits, h, p, id);
    var rejected := AfterWaiting(g.Last(), p, call, s.registry, Capacity);
    RejectsCall(limits, s, p, id);
    ExtendHistory(limits, g, Waiting(p, None), rejected, Capacity);
    g := g.Then(Waiting(p, None), rejected, Capacity);
  }

  lemma RejectsCall(limits: Limits, s: Loop, p: Peer, id: ConnectionId)
    requires TurnedAway(limits, s, p, id)
    ensures var call := Call(p, id, AllocateRequest);
            LoopStep(limits, Asked(s, p, id), Waiting(p, None),
                     AfterWaiting(Asked(s, p, id), p, call, s.registry, Capacity), Capacity)
  {
    assert Decided(limits, s.book, Call(p, id, AllocateRequest), None, s.registry, s.registry, Capacity);
  }

  /** What the loop is left with when that exchange is cancelled before it reads the decision. */
  lemma MissesDecision(limits: Limits, h: History, p: Peer, id: ConnectionId) returns (g: History)
    requires h.IsRun(limits) && TurnedAway(limits, h.Last(), p, id)
    ensures g.IsRun(limits) && h.events <= g.events && TaskMove(Loses(p)) in g.events
    ensures p in g.Last().rejected && g.Last().Idle(p) && g.Last().Open(p) == {id}
  {
    var away := IsTurnedAway(limits, h, p, id);
    var s3 := away.Last();
    var s4 := AfterTask(s3, Loses(p));
    ExtendHistory(limits, away, TaskMove(Loses(p)), s4, Nothing);
    var lost := away.Then(TaskMove(Loses(p)), s4, Nothing);
    ExtendHistory(limits, lost, Done(p), AfterDone(s4, p), Nothing);
    g := lost.Then(Done(p), AfterDone(s4, p), Nothing);
    assert g.events[|away.events|] == TaskMove(Loses(p));
  }

  /** A peer with no connection joins with one, and its reservation is accepted. */
  lemma Joins(limits: Limits, h: History, p: Peer, id: ConnectionId, source: Source) returns (g: History)
    requires h.IsRun(limits) && !h.Last().stopped
    requires p !in h.Last().book.rosters && p !in h.Last().rejected && !Holds(h.Last().registry.mappings, p)
    ensures g.IsRun(limits) && h.events <= g.events
    ensures var s, t := h.Last(), g.Last();
            && !t.stopped && t.rejected == s.rejected && t.around.tasks == s.around.tasks
            && id in t.Open(p) && t.book.IsUnique(p, id) && t.book.endpoints[id] == Some(source)
            && t.book.rosters.Keys == s.book.rosters.Keys + {p}
            && t.registry == s.registry.(connections := s.registry.connections + {p},
                                         reservations := s.registry.reservations + {p})
  {
    var s := h.Last();
    var s1 := AfterEstablished(s, p, id, Some(source));
    var s2 := AfterReservation(s1, p, true);
    ExtendHistory(limits, h, Swarm(Established(p, id, Some(source))), s1, Nothing);
    var h1 := h.Then(Swarm(Established(p, id, Some(source))), s1, Nothing);
    ExtendHistory(limits, h1, Swarm(Reservation(p, true)), s2, Nothing);
    g := h1.Then(Swarm(Reservation(p, true)), s2, Nothing);
    NobodyRefreshed(s.registry.mappings, p, s.registry.now);
  }

  lemma NobodyRefreshed(m: map<Locator, Mapping>, p: Peer, now: Time)
    requires !Holds(m, p)
    ensures forall up :: RefreshAll(m, p, up, now) == m
  {
  }

  /** An idle, available peer that the registry has room for. */
  ghost predicate Welcome(limits: Limits, s: Loop, p: Peer, id: ConnectionId, l: Locator) {
    && !s.stopped && Admissible(s, p, true, id) && s.book.endpoints[id].Some?
    && Available(s.registry, p) && !Holds(s.registry.mappings, p) && l !in s.registry.mappings
    && HasCapacity(limits, s.registry.mappings, s.book.endpoints[id].value)
  }

  lemma GrantsCall(limits: Limits, s: Loop, p: Peer, id: ConnectionId, l: Locator)
    requires Welcome(limits, s, p, id, l)
    ensures var call, registry := Call(p, id, AllocateRequest), Insert(s.registry, l, p, s.book.endpoints[id].value);
            LoopStep(limits, Asked(s, p, id), Waiting(p, Some(l)),
                     AfterWaiting(Asked(s, p, id), p, call, registry, Acquired(l)), Acquired(l))
  {
    assert FirstFree(s.registry.mappings, l, l);
    var registry := Insert(s.registry, l, p, s.book.endpoints[id].value);
    assert Decided(limits, s.book, Call(p, id, AllocateRequest), Some(l), s.registry, registry, Acquired(l));
  }

  lemma Acquires(limits: Limits, h: History, p: Peer, id: ConnectionId, l: Locator) returns (g: History)
    requires h.IsRun(limits) && Welcome(limits, h.Last(), p, id, l)
    ensures g.IsRun(limits) && h.events <= g.events
    ensures var s, t := h.Last(), g.Last();
            && !t.stopped && t.rejected == s.rejected && t.book == s.book
            && t.around.tasks.Keys == s.around.tasks.Keys + {p}
            && t.registry == Insert(s.registry, l, p, s.book.endpoints[id].value)
  {
    var s := h.Last();
    g := Asks(limits, h, p, id);
    GrantsCall(limits, s, p, id, l);
    var registry := Insert(s.registry, l, p, s.book.endpoints[id].value);
    var granted := AfterWaiting(g.Last(), p, Call(p, id, AllocateRequest), registry, Acquired(l));
    ExtendHistory(limits, g, Waiting(p, Some(l)), granted, Acquired(l));
    g := g.Then(Waiting(p, Some(l)), granted, Acquired(l));
  }

  /**
   A concrete relay with room for one registration: the second peer is turned away, its exchange is
   cancelled over the delivered decision, and its connection stays open.
   */
  lemma MissedDecisionLeavesConnectionOpen() returns (h: History)
    ensures h.IsRun(Limits(1, 1)) && TaskMove(Loses(1)) in h.events
    ensures 1 in h.Last().rejected && h.Last().Idle(1) && h.Last().Open(1) == {1}
  {
    var limits := Limits(1, 1);
    h := History([], [EMPTY_LOOP], []);
    h := Joins(limits, h, 0, 0, 0);
    var empty := h.Last().registry.mappings;
    assert OfSource(empty, 0) == {};
    h := Acquires(limits, h, 0, 0, 0);
    h := Joins(limits, h, 1, 1, 0);
    h := MissesDecision(limits, h, 1, 1);
  }
}
