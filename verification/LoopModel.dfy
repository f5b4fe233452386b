/**
 The relay event loop's bookkeeping as a step relation: the connection book, the reference registry it
 feeds, and the protocol that disconnects peers the registry has no room for. Exchange tasks run beside
 the loop, so what they do between two of its turns is an event of its own.
 */
module LoopModel {
  import opened Common
  import opened EagerRegistry

  /** The physical connections one peer may have in the book. */
  const PER_PEER_CAPACITY: nat := 8

  datatype SwarmEvent =
    | Established(peer: Peer, id: ConnectionId, source: Option<Source>)
    | Closed(peer: Peer, id: ConnectionId)
    | Reservation(peer: Peer, accepted: bool)

  datatype Request = AllocateRequest | ReclaimRequest(locator: Locator) | ReleaseRequest(locator: Locator)
  datatype Call = Call(peer: Peer, admitted: ConnectionId, request: Request)

  /**
   One registry exchange: reading its request, waiting for the loop, holding a decision, or over. A
   rejection names the connection it was decided on.
   */
  datatype Task =
    | Reading(admitted: ConnectionId)
    | Queued(call: Call)
    | Delivered(rejected: Option<ConnectionId>)
    | Ended(rejected: Option<ConnectionId>)

  /** An exchange sends its request, fails before that, gives up waiting, reads the decision, or is cancelled first. */
  datatype TaskEvent =
    | Sends(peer: Peer, request: Request)
    | Fails(peer: Peer)
    | TimesOut(peer: Peer)
    | Reads(peer: Peer)
    | Loses(peer: Peer)

  /** Everything that can happen to the relay, in any order. */
  datatype LoopEvent =
    | Swarm(event: SwarmEvent)
    | Incoming(peer: Peer, permit: bool)
    | TaskMove(move: TaskEvent)
    | Waiting(peer: Peer, random: Option<Locator>)
    | Late(call: Call, random: Option<Locator>)
    | Done(peer: Peer)
    | Lookup(peer: Peer, locator: Option<Locator>)
    | Tick(elapsed: Time)

  /** The connection book: tracked connections per peer, and the quota source of each endpoint. */
  datatype Book = Book(rosters: map<Peer, set<ConnectionId>>, endpoints: map<ConnectionId, Option<Source>>)
  {
    function Roster(p: Peer): set<ConnectionId> {
      if p in rosters then rosters[p] else {}
    }

    /** Duplicate establishments change nothing and a full roster refuses. */
    function Establish(p: Peer, id: ConnectionId, source: Option<Source>): Book {
      if id in Roster(p) || |Roster(p)| >= PER_PEER_CAPACITY then this
      else Book(rosters[p := Roster(p) + {id}], endpoints[id := source])
    }

    /** A peer without connections has no roster. */
    function Close(p: Peer, id: ConnectionId): Book {
      var rest := Roster(p) - {id};
      if id !in Roster(p) then this
      else Book(if rest == {} then rosters - {p} else rosters[p := rest], endpoints - {id})
    }

    function After(e: SwarmEvent): Book {
      match e
      case Established(p, id, source) => Establish(p, id, source)
      case Closed(p, id) => Close(p, id)
      case Reservation(_, _) => this
    }

    /** The peer's connection, once its roster has converged to exactly one. */
    ghost predicate IsUnique(p: Peer, id: ConnectionId) {
      Roster(p) == {id} && id in endpoints
    }

    ghost predicate Bounded() {
      forall p :: p in rosters ==> rosters[p] != {} && |rosters[p]| <= PER_PEER_CAPACITY
    }
  }

  /** The rest of the relay as the loop meets it. */
  datatype Surroundings = Surroundings(
    tasks: map<Peer, Task>,                // the exchange task of each active peer
    late: multiset<Call>,                  // queued calls whose task has already ended
    told: map<Peer, set<ConnectionId>>,    // connections told to close since they were established
    lost: map<Peer, ConnectionId>)         // open connections whose rejection nobody read
  {
    function Told(p: Peer): set<ConnectionId> {
      if p in told then told[p] else {}
    }

    function Tell(p: Peer, ids: set<ConnectionId>): Surroundings {
      this.(told := told[p := Told(p) + ids], lost := if p in lost && lost[p] in ids then lost - {p} else lost)
    }

    function Forget(p: Peer, id: ConnectionId): Surroundings {
      this.(told := told[p := Told(p) - {id}], lost := if p in lost && lost[p] == id then lost - {p} else lost)
    }
  }

  datatype Loop = Loop(
    book: Book, rejected: set<Peer>, around: Surroundings, registry: EagerRegistry.Registry, stopped: bool)
  {
    /** Tracked connections of a peer that nobody has told to close. */
    function Open(p: Peer): set<ConnectionId> {
      book.Roster(p) - around.Told(p)
    }

    predicate Idle(p: Peer) {
      p !in around.tasks
    }
  }

  const NOTHING_AROUND: Surroundings := Surroundings(map[], multiset{}, map[], map[])
  const EMPTY_LOOP: Loop := Loop(Book(map[], map[]), {}, NOTHING_AROUND, EagerRegistry.EMPTY, false)

  // ---- the steps ----

  function Feed(r: EagerRegistry.Registry, p: Peer, up: bool): EagerRegistry.Registry {
    Refresh(r.(connections := Member(r.connections, p, up)), p)
  }

  /** An overflowing connection, and any connection of a rejected peer, is told to close at once. */
  function AfterEstablished(s: Loop, p: Peer, id: ConnectionId, source: Option<Source>): Loop {
    var book := s.book.Establish(p, id, source);
    var renewed := if id in s.book.Roster(p) then s.around else s.around.Forget(p, id);
    s.(book := book,
       around := if p in s.rejected || id !in book.Roster(p) then renewed.Tell(p, {id}) else renewed,
       registry := Feed(s.registry, p, p in book.rosters))
  }

  /** Drops the marker of a peer that is neither active nor connected. */
  function Unmark(s: Loop, p: Peer): Loop {
    if s.Idle(p) && p !in s.book.rosters
    then s.(rejected := s.rejected - {p}, around := s.around.(lost := s.around.lost - {p})) else s
  }

  function AfterClosed(s: Loop, p: Peer, id: ConnectionId): Loop {
    var book := s.book.Close(p, id);
    Unmark(s.(book := book, around := s.around.Forget(p, id), registry := Feed(s.registry, p, p in book.rosters)), p)
  }

  function AfterReservation(s: Loop, p: Peer, accepted: bool): Loop {
    s.(registry := Refresh(s.registry.(reservations := Member(s.registry.reservations, p, accepted)), p))
  }

  function AfterSwarm(s: Loop, e: SwarmEvent): Loop {
    match e
    case Established(p, id, source) => AfterEstablished(s, p, id, source)
    case Closed(p, id) => AfterClosed(s, p, id)
    case Reservation(p, accepted) => AfterReservation(s, p, accepted)
  }

  ghost predicate Admissible(s: Loop, p: Peer, permit: bool, id: ConnectionId) {
    permit && s.Idle(p) && p !in s.rejected && s.book.IsUnique(p, id)
  }

  function SetTask(s: Loop, p: Peer, task: Task): Loop {
    s.(around := s.around.(tasks := s.around.tasks[p := task]))
  }

  predicate TaskEnabled(e: TaskEvent, tasks: map<Peer, Task>) {
    e.peer in tasks &&
    match e
    case Sends(p, _) => tasks[p].Reading?
    case Fails(p) => tasks[p].Reading?
    case TimesOut(p) => tasks[p].Queued?
    case Reads(p) => tasks[p].Delivered?
    case Loses(p) => tasks[p].Delivered?
  }

  /** What an exchange does on its own between two turns of the loop. */
  function AfterTask(s: Loop, e: TaskEvent): Loop
    requires TaskEnabled(e, s.around.tasks)
  {
    var p, task := e.peer, s.around.tasks[e.peer];
    match e
    case Sends(_, request) => SetTask(s, p, Queued(Call(p, task.admitted, request)))
    case Fails(_) => SetTask(s, p, Ended(None))
    case TimesOut(_) =>
      var ended := SetTask(s, p, Ended(None));
      ended.(around := ended.around.(late := s.around.late + multiset{task.call}))
    case Reads(_) => SetTask(s, p, Ended(task.rejected))
    case Loses(_) =>
      var ended := SetTask(s, p, Ended(None));
      if task.rejected.Some? && task.rejected.value in s.Open(p)
      then ended.(around := ended.around.(lost := s.around.lost[p := task.rejected.value])) else ended
  }

  /** What a call admitted on a connection with this quota source may do to the reference registry. */
  ghost predicate CallStep(
    limits: Limits, call: Call, source: Option<Source>, random: Option<Locator>,
    s: EagerRegistry.Registry, t: EagerRegistry.Registry, r: Response)
  {
    match call.request
    case ReleaseRequest(l) => Step(limits, s, Release(call.peer, l), t, r)
    case AllocateRequest =>
      if source.None? then t == s && r == Retry
      else Step(limits, s, Allocate(call.peer, source.value, random), t, r)
    case ReclaimRequest(l) =>
      if source.None? then t == s && r == Retry
      else Step(limits, s, Reclaim(call.peer, source.value, l), t, r)
  }

  /** A call reaches the registry only on the still unique connection it was admitted on. */
  ghost predicate Decided(
    limits: Limits, book: Book, call: Call, random: Option<Locator>,
    s: EagerRegistry.Registry, t: EagerRegistry.Registry, r: Response)
  {
    if book.IsUnique(call.peer, call.admitted)
    then CallStep(limits, call, book.endpoints[call.admitted], random, s, t, r)
    else t == s && r == Retry
  }

  /** A decision for a task that waits; a failing random source ends the loop. */
  function AfterWaiting(s: Loop, p: Peer, call: Call, registry: EagerRegistry.Registry, r: Response): Loop {
    if r.RandomFailed? then s.(stopped := true)
    else
      SetTask(s, p, Delivered(if r.Capacity? then Some(call.admitted) else None)).(
        registry := registry, rejected := s.rejected + if r.Capacity? then {p} else {})
  }

  /** A decision nobody waits for; a rejection closes the peer at once. */
  function AfterLate(s: Loop, call: Call, registry: EagerRegistry.Registry, r: Response): Loop {
    var around := s.around.(late := s.around.late - multiset{call});
    if r.RandomFailed? then s.(stopped := true)
    else if r.Capacity? then
      s.(registry := registry, rejected := s.rejected + {call.peer},
         around := around.Tell(call.peer, s.book.Roster(call.peer)))
    else s.(registry := registry, around := around)
  }

  function AfterDone(s: Loop, p: Peer): Loop
    requires p in s.around.tasks && s.around.tasks[p].Ended?
  {
    var around := s.around.(tasks := s.around.tasks - {p});
    Unmark(s.(around := if s.around.tasks[p].rejected.Some? then around.Tell(p, s.book.Roster(p)) else around), p)
  }

  /** One turn of the loop or of its surroundings; an event that cannot happen now changes nothing. */
  ghost predicate LoopStep(limits: Limits, s: Loop, e: LoopEvent, t: Loop, r: Response) {
    !s.stopped &&
    match e
    case Swarm(event) => t == AfterSwarm(s, event)
    case Incoming(p, permit) =>
      if id :| Admissible(s, p, permit, id) then t == SetTask(s, p, Reading(id)) else t == s
    case TaskMove(move) => t == if TaskEnabled(move, s.around.tasks) then AfterTask(s, move) else s
    case Waiting(p, random) =>
      if p in s.around.tasks && s.around.tasks[p].Queued? then
        var call := s.around.tasks[p].call;
        exists registry ::
          && Decided(limits, s.book, call, random, s.registry, registry, r)
          && t == AfterWaiting(s, p, call, registry, r)
      else t == s
    case Late(call, random) =>
      if call in s.around.late then
        exists registry ::
          && Decided(limits, s.book, call, random, s.registry, registry, r)
          && t == AfterLate(s, call, registry, r)
      else t == s
    case Done(p) => t == if p in s.around.tasks && s.around.tasks[p].Ended? then AfterDone(s, p) else s
    case Lookup(_, _) => t == s
    case Tick(elapsed) =>
      exists registry :: Step(limits, s.registry, Advance(elapsed), registry, Nothing) && t == s.(registry := registry)
  }

  /** Serving a queued call is a step, whatever the registry answered. */
  lemma WaitingIsStep(limits: Limits, s: Loop, p: Peer, random: Option<Locator>,
                      registry: EagerRegistry.Registry, r: Response)
    requires !s.stopped && p in s.around.tasks && s.around.tasks[p].Queued?
    requires Decided(limits, s.book, s.around.tasks[p].call, random, s.registry, registry, r)
    ensures LoopStep(limits, s, Waiting(p, random), AfterWaiting(s, p, s.around.tasks[p].call, registry, r), r)
  {
  }

  lemma LateIsStep(limits: Limits, s: Loop, call: Call, random: Option<Locator>,
                   registry: EagerRegistry.Registry, r: Response)
    requires !s.stopped && call in s.around.late
    requires Decided(limits, s.book, call, random, s.registry, registry, r)
    ensures LoopStep(limits, s, Late(call, random), AfterLate(s, call, registry, r), r)
  {
  }

  lemma IncomingIsStep(limits: Limits, s: Loop, p: Peer, permit: bool, id: Option<ConnectionId>)
    requires !s.stopped
    requires if id.Some? then Admissible(s, p, permit, id.value) else forall c :: !Admissible(s, p, permit, c)
    ensures LoopStep(limits, s, Incoming(p, permit), if id.Some? then SetTask(s, p, Reading(id.value)) else s, Nothing)
  {
  }

  /** A whole run of the loop from its start. */
  ghost predicate LoopRun(limits: Limits, events: seq<LoopEvent>, states: seq<Loop>, responses: seq<Response>) {
    && |states| == |events| + 1
    && |responses| == |events|
    && states[0] == EMPTY_LOOP
    && forall i {:trigger events[i]} :: 0 <= i < |events| ==>
         LoopStep(limits, states[i], events[i], states[i + 1], responses[i])
  }
}
